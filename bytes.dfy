/**
  * Bytes and little-endian words as the emulator's registers and memory hold
  * them: unsigned 8-bit (`u8`) and 16-bit (`u16`) values, modelled as `bv8`
  * and `bv16`, together with their integer readings.
  *
  * The small lemmas in this module connect bit-vector expressions to integer
  * arithmetic one conversion at a time; the solver handles each of those
  * steps alone, but not several of them at once.
  */
module Bytes {

  /** The 16-bit word whose low byte is `lo` and high byte is `hi`:
      `(high << 8) | low`, the value `readShort` and `memoryReadShort` build. */
  function Word(lo: bv8, hi: bv8): bv16
  {
    ((hi as bv16) << 8) | (lo as bv16)
  }

  /** `(w & 0xff) as u8` */
  function Low(w: bv16): bv8
  {
    (w & 0xFF) as bv8
  }

  /** `(w >> 8) as u8` */
  function High(w: bv16): bv8
  {
    (w >> 8) as bv8
  }

  /** A byte read as a two's complement signed number (`as i8`). */
  function Signed(b: bv8): (r: int)
    ensures -128 <= r < 128
  {
    ByteRange(b);
    if b < 0x80 then b as int else b as int - 256
  }

  /** `b as i8 as u16`: the byte sign-extended to 16 bits. */
  function SignExtend(b: bv8): bv16
  {
    if b < 0x80 then b as bv16 else (b as bv16) | 0xFF00
  }

  lemma ByteRange(b: bv8)
    ensures 0 <= b as int < 256
  {
  }

  lemma WidenByte(b: bv8)
    ensures (b as bv16) as int == b as int
  {
  }

  lemma ShiftedHighValue(hi: bv8)
    ensures ((hi as bv16) << 8) as int == 256 * hi as int
  {
  }

  lemma ShiftedSumValue(hi: bv8, lo: bv8)
    ensures (((hi as bv16) << 8) + (lo as bv16)) as int == ((hi as bv16) << 8) as int + (lo as bv16) as int
  {
  }

  lemma WordIsSum(lo: bv8, hi: bv8)
    ensures Word(lo, hi) == ((hi as bv16) << 8) + (lo as bv16)
  {
  }

  /** The word's numeric value is `lo + 256 * hi` (little-endian). */
  lemma WordValue(lo: bv8, hi: bv8)
    ensures Word(lo, hi) as int == lo as int + 256 * hi as int
  {
    WordIsSum(lo, hi);
    ShiftedSumValue(hi, lo);
    ShiftedHighValue(hi);
    WidenByte(lo);
  }

  /** Splitting a word into its bytes and joining them again is the identity. */
  lemma WordSplit(w: bv16)
    ensures Word(Low(w), High(w)) == w
  {
  }

  /** Joining two bytes and splitting the word gives the bytes back. */
  lemma WordJoin(lo: bv8, hi: bv8)
    ensures Low(Word(lo, hi)) == lo && High(Word(lo, hi)) == hi
  {
  }

  lemma DivMod256(l: int, h: int, n: int)
    requires 0 <= l < 0x100 && n == l + 0x100 * h
    ensures n % 0x100 == l && n / 0x100 == h
  {
  }

  lemma DivMod65536(l: int, h: int, n: int)
    requires 0 <= l < 0x1_0000 && n == l + 0x1_0000 * h
    ensures n % 0x1_0000 == l && n / 0x1_0000 == h
  {
  }

  /** Truncating a word to its low byte is reduction modulo 256, and its high
      byte is the quotient by 256. */
  lemma LowHighValue(w: bv16)
    ensures Low(w) as int == w as int % 256
    ensures High(w) as int == w as int / 256
  {
    WordSplit(w);
    WordValue(Low(w), High(w));
    ByteRange(Low(w));
    DivMod256(Low(w) as int, High(w) as int, w as int);
  }

  lemma WordRange(w: bv16)
    ensures 0 <= w as int < 0x1_0000
  {
  }

  lemma OffsetByteValue(b: bv8)
    ensures ((b as bv16) + 0xFF00) as int == b as int + 0xFF00
  {
  }

  /** A byte sign-extended to 16 bits is its signed value modulo 2^16. */
  lemma SignExtendValue(b: bv8)
    ensures SignExtend(b) as int == (Signed(b) + 0x1_0000) % 0x1_0000
  {
    WidenByte(b);
    if b >= 0x80 {
      assert SignExtend(b) == (b as bv16) + 0xFF00;
      OffsetByteValue(b);
    }
  }

  lemma WideSumValue(u: bv16, v: bv16)
    ensures ((u as bv32) + (v as bv32)) as int == u as int + v as int
  {
  }

  lemma CarriedWideValue(t: bv16)
    ensures ((t as bv32) + 0x1_0000) as int == t as int + 0x1_0000
  {
  }

  /** Adding two words in 16 bits (`wrapping_add`) wraps modulo 2^16. */
  lemma AddWords(u: bv16, v: bv16)
    ensures (u + v) as int == (u as int + v as int) % 0x1_0000
  {
    if (u as bv32) + (v as bv32) < 0x1_0000 {
      SumBelowWrap(u, v);
    } else {
      SumWraps(u, v);
    }
  }

  lemma WidenWord(t: bv16)
    ensures (t as bv32) as int == t as int
  {
  }

  lemma SumBelowWrap(u: bv16, v: bv16)
    requires (u as bv32) + (v as bv32) < 0x1_0000
    ensures (u + v) as int == (u as int + v as int) % 0x1_0000
  {
    var s := (u as bv32) + (v as bv32);
    var t := u + v;
    WideSumValue(u, v);
    assert s == t as bv32;
    WidenWord(t);
    WordRange(t);
    ReduceWord(t as int, u as int + v as int);
  }

  lemma SumWraps(u: bv16, v: bv16)
    requires !((u as bv32) + (v as bv32) < 0x1_0000)
    ensures (u + v) as int == (u as int + v as int) % 0x1_0000
  {
    var s := (u as bv32) + (v as bv32);
    var t := u + v;
    WideSumValue(u, v);
    assert s == (t as bv32) + 0x1_0000;
    CarriedWideValue(t);
    WordRange(t);
    ReduceWord(t as int, u as int + v as int);
  }

  /** A sum that is either below 2^16 or exactly 2^16 too large. */
  lemma ReduceWord(t: int, n: int)
    requires 0 <= t < 0x1_0000 && (t == n || t + 0x1_0000 == n)
    ensures n % 0x1_0000 == t
  {
    if t == n {
      DivMod65536(t, 0, n);
    } else {
      DivMod65536(t, 1, n);
    }
  }

  /** Adding to a u16 without passing 0xffff does not wrap. */
  lemma AddSmall(a: bv16, k: bv16)
    requires a as int + k as int < 0x1_0000
    ensures (a + k) as int == a as int + k as int
  {
    AddWords(a, k);
    DivMod65536(a as int + k as int, 0, a as int + k as int);
  }

  /** `a + 1` on u16. */
  function Next(a: bv16): bv16
  {
    a + 1
  }

  /** `a + 2` on u16. */
  function NextTwo(a: bv16): bv16
  {
    a + 2
  }

  lemma AddKnown(a: bv16, k: bv16, n: int)
    requires k as int == n && a as int + n < 0x1_0000
    ensures (a + k) as int == a as int + n
  {
    AddSmall(a, k);
  }

  lemma NextValue(a: bv16)
    requires a as int < 0xFFFF
    ensures Next(a) as int == a as int + 1
  {
    var one: bv16 := 1;
    AddKnown(a, one, 1);
  }

  lemma NextTwoValue(a: bv16)
    requires a as int < 0xFFFE
    ensures NextTwo(a) as int == a as int + 2
  {
    var two: bv16 := 2;
    AddKnown(a, two, 2);
  }

  lemma TopValue(a: bv16)
    requires a as int == 0xFFFF
    ensures a == 0xFFFF
  {
    assert a == (a as int) as bv16;
  }

  lemma TopTwoValue(a: bv16)
    requires a as int == 0xFFFE
    ensures a == 0xFFFE
  {
    assert a == (a as int) as bv16;
  }

  /** A u16 other than 0xffff is below it as a number. */
  lemma BelowTop(a: bv16)
    requires a != 0xFFFF
    ensures a as int < 0xFFFF
  {
    WordRange(a);
    if a as int == 0xFFFF {
      TopValue(a);
    }
  }

  /** A u16 other than 0xfffe and 0xffff is below 0xfffe as a number. */
  lemma BelowTopTwo(a: bv16)
    requires a != 0xFFFF && a != 0xFFFE
    ensures a as int < 0xFFFE
  {
    WordRange(a);
    if a as int == 0xFFFF {
      TopValue(a);
    } else if a as int == 0xFFFE {
      TopTwoValue(a);
    }
  }

  /** Adding one to a u16 below 0xffff does not wrap. */
  lemma Successor(a: bv16)
    requires a as int < 0xFFFF
    ensures (a + 1) as int == a as int + 1
  {
    NextValue(a);
  }

  /** Adding two to a u16 below 0xfffe does not wrap. */
  lemma SuccessorTwo(a: bv16)
    requires a as int < 0xFFFE
    ensures (a + 2) as int == a as int + 2
  {
    NextTwoValue(a);
  }

  lemma WideByteSumValue(u: bv8, v: bv8)
    ensures ((u as bv16) + (v as bv16)) as int == u as int + v as int
  {
  }

  lemma CarriedByteValue(t: bv8)
    ensures ((t as bv16) + 0x100) as int == t as int + 0x100
  {
  }

  lemma NarrowByte(s: bv16)
    requires s < 0x100
    ensures (s as bv8) as int == s as int && Low(s) == s as bv8
  {
  }

  /** Adding two bytes in 8 bits (`wrapping_add`) wraps modulo 256. */
  lemma AddBytes(u: bv8, v: bv8)
    ensures (u + v) as int == (u as int + v as int) % 0x100
  {
    if (u as bv16) + (v as bv16) < 0x100 {
      ByteSumBelowWrap(u, v);
    } else {
      ByteSumWraps(u, v);
    }
  }

  lemma ByteSumBelowWrap(u: bv8, v: bv8)
    requires (u as bv16) + (v as bv16) < 0x100
    ensures (u + v) as int == (u as int + v as int) % 0x100
  {
    var s := (u as bv16) + (v as bv16);
    var t := u + v;
    WideByteSumValue(u, v);
    assert s == t as bv16;
    WidenByte(t);
    ByteRange(t);
    ReduceByte(t as int, u as int + v as int);
  }

  lemma ByteSumWraps(u: bv8, v: bv8)
    requires !((u as bv16) + (v as bv16) < 0x100)
    ensures (u + v) as int == (u as int + v as int) % 0x100
  {
    var s := (u as bv16) + (v as bv16);
    var t := u + v;
    WideByteSumValue(u, v);
    assert s == (t as bv16) + 0x100;
    CarriedByteValue(t);
    ByteRange(t);
    ReduceByte(t as int, u as int + v as int);
  }

  /** A sum that is either below 256 or exactly 256 too large. */
  lemma ReduceByte(t: int, n: int)
    requires 0 <= t < 0x100 && (t == n || t + 0x100 == n)
    ensures n % 0x100 == t
  {
    if t == n {
      DivMod256(t, 0, n);
    } else {
      DivMod256(t, 1, n);
    }
  }

  /** Adding a byte to a word in 16 bits wraps modulo 2^16. */
  lemma AddByteToWord(w: bv16, b: bv8)
    ensures (w + (b as bv16)) as int == (w as int + b as int) % 0x1_0000
  {
    WidenByte(b);
    AddWords(w, b as bv16);
  }

  /** Replacing a word's low byte by that byte plus `b` modulo 256 keeps
      the high byte. */
  lemma AddToLowByte(w: bv16, b: bv8)
    ensures High(Word(Low(w) + b, High(w))) == High(w)
    ensures Low(Word(Low(w) + b, High(w))) as int == (Low(w) as int + b as int) % 0x100
  {
    WordJoin(Low(w) + b, High(w));
    AddBytes(Low(w), b);
  }

  /** `0x0100 | b` is `0x100 + b`. */
  lemma PageOneValue(b: bv8)
    ensures (0x0100 | (b as bv16)) as int == 0x100 + b as int
  {
  }

  /** `0x0100 - b` is `0x100 - b`, between 1 and 0x100. */
  lemma PageOneOffsetValue(b: bv8)
    ensures (0x0100 - (b as bv16)) as int == 0x100 - b as int
  {
  }

  /** Adding one to a byte in 8 bits wraps modulo 256. */
  lemma IncByte(b: bv8)
    ensures (b + 1) as int == (b as int + 1) % 0x100
  {
    AddBytes(b, 1);
  }

  /** Subtracting one from a byte in 8 bits wraps modulo 256. */
  lemma DecByte(b: bv8)
    ensures (b - 1) as int == (b as int + 0xFF) % 0x100
  {
    assert b - 1 == b + 0xFF;
    AddBytes(b, 0xFF);
  }

  /** A byte widened to 16 bits has itself as its low byte. */
  lemma LowOfByte(b: bv8)
    ensures Low(b as bv16) == b
  {
  }

  /** Subtracting one from a u16 other than 0 does not wrap. */
  lemma Predecessor(w: bv16)
    requires w != 0
    ensures (w - 1) as int == w as int - 1
  {
    var p := w - 1;
    assert p != 0xFFFF;
    assert Next(p) == w;
    BelowTop(p);
    NextValue(p);
  }
}
