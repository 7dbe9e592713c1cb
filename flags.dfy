/**
  * The packed status register (`Flags`, src/cpu.rs:13-20) and the pure
  * arithmetic the instruction handlers perform on it: the flag setters, the
  * adder behind ADC and SBC, the compare, the shifts and rotates, and BIT.
  *
  * Each function computes what the source computes, with the same masks; its
  * contract (or the lemma beside it) states the result as integer arithmetic
  * on the operands, independently of the bit manipulation.
  */
module Flags {
  import opened Bytes

  const CARRY: bv8 := 0x01
  const ZERO: bv8 := 0x02
  const INTERRUPT_DISABLE: bv8 := 0x04
  const DECIMAL_MODE: bv8 := 0x08
  const BREAK_COMMAND: bv8 := 0x10
  const OVERFLOW: bv8 := 0x20
  const NEGATIVE: bv8 := 0x40

  predicate IsSet(flags: bv8, bit: bv8)
  {
    flags & bit != 0
  }

  /** The carry-in of ADC and SBC: 1 when Carry is set, else 0. */
  function CarryIn(flags: bv8): (c: int)
    ensures c == 0 || c == 1
    ensures c == 1 <==> IsSet(flags, CARRY)
  {
    if flags & CARRY == 0 then 0 else 1
  }

  /** `setZeroFlag`: Zero records whether `val` is 0; no other bit moves. */
  function SetZero(flags: bv8, val: bv8): (r: bv8)
    ensures IsSet(r, ZERO) <==> val == 0
    ensures r & !ZERO == flags & !ZERO
  {
    if val == 0 then flags | 0x02 else flags & 0xFD
  }

  /** `setNegativeFlag`: Negative (bit 6) records bit 7 of `val`. */
  function SetNegative(flags: bv8, val: bv8): (r: bv8)
    ensures IsSet(r, NEGATIVE) <==> val as int >= 128
    ensures r & !NEGATIVE == flags & !NEGATIVE
  {
    if val & 0x80 != 0 then flags | 0x40 else flags & 0xBF
  }

  /** The pair `setZeroFlag(v); setNegativeFlag(v)` that loads, transfers,
      logic operations, increments and shifts end with. */
  function SetZeroNegative(flags: bv8, val: bv8): (r: bv8)
    ensures IsSet(r, ZERO) <==> val == 0
    ensures IsSet(r, NEGATIVE) <==> val as int >= 128
    ensures r & 0xBD == flags & 0xBD
  {
    SetNegative(SetZero(flags, val), val)
  }

  /** Setting Zero and Negative leaves Carry as it was. */
  lemma ZeroNegativeKeepsCarry(flags: bv8, val: bv8)
    ensures IsSet(SetZeroNegative(flags, val), CARRY) <==> IsSet(flags, CARRY)
  {
    var r := SetZeroNegative(flags, val);
    assert r & 0xBD == flags & 0xBD;
    assert r & CARRY == (r & 0xBD) & CARRY;
    assert flags & CARRY == (flags & 0xBD) & CARRY;
  }

  /** `setCarryFlag`: its test `val >= 0` is on an unsigned byte and always
      holds, so Carry always ends set, whatever `val` is. */
  function SetCarry(flags: bv8, val: bv8): (r: bv8)
    ensures IsSet(r, CARRY)
    ensures r & !CARRY == flags & !CARRY
  {
    flags | 0x01
  }

  /** `setInterruptDisable` */
  function SetInterruptDisable(flags: bv8): (r: bv8)
    ensures IsSet(r, INTERRUPT_DISABLE) && r & !INTERRUPT_DISABLE == flags & !INTERRUPT_DISABLE
  {
    flags | 0x04
  }

  /** `setDecimalModeFlag` */
  function SetDecimalMode(flags: bv8): (r: bv8)
    ensures IsSet(r, DECIMAL_MODE) && r & !DECIMAL_MODE == flags & !DECIMAL_MODE
  {
    flags | 0x08
  }

  /** `setBreakCommand` */
  function SetBreakCommand(flags: bv8): (r: bv8)
    ensures IsSet(r, BREAK_COMMAND) && r & !BREAK_COMMAND == flags & !BREAK_COMMAND
  {
    flags | 0x10
  }

  /** `setOverflowFlag(f)` ignores `f` and always sets Overflow. */
  function SetOverflow(flags: bv8, f: bool): (r: bv8)
    ensures IsSet(r, OVERFLOW) && r & !OVERFLOW == flags & !OVERFLOW
  {
    flags | 0x20
  }

  // ---------------------------------------------------------------- ADC / SBC

  /** The body of ADC (src/cpu.rs:596-612) on the accumulator `a`, operand
      `val` and status `flags`: returns the new accumulator and the new status.
      The sum is taken in 16 bits; Carry is set when it exceeds 0xff; Overflow
      is set when both operands' sign differs from the result's; Zero and
      Negative are left as they were. */
  function AddWithCarry(a: bv8, val: bv8, flags: bv8): (bv8, bv8)
  {
    var sum: bv16 := (a as bv16) + (val as bv16) + ((flags & 0x01) as bv16);
    var withCarry := if sum > 0xff then flags | 0x01 else flags & 0xFE;
    var result := Low(sum);
    var withOverflow :=
      if (val ^ result) & (result ^ a) & 0x80 != 0 then withCarry | 0x20
      else withCarry & 0xDF;
    (result, withOverflow)
  }

  /** The sum has a signed overflow when it leaves -128..127. */
  predicate SignedOverflow(n: int)
  {
    !(-128 <= n < 128)
  }

  lemma CarryInBit(flags: bv8)
    ensures (flags & 0x01) <= 1 && (flags & 0x01) as int == CarryIn(flags)
  {
  }

  lemma SumValue(a: bv8, val: bv8, c: bv8)
    requires c <= 1
    ensures ((a as bv16) + (val as bv16) + (c as bv16)) as int == a as int + val as int + c as int
  {
  }

  function Sum(a: bv8, val: bv8, flags: bv8): bv16
  {
    (a as bv16) + (val as bv16) + ((flags & 0x01) as bv16)
  }

  // What ADC computes, on bits, one fact per lemma: the result is the low
  // byte of the 16-bit sum, Carry says whether the sum exceeds 0xff, Overflow
  // says whether both operands' sign bits agree and the result's differs, and
  // the other bits stay.

  lemma AddWithCarryResultBits(a: bv8, val: bv8, flags: bv8)
    ensures AddWithCarry(a, val, flags).0 == Low(Sum(a, val, flags))
  {
  }

  lemma AddWithCarryCarryBit(a: bv8, val: bv8, flags: bv8)
    ensures IsSet(AddWithCarry(a, val, flags).1, CARRY) <==> Sum(a, val, flags) > 0xff
  {
  }

  lemma SignsDisagree(a: bv8, val: bv8, r: bv8)
    ensures (val ^ r) & (r ^ a) & 0x80 != 0
        <==> (IsSet(a, 0x80) == IsSet(val, 0x80) && IsSet(r, 0x80) != IsSet(a, 0x80))
  {
  }

  lemma AddWithCarryOverflowBit(a: bv8, val: bv8, flags: bv8)
    ensures var r := AddWithCarry(a, val, flags).0;
      IsSet(AddWithCarry(a, val, flags).1, OVERFLOW)
      <==> (IsSet(a, 0x80) == IsSet(val, 0x80) && IsSet(r, 0x80) != IsSet(a, 0x80))
  {
    SignsDisagree(a, val, AddWithCarry(a, val, flags).0);
  }

  lemma AddWithCarryOtherBits(a: bv8, val: bv8, flags: bv8)
    ensures AddWithCarry(a, val, flags).1 & 0xDE == flags & 0xDE
  {
  }

  lemma SumAboveByte(sum: bv16)
    ensures sum > 0xff <==> sum as int > 255
  {
  }

  lemma SignBit(b: bv8)
    ensures IsSet(b, 0x80) <==> b as int >= 128
    ensures b as int >= 128 ==> Signed(b) == b as int - 256
    ensures b as int < 128 ==> Signed(b) == b as int
  {
  }

  lemma OverflowArithmetic(ov: bool, a: int, v: int, c: int, r: int, sa: int, sv: int, na: bool, nv: bool, nr: bool)
    requires 0 <= a < 256 && 0 <= v < 256 && 0 <= c <= 1
    requires r == (a + v + c) % 256
    requires a >= 128 ==> sa == a - 256
    requires a < 128 ==> sa == a
    requires v >= 128 ==> sv == v - 256
    requires v < 128 ==> sv == v
    requires (na <==> a >= 128) && (nv <==> v >= 128) && (nr <==> r >= 128)
    requires ov <==> (na == nv && nr != na)
    ensures ov <==> SignedOverflow(sa + sv + c)
  {
    if a + v + c >= 256 {
      DivMod256(a + v + c - 256, 1, a + v + c);
    } else {
      DivMod256(a + v + c, 0, a + v + c);
    }
  }

  lemma SumInt(a: bv8, val: bv8, flags: bv8)
    ensures Sum(a, val, flags) as int == a as int + val as int + CarryIn(flags)
  {
    CarryInBit(flags);
    SumValue(a, val, flags & 0x01);
  }

  lemma AddWithCarryResult(a: bv8, val: bv8, flags: bv8)
    ensures AddWithCarry(a, val, flags).0 as int == (a as int + val as int + CarryIn(flags)) % 256
  {
    AddWithCarryResultBits(a, val, flags);
    SumInt(a, val, flags);
    LowHighValue(Sum(a, val, flags));
  }

  lemma AddWithCarryCarry(a: bv8, val: bv8, flags: bv8)
    ensures IsSet(AddWithCarry(a, val, flags).1, CARRY) <==> a as int + val as int + CarryIn(flags) > 255
  {
    AddWithCarryCarryBit(a, val, flags);
    SumInt(a, val, flags);
    SumAboveByte(Sum(a, val, flags));
  }

  lemma AddWithCarryOverflow(a: bv8, val: bv8, flags: bv8)
    ensures IsSet(AddWithCarry(a, val, flags).1, OVERFLOW)
        <==> SignedOverflow(Signed(a) + Signed(val) + CarryIn(flags))
  {
    var result := AddWithCarry(a, val, flags).0;
    AddWithCarryOverflowBit(a, val, flags);
    AddWithCarryResult(a, val, flags);
    SignBit(a);
    SignBit(val);
    SignBit(result);
    ByteRange(a);
    ByteRange(val);
    OverflowArithmetic(IsSet(AddWithCarry(a, val, flags).1, OVERFLOW), a as int, val as int, CarryIn(flags),
                       result as int, Signed(a), Signed(val), IsSet(a, 0x80), IsSet(val, 0x80), IsSet(result, 0x80));
  }

  /** ADC against the integer definition of 8-bit addition with carry: the new
      accumulator is `a + val + C` modulo 256, Carry is set exactly when that sum
      exceeds 255, Overflow exactly when the signed sum leaves -128..127, and
      every other bit of the status (Zero and Negative included) is kept. */
  lemma AddWithCarryReference(a: bv8, val: bv8, flags: bv8)
    ensures AddWithCarry(a, val, flags).0 as int == (a as int + val as int + CarryIn(flags)) % 256
    ensures IsSet(AddWithCarry(a, val, flags).1, CARRY) <==> a as int + val as int + CarryIn(flags) > 255
    ensures IsSet(AddWithCarry(a, val, flags).1, OVERFLOW)
        <==> SignedOverflow(Signed(a) + Signed(val) + CarryIn(flags))
    ensures AddWithCarry(a, val, flags).1 & 0xDE == flags & 0xDE
  {
    AddWithCarryResult(a, val, flags);
    AddWithCarryCarry(a, val, flags);
    AddWithCarryOverflow(a, val, flags);
    AddWithCarryOtherBits(a, val, flags);
  }

  /** `(val as i8).wrapping_neg().wrapping_sub(1) as u8`, SBC's operand
      transformation: it is the bitwise complement of `val`. */
  function NegateMinusOne(val: bv8): (r: bv8)
    ensures r == !val
  {
    (0 - val) - 1
  }

  /** The body of SBC: ADC applied to the complemented operand. */
  function SubtractWithCarry(a: bv8, val: bv8, flags: bv8): (bv8, bv8)
  {
    AddWithCarry(a, NegateMinusOne(val), flags)
  }

  lemma ComplementValue(val: bv8)
    ensures (!val) as int == 255 - val as int
    ensures Signed(!val) == -Signed(val) - 1
  {
    assert !val == 0xFF - val;
    SignBit(val);
    SignBit(!val);
  }

  lemma ComplementSum(a: int, v: int, n: int, c: int, sa: int, sv: int, sn: int)
    requires n == 255 - v && sn == -sv - 1
    ensures a + n + c == (a - v - (1 - c)) + 256
    ensures sa + sn + c == sa - sv - (1 - c)
  {
  }

  lemma SubtractWithCarryResult(a: bv8, val: bv8, flags: bv8)
    ensures SubtractWithCarry(a, val, flags).0 as int
        == (a as int - val as int - (1 - CarryIn(flags))) % 256
  {
    var n := !val;
    ComplementValue(val);
    AddWithCarryResult(a, n, flags);
    ComplementSum(a as int, val as int, n as int, CarryIn(flags), Signed(a), Signed(val), Signed(n));
    var d := a as int - val as int - (1 - CarryIn(flags));
    assert (d + 256) % 256 == d % 256;
  }

  lemma SubtractWithCarryCarry(a: bv8, val: bv8, flags: bv8)
    ensures IsSet(SubtractWithCarry(a, val, flags).1, CARRY)
        <==> a as int - val as int - (1 - CarryIn(flags)) >= 0
  {
    var n := !val;
    ComplementValue(val);
    AddWithCarryCarry(a, n, flags);
    ComplementSum(a as int, val as int, n as int, CarryIn(flags), Signed(a), Signed(val), Signed(n));
  }

  lemma SubtractWithCarryOverflow(a: bv8, val: bv8, flags: bv8)
    ensures IsSet(SubtractWithCarry(a, val, flags).1, OVERFLOW)
        <==> SignedOverflow(Signed(a) - Signed(val) - (1 - CarryIn(flags)))
  {
    var n := !val;
    ComplementValue(val);
    AddWithCarryOverflow(a, n, flags);
    ComplementSum(a as int, val as int, n as int, CarryIn(flags), Signed(a), Signed(val), Signed(n));
  }

  /** SBC against the integer definition of subtraction with borrow (the
      borrow is the complement of Carry): the new accumulator is
      `a - val - (1 - C)` modulo 256, Carry ends set exactly when no borrow
      was needed, Overflow exactly when the signed difference leaves
      -128..127, and Zero and Negative are kept. */
  lemma SubtractWithCarryReference(a: bv8, val: bv8, flags: bv8)
    ensures SubtractWithCarry(a, val, flags).0 as int
        == (a as int - val as int - (1 - CarryIn(flags))) % 256
    ensures IsSet(SubtractWithCarry(a, val, flags).1, CARRY)
        <==> a as int - val as int - (1 - CarryIn(flags)) >= 0
    ensures IsSet(SubtractWithCarry(a, val, flags).1, OVERFLOW)
        <==> SignedOverflow(Signed(a) - Signed(val) - (1 - CarryIn(flags)))
    ensures SubtractWithCarry(a, val, flags).1 & 0xDE == flags & 0xDE
  {
    SubtractWithCarryResult(a, val, flags);
    SubtractWithCarryCarry(a, val, flags);
    SubtractWithCarryOverflow(a, val, flags);
    AddWithCarryOtherBits(a, !val, flags);
  }

  // ---------------------------------------------------------------- compare

  /** The flags `compare` leaves after `result = value - val`, which is only
      reached when `val <= value` (the u8 subtraction panics otherwise):
      Carry always set, Zero exactly when the two are equal, Negative from bit
      7 of the difference; no other bit moves. */
  function CompareFlags(flags: bv8, value: bv8, val: bv8): (r: bv8)
    requires val <= value
    ensures IsSet(r, CARRY)
    ensures IsSet(r, ZERO) <==> value == val
    ensures IsSet(r, NEGATIVE) <==> value as int - val as int >= 128
    ensures r & 0xBC == flags & 0xBC
  {
    var result := value - val;
    DifferenceValue(value, val);
    SetNegative(SetZero(SetCarry(flags, result), result), result)
  }

  lemma DifferenceValue(value: bv8, val: bv8)
    requires val <= value
    ensures (value - val) as int == value as int - val as int
  {
    var d := value - val;
    assert value == val + d;
    assert (val as bv16) + (d as bv16) < 0x100;
    WideByteSumValue(val, d);
    NarrowByte((val as bv16) + (d as bv16));
  }

  // ---------------------------------------------------------------- shifts

  lemma DoubleValue(val: bv8)
    ensures (val << 1) as int == (2 * val as int) % 256
    ensures val >> 7 == 1 <==> val as int >= 128
  {
    var w := (val as bv16) << 1;
    assert w as int == 2 * val as int;
    assert val << 1 == Low(w);
    LowHighValue(w);
  }

  lemma HalveValue(val: bv8)
    ensures (val >> 1) as int == val as int / 2
    ensures val & 0x01 == 1 <==> val as int % 2 == 1
  {
  }

  /** ASL's carry and result (src/cpu.rs:702-704): the value doubled modulo
      256, with the bit shifted out (bit 7) in Carry. */
  function ShiftLeft(val: bv8, flags: bv8): (r: (bv8, bv8))
    ensures r.0 as int == (2 * val as int) % 256
    ensures IsSet(r.1, CARRY) <==> val as int >= 128
    ensures r.1 & !CARRY == flags & !CARRY
  {
    DoubleValue(val);
    var result := val << 1;
    (result, if (val >> 7) == 1 then flags | 0x01 else flags & 0xFE)
  }

  /** LSR's carry and result (src/cpu.rs:720-722): the value halved, with the
      bit shifted out (bit 0) in Carry. */
  function ShiftRight(val: bv8, flags: bv8): (r: (bv8, bv8))
    ensures r.0 as int == val as int / 2
    ensures IsSet(r.1, CARRY) <==> val as int % 2 == 1
    ensures r.1 & !CARRY == flags & !CARRY
  {
    HalveValue(val);
    var result := val >> 1;
    (result, if (val & 0x01) == 1 then flags | 0x01 else flags & 0xFE)
  }

  /** ROL's carry and result (src/cpu.rs:736-743): bit 7 moves into Carry and
      the previous Carry becomes bit 0. */
  function RotateLeft(val: bv8, flags: bv8): (r: (bv8, bv8))
    ensures IsSet(r.1, CARRY) <==> IsSet(val, 0x80)
    ensures r.1 & !CARRY == flags & !CARRY
  {
    var oldCarry := flags & 0x01;
    var result := (val << 1) | oldCarry;
    (result, if (val >> 7) == 1 then flags | 0x01 else flags & 0xFE)
  }

  /** ROR's carry and result (src/cpu.rs:759-766): bit 0 moves into Carry and
      the previous Carry becomes bit 7. */
  function RotateRight(val: bv8, flags: bv8): (r: (bv8, bv8))
    ensures IsSet(r.1, CARRY) <==> IsSet(val, 0x01)
    ensures r.1 & !CARRY == flags & !CARRY
  {
    var oldCarry := flags & 0x01;
    var result := (val >> 1) | (oldCarry << 7);
    (result, if (val & 0x01) == 1 then flags | 0x01 else flags & 0xFE)
  }

  lemma RotateLeftBits(val: bv8, flags: bv8)
    ensures RotateLeft(val, flags).0 == (val << 1) + (flags & 0x01)
    ensures (val << 1) & 1 == 0 && flags & 0x01 <= 1
  {
  }

  lemma RotateRightBits(val: bv8, flags: bv8)
    ensures RotateRight(val, flags).0 == (val >> 1) + ((flags & 0x01) << 7)
    ensures val >> 1 < 0x80 && flags & 0x01 <= 1
  {
  }

  lemma EvenPlusBit(even: bv8, bit: bv8)
    requires even & 1 == 0 && bit <= 1
    ensures (even + bit) as int == even as int + bit as int
  {
    assert (even as bv16) + (bit as bv16) < 0x100;
    WideByteSumValue(even, bit);
    NarrowByte((even as bv16) + (bit as bv16));
  }

  lemma TopBitSum(low: bv8, bit: bv8)
    requires low < 0x80 && bit <= 1
    ensures (low + (bit << 7)) as int == low as int + 128 * bit as int
  {
    assert (low as bv16) + ((bit << 7) as bv16) < 0x100;
    WideByteSumValue(low, bit << 7);
    NarrowByte((low as bv16) + ((bit << 7) as bv16));
  }

  lemma EvenResidue(v: int, d: int, c: int, r: int)
    requires 0 <= v < 256 && 0 <= c <= 1
    requires d == (2 * v) % 256 && r == d + c
    ensures r == (2 * v + c) % 256
  {
    if v >= 128 {
      DivMod256(2 * v - 256, 1, 2 * v);
      DivMod256(2 * v - 256 + c, 1, 2 * v + c);
    } else {
      DivMod256(2 * v, 0, 2 * v);
      DivMod256(2 * v + c, 0, 2 * v + c);
    }
  }

  /** ROL on integers: the new value is twice the old one plus the previous
      Carry, modulo 256, and Carry receives whether the old value was at
      least 128. */
  lemma RotateLeftValue(val: bv8, flags: bv8)
    ensures RotateLeft(val, flags).0 as int == (2 * val as int + CarryIn(flags)) % 256
    ensures IsSet(RotateLeft(val, flags).1, CARRY) <==> val as int >= 128
  {
    RotateLeftBits(val, flags);
    EvenPlusBit(val << 1, flags & 0x01);
    DoubleValue(val);
    CarryInBit(flags);
    SignBit(val);
    ByteRange(val);
    EvenResidue(val as int, (val << 1) as int, CarryIn(flags), RotateLeft(val, flags).0 as int);
  }

  /** ROR on integers: the new value is half the old one plus 128 times the
      previous Carry, and Carry receives whether the old value was odd. */
  lemma RotateRightValue(val: bv8, flags: bv8)
    ensures RotateRight(val, flags).0 as int == val as int / 2 + 128 * CarryIn(flags)
    ensures IsSet(RotateRight(val, flags).1, CARRY) <==> val as int % 2 == 1
  {
    RotateRightBits(val, flags);
    TopBitSum(val >> 1, flags & 0x01);
    HalveValue(val);
    CarryInBit(flags);
  }

  /** Rotating left and then right through Carry gives back both the value
      and the whole status byte. */
  lemma RotateLeftRight(val: bv8, flags: bv8)
    ensures RotateRight(RotateLeft(val, flags).0, RotateLeft(val, flags).1) == (val, flags)
  {
    var (r, f) := RotateLeft(val, flags);
    var (back, g) := RotateRight(r, f);
    assert back == val;
    assert g == flags by { SameBits(g, flags); }
  }

  lemma ByteEquality(u: bv8, v: bv8)
    requires u as int == v as int
    ensures u == v
  {
  }

  lemma SameBits(g: bv8, f: bv8)
    requires g & !CARRY == f & !CARRY && (IsSet(g, CARRY) <==> IsSet(f, CARRY))
    ensures g == f
  {
  }

  // ---------------------------------------------------------------- BIT

  /** BIT's flag update (src/cpu.rs:574-588) as written: Zero from `a & val`,
      then Overflow (bit 5) copies bit 5 of `val` and Negative (bit 6) copies
      bit 6 of `val`; the accumulator is not changed. */
  function BitTest(a: bv8, val: bv8, flags: bv8): (r: bv8)
    ensures IsSet(r, ZERO) <==> a & val == 0
    ensures IsSet(r, OVERFLOW) <==> IsSet(val, 0x20)
    ensures IsSet(r, NEGATIVE) <==> IsSet(val, 0x40)
    ensures r & 0x9D == flags & 0x9D
  {
    var z := SetZero(flags, a & val);
    var v := if val & 0x20 != 0 then z | 0x20 else z & 0xDF;
    if val & 0x40 != 0 then v | 0x40 else v & 0xBF
  }
}
