/**
  * The flat data memory of src/memory.rs: a growable vector of bytes with
  * byte and little-endian word access. Indexing past the end panics in the
  * source; here the methods require their addresses to be in range, and the
  * CPU model checks the range before it calls them.
  */
module Storage {
  import opened Bytes

  /** The little-endian word stored at `a` (low byte) and `a + 1` (high
      byte). */
  function ShortAt(m: seq<bv8>, a: int): bv16
    requires 0 <= a && a + 1 < |m|
  {
    Word(m[a], m[a + 1])
  }

  /** `m` with the word `d` stored little-endian at `a`. */
  function WithShort(m: seq<bv8>, a: int, d: bv16): (r: seq<bv8>)
    requires 0 <= a && a + 1 < |m|
    ensures |r| == |m|
  {
    m[a := Low(d)][a + 1 := High(d)]
  }

  /** A word read from memory is the low byte plus 256 times the high byte. */
  lemma ShortAtValue(m: seq<bv8>, a: int)
    requires 0 <= a && a + 1 < |m|
    ensures ShortAt(m, a) as int == m[a] as int + 256 * m[a + 1] as int
  {
    WordValue(m[a], m[a + 1]);
  }

  /** Writing a word and reading it back at the same address gives the word
      (src/memory.rs:20-32). */
  lemma ShortRoundTrip(m: seq<bv8>, a: int, d: bv16)
    requires 0 <= a && a + 1 < |m|
    ensures ShortAt(WithShort(m, a, d), a) == d
  {
    WordSplit(d);
  }

  /** Writing a word changes only the two bytes it occupies. */
  lemma WithShortFrame(m: seq<bv8>, a: int, d: bv16, i: int)
    requires 0 <= a && a + 1 < |m| && 0 <= i < |m| && i != a && i != a + 1
    ensures WithShort(m, a, d)[i] == m[i]
  {
  }

  class Memory {
    var memory: seq<bv8>

    /** `Memory::new(size)`: `size` bytes, all zero. */
    constructor(size: nat)
      ensures memory == seq(size, _ => 0)
    {
      memory := seq(size, _ => 0);
    }

    /** `memoryReadByte` */
    method ReadByte(address: bv16) returns (b: bv8)
      requires address as int < |memory|
      ensures b == memory[address]
    {
      b := memory[address];
    }

    /** `memoryReadShort`: the low byte at `address`, the high byte at
        `address + 1`; that sum is a u16 addition, which overflows for
        0xffff. */
    method ReadShort(address: bv16) returns (w: bv16)
      requires address as int < 0xFFFF && address as int + 1 < |memory|
      ensures w == ShortAt(memory, address as int)
    {
      var next := address + 1;
      Successor(address);
      var low := memory[address];
      var high := memory[next];
      w := Word(low, high);
    }

    /** `memoryWriteShort`: the low byte at `address`, the high byte at
        `address + 1`, nothing else. */
    method WriteShort(address: bv16, data: bv16)
      requires address as int < 0xFFFF && address as int + 1 < |memory|
      modifies this
      ensures memory == WithShort(old(memory), address as int, data)
    {
      Successor(address);
      var high := High(data);
      var low := Low(data);
      WriteByte(address, low);
      WriteByte(address + 1, high);
    }

    /** `memoryWriteByte` */
    method WriteByte(address: bv16, val: bv8)
      requires address as int < |memory|
      modifies this
      ensures memory == old(memory)[address as int := val]
    {
      memory := memory[address as int := val];
    }
  }

  /** The unit test of src/memory.rs:46-52: a byte written to a fresh
      16-byte memory reads back. */
  method ReadMemoryExample() returns (b: bv8)
    ensures b == 0x60
  {
    var mem := new Memory(0x10);
    mem.WriteByte(0x04, 0x60);
    b := mem.ReadByte(0x04);
  }
}
