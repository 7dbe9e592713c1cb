/**
  * What the routines of src/cpu.rs promise, stated on their functions in
  * `Semantics`: when each one succeeds and when it faults, which registers,
  * flags and bytes it changes and to what, as integer arithmetic where the
  * source's bit operations are meant as arithmetic, and which of the stack
  * routines undo each other and which, as written, do not.
  */
module Properties {
  import opened Bytes
  import opened Flags
  import opened Instructions
  import opened Storage
  import opened Semantics

  // ---------------------------------------------------------------- fetch

  /** `readByte` succeeds exactly when PC is inside the program and below
      0xffff; it then gives the byte at PC and moves PC on by one, and
      changes nothing else. */
  lemma ReadByteSpec(s: State)
    ensures ReadByte(s).Ok? <==> s.registers.pc as int < |s.program| && s.registers.pc != 0xFFFF
    ensures ReadByte(s).Ok? ==>
      var (b, t) := ReadByte(s).value;
      b == s.program[s.registers.pc]
      && t.registers.pc as int == s.registers.pc as int + 1
      && t == s.(registers := s.registers.(pc := t.registers.pc))
  {
    var pc := s.registers.pc;
    if pc as int < |s.program| && pc != 0xFFFF {
      BelowTop(pc);
      NextValue(pc);
    }
  }

  /** `readShort` succeeds exactly when PC and PC + 1 are inside the program
      and PC + 2 does not overflow; it then gives the little-endian word there
      and moves PC on by two, and changes nothing else. */
  lemma ReadShortSpec(s: State)
    ensures ReadShort(s).Ok? <==>
      s.registers.pc as int + 1 < |s.program| && s.registers.pc != 0xFFFF && s.registers.pc != 0xFFFE
    ensures ReadShort(s).Ok? ==>
      var (w, t) := ReadShort(s).value;
      var pc := s.registers.pc as int;
      w as int == s.program[pc] as int + 256 * s.program[pc + 1] as int
      && t.registers.pc as int == pc + 2
      && t == s.(registers := s.registers.(pc := t.registers.pc))
  {
    var pc := s.registers.pc;
    if pc as int + 1 < |s.program| && pc != 0xFFFF && pc != 0xFFFE {
      BelowTopTwo(pc);
      NextTwoValue(pc);
      WordValue(s.program[pc], s.program[pc as int + 1]);
    }
  }

  /** `fetchAndDecodeInstruction` succeeds exactly when the byte at PC can be
      read and is in the opcode table; it then gives that table entry and
      moves PC on by one. A byte the table lacks is an illegal instruction. */
  lemma FetchAndDecodeSpec(s: State)
    ensures FetchAndDecode(s).Ok? <==>
      ReadByte(s).Ok? && Decode(s.program[s.registers.pc]).Some?
    ensures FetchAndDecode(s).Ok? ==>
      FetchAndDecode(s).value == (Decode(s.program[s.registers.pc]).value, ReadByte(s).value.1)
    ensures ReadByte(s).Ok? && Decode(s.program[s.registers.pc]).None? ==>
      FetchAndDecode(s) == Err(IllegalInstruction(s.program[s.registers.pc]))
  {
    ReadByteSpec(s);
  }

  /** The first entry the source's tests exercise: 0xa9 is LDA immediate. */
  lemma DecodeLdaImmediate()
    ensures Decode(0xA9) == Some(Instruction(LDA, Immediate))
  {
  }

  // ---------------------------------------------------------------- addressing

  /** ZeroPageX and ZeroPageY add the index to the operand byte in 16 bits:
      the address can pass 0xff, it does not wrap within page zero. */
  lemma ZeroPageIndexedValue(b: bv8, index: bv8)
    ensures ZeroPageIndexed(b, index) as int == b as int + index as int
  {
    var address := ZeroPageIndexed(b, index);
    assert address == (b as bv16) + (index as bv16);
    WideByteSumValue(b, index);
  }

  /** AbsoluteX and AbsoluteY keep the operand's high byte and add the index
      to its low byte modulo 256: no carry into the high byte. */
  lemma AbsoluteIndexedValue(w: bv16, index: bv8)
    ensures High(AbsoluteIndexed(w, index)) == High(w)
    ensures Low(AbsoluteIndexed(w, index)) as int == (Low(w) as int + index as int) % 256
  {
    var address := AbsoluteIndexed(w, index);
    assert address == Word(Low(w) + index, High(w));
    AddToLowByte(w, index);
  }

  /** IndirectX's pointer is the operand byte plus X modulo 256. */
  lemma ZeroPagePointerValue(b: bv8, index: bv8)
    ensures ZeroPagePointer(b, index) as int == (b as int + index as int) % 256
  {
    var pointer := ZeroPagePointer(b, index);
    assert pointer == (b + index) as bv16;
    AddBytes(b, index);
  }

  /** IndirectY's address is the word read plus Y modulo 65536. */
  lemma PostIndexedValue(w: bv16, index: bv8)
    ensures PostIndexed(w, index) as int == (w as int + index as int) % 0x1_0000
  {
    var address := PostIndexed(w, index);
    assert address == w + (index as bv16);
    AddByteToWord(w, index);
  }

  /** ZeroPageX: the byte after the opcode plus X, with PC moved past it. */
  lemma ZeroPageXAddress(s: State)
    requires ZeroPageXHandler(s).Ok?
    ensures var (address, t) := ZeroPageXHandler(s).value;
      address as int == s.program[s.registers.pc] as int + s.registers.x as int
      && t.registers.pc as int == s.registers.pc as int + 1
  {
    ReadByteSpec(s);
    ZeroPageIndexedValue(s.program[s.registers.pc], s.registers.x);
  }

  /** AbsoluteX: the operand word's high byte, and its low byte plus X
      modulo 256, with PC moved past the word. */
  lemma AbsoluteXAddress(s: State)
    requires AbsoluteXHandler(s).Ok?
    ensures var (address, t) := AbsoluteXHandler(s).value;
      var pc := s.registers.pc as int;
      High(address) == s.program[pc + 1]
      && Low(address) as int == (s.program[pc] as int + s.registers.x as int) % 256
      && t.registers.pc as int == pc + 2
  {
    ReadShortSpec(s);
    var pc := s.registers.pc as int;
    var w := ReadShort(s).value.0;
    WordJoin(s.program[pc], s.program[pc + 1]);
    AbsoluteIndexedValue(w, s.registers.x);
  }

  /** IndirectX: the word in memory at the operand byte plus X modulo 256. */
  lemma IndirectXAddress(s: State)
    requires IndirectXHandler(s).Ok?
    ensures var (address, t) := IndirectXHandler(s).value;
      var pointer := (s.program[s.registers.pc] as int + s.registers.x as int) % 256;
      pointer + 1 < |s.memory| && address == ShortAt(s.memory, pointer)
      && t.registers.pc as int == s.registers.pc as int + 1
  {
    ReadByteSpec(s);
    ZeroPagePointerValue(s.program[s.registers.pc], s.registers.x);
  }

  /** IndirectY: the word in memory at the operand byte, plus Y modulo
      65536. */
  lemma IndirectYAddress(s: State)
    requires IndirectYHandler(s).Ok?
    ensures var (address, t) := IndirectYHandler(s).value;
      var pointer := s.program[s.registers.pc] as int;
      pointer + 1 < |s.memory|
      && address as int == (ShortAt(s.memory, pointer) as int + s.registers.y as int) % 0x1_0000
      && t.registers.pc as int == s.registers.pc as int + 1
  {
    ReadByteSpec(s);
    var pointer := s.program[s.registers.pc];
    WidenByte(pointer);
    PostIndexedValue(ShortAt(s.memory, pointer as int), s.registers.y);
  }

  /** When the operand bytes of each mode fault, in terms of the state:
      Implicit, Accumulator and Immediate read nothing; the byte modes
      fault exactly when the byte after the opcode cannot be read, the word
      modes when the word cannot; the indirect modes also when the word
      they read from memory lies past its end, or for Indirect when the
      pointer is 0xffff. */
  lemma ModeHandlerFaults(s: State, mode: Mode)
    ensures ModeHandler(s, mode).Ok? <==>
      match mode
      case Implicit | Accumulator | Immediate => true
      case ZeroPage | ZeroPageX | ZeroPageY | Relative => ReadByte(s).Ok?
      case Absolute | AbsoluteX | AbsoluteY => ReadShort(s).Ok?
      case Indirect =>
        ReadShort(s).Ok? && ReadShort(s).value.0 != 0xFFFF
        && ReadShort(s).value.0 as int + 1 < |s.memory|
      case IndirectX =>
        ReadByte(s).Ok?
        && (s.program[s.registers.pc] as int + s.registers.x as int) % 256 + 1 < |s.memory|
      case IndirectY =>
        ReadByte(s).Ok? && s.program[s.registers.pc] as int + 1 < |s.memory|
  {
    match mode
    case Indirect =>
      IndirectFaults(s);
    case IndirectX =>
      IndirectXFaults(s);
    case IndirectY =>
      IndirectYFaults(s);
    case _ =>
  }

  /** Indirect faults exactly when the operand word cannot be read, when
      the pointer is 0xffff (the u16 `address + 1` overflows) or when
      pointer + 1 is past the end of memory. */
  lemma IndirectFaults(s: State)
    ensures IndirectHandler(s).Ok? <==>
      ReadShort(s).Ok? && ReadShort(s).value.0 != 0xFFFF
      && ReadShort(s).value.0 as int + 1 < |s.memory|
  {
    if ReadShort(s).Ok? {
      var (pointer, t) := ReadShort(s).value;
      assert t.memory == s.memory;
      assert IndirectHandler(s).Ok? <==> LoadShort(t, pointer).Ok?;
    }
  }

  /** IndirectX faults exactly when the byte after the opcode cannot be
      read or the byte after the pointer (operand + X modulo 256) is past
      the end of memory; the pointer is never 0xffff. */
  lemma IndirectXFaults(s: State)
    ensures IndirectXHandler(s).Ok? <==>
      ReadByte(s).Ok?
      && (s.program[s.registers.pc] as int + s.registers.x as int) % 256 + 1 < |s.memory|
  {
    ReadByteSpec(s);
    if ReadByte(s).Ok? {
      var (b, t) := ReadByte(s).value;
      ZeroPagePointerValue(b, t.registers.x);
      assert IndirectXHandler(s).Ok? <==> LoadShort(t, ZeroPagePointer(b, t.registers.x)).Ok?;
    }
  }

  /** IndirectY faults exactly when the byte after the opcode cannot be
      read or the byte after it, as a pointer, is past the end of memory. */
  lemma IndirectYFaults(s: State)
    ensures IndirectYHandler(s).Ok? <==>
      ReadByte(s).Ok? && s.program[s.registers.pc] as int + 1 < |s.memory|
  {
    ReadByteSpec(s);
    if ReadByte(s).Ok? {
      var (b, t) := ReadByte(s).value;
      WidenByte(b);
      assert IndirectYHandler(s).Ok? <==> LoadShort(t, b as bv16).Ok?;
    }
  }

  // ---------------------------------------------------------------- stack

  /** PHA, PHP, PLA and PLP address the stack at 0x0100 + SP. */
  lemma PageOneSlotValue(sp: bv8)
    ensures PageOneSlot(sp) as int == 0x100 + sp as int
  {
    var slot := PageOneSlot(sp);
    assert slot == 0x0100 | (sp as bv16);
    PageOneValue(sp);
  }

  /** `stackPushByte` and `stackPopByte` address the stack at 0x0100 - SP,
      which lies between 0x01 and 0x0100 and so never underflows. */
  lemma StackSlotValue(sp: bv8)
    ensures StackSlot(sp) as int == 0x100 - sp as int
  {
    var slot := StackSlot(sp);
    assert slot == 0x0100 - (sp as bv16);
    PageOneOffsetValue(sp);
  }

  lemma WrappingIncValue(b: bv8)
    ensures WrappingInc(b) as int == (b as int + 1) % 0x100
  {
    var r := WrappingInc(b);
    assert r == b + 1;
    IncByte(b);
  }

  lemma WrappingDecValue(b: bv8)
    ensures WrappingDec(b) as int == (b as int + 0xFF) % 0x100
  {
    var r := WrappingDec(b);
    assert r == b - 1;
    DecByte(b);
  }

  lemma IncAfterDec(b: bv8)
    ensures WrappingInc(WrappingDec(b)) == b
  {
    assert WrappingDec(b) == b - 1;
  }

  lemma DecAfterInc(b: bv8)
    ensures WrappingDec(WrappingInc(b)) == b
  {
    assert WrappingInc(b) == b + 1;
  }

  /** PHA and PHP: `value` is written at 0x0100 + SP and SP goes down by one
      modulo 256; nothing else changes. The write faults exactly when that
      slot is past the end of memory. */
  lemma PushSpec(s: State, value: bv8)
    ensures Push(s, value).Ok? <==> 0x100 + s.registers.sp as int < |s.memory|
    ensures Push(s, value).Ok? ==>
      var t := Push(s, value).value;
      t.memory == s.memory[0x100 + s.registers.sp as int := value]
      && t.program == s.program
      && t.registers == s.registers.(sp := t.registers.sp)
      && t.registers.sp as int == (s.registers.sp as int + 0xFF) % 0x100
  {
    PageOneSlotValue(s.registers.sp);
    WrappingDecValue(s.registers.sp);
  }

  /** The read of PLA and PLP: the byte at 0x0100 + SP, with SP then up by
      one modulo 256; it faults exactly when that slot is past the end of
      memory. */
  lemma PullSpec(s: State)
    ensures Pull(s).Ok? <==> 0x100 + s.registers.sp as int < |s.memory|
    ensures Pull(s).Ok? ==>
      var (v, t) := Pull(s).value;
      v == s.memory[0x100 + s.registers.sp as int]
      && t.memory == s.memory && t.program == s.program
      && t.registers == s.registers.(sp := t.registers.sp)
      && t.registers.sp as int == (s.registers.sp as int + 1) % 0x100
  {
    PageOneSlotValue(s.registers.sp);
    WrappingIncValue(s.registers.sp);
  }

  /** PLA and PLP after PHA or PHP bring the stack pointer back to where it
      was. */
  lemma PullAfterPushRestores(s: State, value: bv8, t: State)
    requires Push(s, value) == Ok(t)
    ensures Pull(t).Ok? ==> Pull(t).value.1.registers == s.registers
  {
    assert t.registers == s.registers.(sp := WrappingDec(s.registers.sp));
    IncAfterDec(s.registers.sp);
  }

  /** ... but the pull reads 0x0100 + (SP - 1) modulo 256, not the slot
      the push wrote: the push decrements after writing and the pull
      increments after reading. That slot is one lower, except when SP is 0,
      where it wraps to 0x01ff. So PLA after PHA does not in general give
      back A (`PushPullExample`), and the pull faults exactly when that
      slot is past the end of memory. */
  lemma PullAfterPushReads(s: State, value: bv8, t: State)
    requires Push(s, value) == Ok(t)
    ensures Pull(t).Ok? <==> 0x100 + (s.registers.sp as int + 0xFF) % 0x100 < |s.memory|
    ensures Pull(t).Ok? ==>
      Pull(t).value.0 == t.memory[0x100 + (s.registers.sp as int + 0xFF) % 0x100]
  {
    PushSpec(s, value);
    PullSpec(t);
  }

  /** `stackPushByte`: `value` is written at 0x0100 - SP and SP goes up by
      one modulo 256; nothing else changes. */
  lemma StackPushByteSpec(s: State, value: bv8)
    ensures StackPushByte(s, value).Ok? <==> 0x100 - s.registers.sp as int < |s.memory|
    ensures StackPushByte(s, value).Ok? ==>
      var t := StackPushByte(s, value).value;
      t.memory == s.memory[0x100 - s.registers.sp as int := value]
      && t.program == s.program
      && t.registers == s.registers.(sp := t.registers.sp)
      && t.registers.sp as int == (s.registers.sp as int + 1) % 0x100
  {
    StackSlotValue(s.registers.sp);
    WrappingIncValue(s.registers.sp);
  }

  /** `stackPopByte`: the byte at 0x0100 - SP, with SP then down by one
      modulo 256. */
  lemma StackPopByteSpec(s: State)
    ensures StackPopByte(s).Ok? <==> 0x100 - s.registers.sp as int < |s.memory|
    ensures StackPopByte(s).Ok? ==>
      var (v, t) := StackPopByte(s).value;
      v == s.memory[0x100 - s.registers.sp as int]
      && t.memory == s.memory && t.program == s.program
      && t.registers == s.registers.(sp := t.registers.sp)
      && t.registers.sp as int == (s.registers.sp as int + 0xFF) % 0x100
  {
    StackSlotValue(s.registers.sp);
    WrappingDecValue(s.registers.sp);
  }

  /** `stackPopByte` after `stackPushByte` brings SP back to where it was. */
  lemma PopAfterPushByteRestores(s: State, value: bv8, t: State)
    requires StackPushByte(s, value) == Ok(t)
    ensures StackPopByte(t).Ok? ==> StackPopByte(t).value.1.registers == s.registers
  {
    assert t.registers == s.registers.(sp := WrappingInc(s.registers.sp));
    DecAfterInc(s.registers.sp);
  }

  /** ... but, like PLA after PHA, it reads the slot next to the pushed
      byte, 0x0100 - (SP + 1), rather than the pushed byte. */
  lemma PopAfterPushByteReads(s: State, value: bv8, t: State)
    requires StackPushByte(s, value) == Ok(t)
    requires 0x101 <= |s.memory|
    ensures StackPopByte(t).Ok?
    ensures StackPopByte(t).value.0 == t.memory[0x100 - (s.registers.sp as int + 1) % 0x100]
  {
    StackPushByteSpec(s, value);
    StackPopByteSpec(t);
  }

  // ---------------------------------------------------------------- operands

  /** The mode handlers only read: they move PC past the operand bytes and
      change no other register, no memory and no program byte. */
  lemma ModeHandlerFrame(s: State, mode: Mode)
    ensures ModeHandler(s, mode).Ok? ==>
      var t := ModeHandler(s, mode).value.1;
      t.memory == s.memory && t.program == s.program
      && t.registers == s.registers.(pc := t.registers.pc)
  {
  }

  /** `ModeHandlerFrame` for a handler whose result is already named. */
  lemma HandlerFrame(s: State, mode: Mode, address: bv16, t: State)
    requires ModeHandler(s, mode) == Ok((address, t))
    ensures t.memory == s.memory && t.program == s.program
    ensures t.registers == s.registers.(pc := t.registers.pc)
  {
    ModeHandlerFrame(s, mode);
  }

  /** The operand of the value-reading instructions: for Immediate the
      program byte at PC, otherwise the memory byte at the mode's address;
      either way only PC changes. */
  lemma OperandSpec(s: State, mode: Mode)
    ensures Operand(s, mode).Ok? ==>
      var (val, t) := Operand(s, mode).value;
      t.memory == s.memory && t.program == s.program
      && t.registers == s.registers.(pc := t.registers.pc)
      && (mode == Immediate ==> val == s.program[s.registers.pc])
      && (mode != Immediate ==>
            var address := ModeHandler(s, mode).value.0;
            address as int < |s.memory| && val == s.memory[address])
  {
    ModeHandlerFrame(s, mode);
  }

  /** Reading an operand changes only PC. */
  lemma OperandFrame(s: State, mode: Mode, val: bv8, t: State)
    requires Operand(s, mode) == Ok((val, t))
    ensures t.memory == s.memory && t.program == s.program
    ensures t.registers == s.registers.(pc := t.registers.pc)
  {
    ModeHandlerFrame(s, mode);
  }

  /** Reading an operand faults exactly when the mode's operand bytes
      fault or, for Immediate, the byte after the opcode cannot be read, or,
      for any other mode, the address is past the end of memory. */
  lemma OperandFaults(s: State, mode: Mode)
    ensures Operand(s, mode).Ok? <==>
      ModeHandler(s, mode).Ok?
      && (mode == Immediate ==> ReadByte(s).Ok?)
      && (mode != Immediate ==> ModeHandler(s, mode).value.0 as int < |s.memory|)
  {
    ModeHandlerFrame(s, mode);
  }

  // ---------------------------------------------------------------- load and store

  /** LDA, LDX, LDY: the operand lands in the register, Zero and Negative
      describe it, the other status bits, the other registers and memory are
      kept; a fault comes only from reading the operand. */
  lemma LoadSpec(s: State, mode: Mode, reg: Register)
    ensures Load(s, mode, reg).Ok? <==> Operand(s, mode).Ok?
    ensures Load(s, mode, reg).Ok? ==>
      var (val, t) := Operand(s, mode).value;
      var u := Load(s, mode, reg).value;
      Get(u.registers, reg) == val
      && (IsSet(u.registers.flags, ZERO) <==> val == 0)
      && (IsSet(u.registers.flags, NEGATIVE) <==> val as int >= 128)
      && u.registers.flags & 0xBD == s.registers.flags & 0xBD
      && (forall other: Register :: other != reg ==> Get(u.registers, other) == Get(s.registers, other))
      && u.registers.sp == s.registers.sp && u.registers.pc == t.registers.pc
      && u.memory == s.memory && u.program == s.program
  {
    OperandSpec(s, mode);
  }

  /** STA, STX, STY: the register is written at the mode's address and no
      register but PC changes; a fault comes from the operand bytes or from
      an address past the end of memory. */
  lemma StoreSpec(s: State, mode: Mode, reg: Register)
    ensures Store(s, mode, reg).Ok? <==>
      ModeHandler(s, mode).Ok? && ModeHandler(s, mode).value.0 as int < |s.memory|
    ensures Store(s, mode, reg).Ok? ==>
      var (address, t) := ModeHandler(s, mode).value;
      var u := Store(s, mode, reg).value;
      u.memory == s.memory[address as int := Get(s.registers, reg)]
      && u.registers == s.registers.(pc := t.registers.pc) && u.program == s.program
  {
    ModeHandlerFrame(s, mode);
  }

  // ---------------------------------------------------------------- transfers and pulls

  /** TAX, TAY, TXA, TYA, TSX never fault: the destination register takes
      the source register's value, Zero and Negative describe it, and the
      other status bits, the other registers (SP and PC included), the
      memory and the program are kept. */
  lemma TransferSpec(s: State, mnemonic: Mnemonic, mode: Mode)
    requires mnemonic in {TAX, TAY, TXA, TYA, TSX}
    ensures Execute(s, Instruction(mnemonic, mode)).Ok?
    ensures var u := Execute(s, Instruction(mnemonic, mode)).value;
      var r := s.registers;
      var value := if mnemonic in {TAX, TAY} then r.a else if mnemonic == TXA then r.x
                   else if mnemonic == TYA then r.y else r.sp;
      var target := if mnemonic in {TAX, TSX} then X else if mnemonic == TAY then Y else A;
      Get(u.registers, target) == value
      && (IsSet(u.registers.flags, ZERO) <==> value == 0)
      && (IsSet(u.registers.flags, NEGATIVE) <==> value as int >= 128)
      && u.registers.flags & 0xBD == r.flags & 0xBD
      && (forall other: Register :: other != target ==> Get(u.registers, other) == Get(r, other))
      && u.registers.sp == r.sp && u.registers.pc == r.pc
      && u.memory == s.memory && u.program == s.program
  {
    var r := s.registers;
    var inst := Instruction(mnemonic, mode);
    match mnemonic
    case TAX =>
      assert Execute(s, inst) == Ok(Transfer(s, r.a, X));
      TransferEffect(s, r.a, X);
    case TAY =>
      assert Execute(s, inst) == Ok(Transfer(s, r.a, Y));
      TransferEffect(s, r.a, Y);
    case TXA =>
      assert Execute(s, inst) == Ok(Transfer(s, r.x, A));
      TransferEffect(s, r.x, A);
    case TYA =>
      assert Execute(s, inst) == Ok(Transfer(s, r.y, A));
      TransferEffect(s, r.y, A);
    case TSX =>
      assert Execute(s, inst) == Ok(Transfer(s, r.sp, X));
      TransferEffect(s, r.sp, X);
  }

  /** `value` moved into `target` by a transfer: Zero and Negative describe
      it and nothing else changes. */
  lemma TransferEffect(s: State, value: bv8, target: Register)
    ensures var u := Transfer(s, value, target);
      Get(u.registers, target) == value
      && (IsSet(u.registers.flags, ZERO) <==> value == 0)
      && (IsSet(u.registers.flags, NEGATIVE) <==> value as int >= 128)
      && u.registers.flags & 0xBD == s.registers.flags & 0xBD
      && (forall other: Register :: other != target ==> Get(u.registers, other) == Get(s.registers, other))
      && u.registers.sp == s.registers.sp && u.registers.pc == s.registers.pc
      && u.memory == s.memory && u.program == s.program
  {
  }

  /** TXS never faults: SP takes X, and unlike the other transfers it leaves
      every status bit alone; nothing else changes. */
  lemma TxsSpec(s: State, mode: Mode)
    ensures Execute(s, Instruction(TXS, mode)).Ok?
    ensures var u := Execute(s, Instruction(TXS, mode)).value;
      u.registers.sp == s.registers.x
      && u.registers.flags == s.registers.flags
      && u.registers == s.registers.(sp := u.registers.sp)
      && u.memory == s.memory && u.program == s.program
  {
  }

  /** PLA faults exactly when 0x0100 + SP is past the end of memory;
      otherwise A takes the byte there, Zero and Negative describe it, SP
      goes up by one modulo 256, and the other status bits, X, Y, PC, the
      memory and the program are kept. */
  lemma PullAccumulatorSpec(s: State, mode: Mode)
    ensures Execute(s, Instruction(PLA, mode)).Ok? <==> 0x100 + s.registers.sp as int < |s.memory|
    ensures Execute(s, Instruction(PLA, mode)).Err? ==>
      Execute(s, Instruction(PLA, mode)).fault == MemoryIndex(0x100 + s.registers.sp as int)
    ensures Execute(s, Instruction(PLA, mode)).Ok? ==>
      var u := Execute(s, Instruction(PLA, mode)).value;
      var v := s.memory[0x100 + s.registers.sp as int];
      u.registers.a == v
      && (IsSet(u.registers.flags, ZERO) <==> v == 0)
      && (IsSet(u.registers.flags, NEGATIVE) <==> v as int >= 128)
      && u.registers.flags & 0xBD == s.registers.flags & 0xBD
      && u.registers.sp as int == (s.registers.sp as int + 1) % 0x100
      && u.registers == s.registers.(a := v, sp := u.registers.sp, flags := u.registers.flags)
      && u.memory == s.memory && u.program == s.program
  {
    PullSpec(s);
    PageOneSlotValue(s.registers.sp);
  }

  /** PLP faults exactly when 0x0100 + SP is past the end of memory;
      otherwise Flags take the byte there, SP goes up by one modulo 256, and
      A, X, Y, PC, the memory and the program are kept. */
  lemma PullFlagsSpec(s: State, mode: Mode)
    ensures Execute(s, Instruction(PLP, mode)).Ok? <==> 0x100 + s.registers.sp as int < |s.memory|
    ensures Execute(s, Instruction(PLP, mode)).Err? ==>
      Execute(s, Instruction(PLP, mode)).fault == MemoryIndex(0x100 + s.registers.sp as int)
    ensures Execute(s, Instruction(PLP, mode)).Ok? ==>
      var u := Execute(s, Instruction(PLP, mode)).value;
      u.registers.flags == s.memory[0x100 + s.registers.sp as int]
      && u.registers.sp as int == (s.registers.sp as int + 1) % 0x100
      && u.registers == s.registers.(sp := u.registers.sp, flags := u.registers.flags)
      && u.memory == s.memory && u.program == s.program
  {
    PullSpec(s);
    PageOneSlotValue(s.registers.sp);
  }

  // ---------------------------------------------------------------- arithmetic

  /** ADC: A becomes `A + operand + C` modulo 256. */
  lemma AdcSpec(s: State, mode: Mode, val: bv8, t: State)
    requires Operand(s, mode) == Ok((val, t))
    ensures Adc(s, mode).Ok?
    ensures var a, c := s.registers.a, CarryIn(s.registers.flags);
      Adc(s, mode).value.registers.a as int == (a as int + val as int + c) % 256
  {
    OperandFrame(s, mode, val, t);
    var sum := AddWithCarry(t.registers.a, val, t.registers.flags);
    assert Adc(s, mode) == Ok(t.(registers := t.registers.(a := sum.0, flags := sum.1)));
    AddWithCarryReference(t.registers.a, val, t.registers.flags);
  }

  /** ADC sets Carry exactly when `A + operand + C` exceeds 255. */
  lemma AdcCarry(s: State, mode: Mode, val: bv8, t: State)
    requires Operand(s, mode) == Ok((val, t))
    ensures Adc(s, mode).Ok?
    ensures var a, c := s.registers.a, CarryIn(s.registers.flags);
      IsSet(Adc(s, mode).value.registers.flags, CARRY) <==> a as int + val as int + c > 255
  {
    OperandFrame(s, mode, val, t);
    var sum := AddWithCarry(t.registers.a, val, t.registers.flags);
    assert Adc(s, mode) == Ok(t.(registers := t.registers.(a := sum.0, flags := sum.1)));
    AddWithCarryReference(t.registers.a, val, t.registers.flags);
  }

  /** ADC sets Overflow exactly when the signed sum `A + operand + C`
      leaves -128..127. */
  lemma AdcOverflow(s: State, mode: Mode, val: bv8, t: State)
    requires Operand(s, mode) == Ok((val, t))
    ensures Adc(s, mode).Ok?
    ensures var u := Adc(s, mode).value;
      var a, c := s.registers.a, CarryIn(s.registers.flags);
      IsSet(u.registers.flags, OVERFLOW) <==> SignedOverflow(Signed(a) + Signed(val) + c)
  {
    OperandFrame(s, mode, val, t);
    var sum := AddWithCarry(t.registers.a, val, t.registers.flags);
    assert Adc(s, mode) == Ok(t.(registers := t.registers.(a := sum.0, flags := sum.1)));
    AddWithCarryReference(t.registers.a, val, t.registers.flags);
  }

  /** ADC keeps every other status bit (Zero and Negative included), every
      register but A, Flags and PC, the memory and the program. */
  lemma AdcKeeps(s: State, mode: Mode, val: bv8, t: State)
    requires Operand(s, mode) == Ok((val, t))
    ensures Adc(s, mode).Ok?
    ensures var u := Adc(s, mode).value;
      u.registers.flags & 0xDE == s.registers.flags & 0xDE
      && u.registers == t.registers.(a := u.registers.a, flags := u.registers.flags)
      && u.memory == s.memory && u.program == s.program
  {
    OperandFrame(s, mode, val, t);
    var sum := AddWithCarry(t.registers.a, val, t.registers.flags);
    assert Adc(s, mode) == Ok(t.(registers := t.registers.(a := sum.0, flags := sum.1)));
    AddWithCarryReference(t.registers.a, val, t.registers.flags);
  }

  /** SBC: A becomes `A - operand - (1 - C)` modulo 256. */
  lemma SbcSpec(s: State, mode: Mode, val: bv8, t: State)
    requires Operand(s, mode) == Ok((val, t))
    ensures Sbc(s, mode).Ok?
    ensures var u := Sbc(s, mode).value;
      var a, c := s.registers.a, CarryIn(s.registers.flags);
      u.registers.a as int == (a as int - val as int - (1 - c)) % 256
  {
    OperandFrame(s, mode, val, t);
    var difference := SubtractWithCarry(t.registers.a, val, t.registers.flags);
    assert Sbc(s, mode) == Ok(t.(registers := t.registers.(a := difference.0, flags := difference.1)));
    SubtractWithCarryReference(t.registers.a, val, t.registers.flags);
  }

  /** SBC ends with Carry set exactly when no borrow was needed:
      `A - operand - (1 - C) >= 0`. */
  lemma SbcCarry(s: State, mode: Mode, val: bv8, t: State)
    requires Operand(s, mode) == Ok((val, t))
    ensures Sbc(s, mode).Ok?
    ensures var u := Sbc(s, mode).value;
      var a, c := s.registers.a, CarryIn(s.registers.flags);
      IsSet(u.registers.flags, CARRY) <==> a as int - val as int - (1 - c) >= 0
  {
    OperandFrame(s, mode, val, t);
    var difference := SubtractWithCarry(t.registers.a, val, t.registers.flags);
    assert Sbc(s, mode) == Ok(t.(registers := t.registers.(a := difference.0, flags := difference.1)));
    SubtractWithCarryReference(t.registers.a, val, t.registers.flags);
  }

  /** SBC sets Overflow exactly when the signed difference
      `A - operand - (1 - C)` leaves -128..127. */
  lemma SbcOverflow(s: State, mode: Mode, val: bv8, t: State)
    requires Operand(s, mode) == Ok((val, t))
    ensures Sbc(s, mode).Ok?
    ensures var u := Sbc(s, mode).value;
      var a, c := s.registers.a, CarryIn(s.registers.flags);
      IsSet(u.registers.flags, OVERFLOW) <==> SignedOverflow(Signed(a) - Signed(val) - (1 - c))
  {
    OperandFrame(s, mode, val, t);
    var difference := SubtractWithCarry(t.registers.a, val, t.registers.flags);
    assert Sbc(s, mode) == Ok(t.(registers := t.registers.(a := difference.0, flags := difference.1)));
    SubtractWithCarryReference(t.registers.a, val, t.registers.flags);
  }

  /** SBC keeps what ADC keeps. */
  lemma SbcKeeps(s: State, mode: Mode, val: bv8, t: State)
    requires Operand(s, mode) == Ok((val, t))
    ensures Sbc(s, mode).Ok?
    ensures var u := Sbc(s, mode).value;
      u.registers.flags & 0xDE == s.registers.flags & 0xDE
      && u.registers == t.registers.(a := u.registers.a, flags := u.registers.flags)
      && u.memory == s.memory && u.program == s.program
  {
    OperandFrame(s, mode, val, t);
    var difference := SubtractWithCarry(t.registers.a, val, t.registers.flags);
    assert Sbc(s, mode) == Ok(t.(registers := t.registers.(a := difference.0, flags := difference.1)));
    SubtractWithCarryReference(t.registers.a, val, t.registers.flags);
  }

  /** ADC, SBC, AND, EOR and ORA fault exactly when reading their operand
      does; the arithmetic itself never faults. */
  lemma OperandOnlyFaults(s: State, mode: Mode, op: LogicOp)
    ensures Adc(s, mode).Ok? <==> Operand(s, mode).Ok?
    ensures Sbc(s, mode).Ok? <==> Operand(s, mode).Ok?
    ensures Logic(s, mode, op).Ok? <==> Operand(s, mode).Ok?
  {
  }

  /** CMP, CPX, CPY: the u8 subtraction `register - operand` faults when the
      register is below the operand; otherwise Carry is set, Zero says they
      are equal, Negative is bit 7 of the difference, and only PC and those
      three flags change. */
  lemma CompareSpec(s: State, mode: Mode, reg: Register)
    ensures Compare(s, mode, reg).Ok? <==>
      Operand(s, mode).Ok? && Operand(s, mode).value.0 <= Get(s.registers, reg)
    ensures Operand(s, mode).Ok? && Get(s.registers, reg) < Operand(s, mode).value.0 ==>
      Compare(s, mode, reg) == Err(ArithmeticOverflow)
    ensures Compare(s, mode, reg).Ok? ==>
      var (val, t) := Operand(s, mode).value;
      var value := Get(s.registers, reg);
      var u := Compare(s, mode, reg).value;
      IsSet(u.registers.flags, CARRY)
      && (IsSet(u.registers.flags, ZERO) <==> value == val)
      && (IsSet(u.registers.flags, NEGATIVE) <==> value as int - val as int >= 128)
      && u.registers.flags & 0xBC == s.registers.flags & 0xBC
      && u.registers == t.registers.(flags := u.registers.flags)
      && u.memory == s.memory && u.program == s.program
  {
    OperandSpec(s, mode);
  }

  /** AND, EOR, ORA: A becomes A and the operand combined bit by bit, with
      Zero and Negative from the result. */
  lemma LogicSpec(s: State, mode: Mode, op: LogicOp, val: bv8, t: State)
    requires Operand(s, mode) == Ok((val, t))
    ensures Logic(s, mode, op).Ok?
    ensures var u := Logic(s, mode, op).value;
      var r := Combine(op, s.registers.a, val);
      u.registers.a == r
      && (IsSet(u.registers.flags, ZERO) <==> r == 0)
      && (IsSet(u.registers.flags, NEGATIVE) <==> r as int >= 128)
      && u.registers.flags & 0xBD == s.registers.flags & 0xBD
      && u.registers == t.registers.(a := r, flags := u.registers.flags)
      && u.memory == s.memory && u.program == s.program
  {
    OperandFrame(s, mode, val, t);
    var r := Combine(op, t.registers.a, val);
    assert Logic(s, mode, op) == Ok(t.(registers := t.registers.(a := r, flags := SetZeroNegative(t.registers.flags, r))));
  }

  // ---------------------------------------------------------------- read-modify-write

  /** INC and DEC: the byte written at the mode's address is the operand
      plus or minus one modulo 256. With Immediate the operand is the program
      byte after the opcode and the byte is written at 0xff, the address
      `modeHandler` gives for that mode. */
  lemma AdjustSpec(s: State, mode: Mode, increment: bool)
    requires Adjust(s, mode, increment).Ok?
    ensures var (address, t) := ModeHandler(s, mode).value;
      var val := if mode == Immediate then s.program[s.registers.pc] else s.memory[address];
      var u := Adjust(s, mode, increment).value;
      address as int < |u.memory|
      && u.memory[address] as int == (if increment then (val as int + 1) % 256 else (val as int + 0xFF) % 256)
  {
    ModeHandlerFrame(s, mode);
    var (address, t) := ModeHandler(s, mode).value;
    var operand := if mode == Immediate then ImmediateHandler(t)
                   else var v :- LoadByte(t, address); Ok((v, t));
    var (val, t') := operand.value;
    if mode == Immediate {
      ReadByteSpec(t);
    }
    var result := if increment then WrappingInc(val) else WrappingDec(val);
    var w := StoreByte(t', address, result).value;
    assert Adjust(s, mode, increment) == Ok(WithFlags(w, SetZeroNegative(w.registers.flags, result)));
    assert w.memory[address] == result;
    WrappingIncValue(val);
    WrappingDecValue(val);
  }

  /** INC and DEC fault exactly when the operand bytes fault, when the
      address is past the end of memory (the write there faults even for
      Immediate, whose address is 0xff), or, for Immediate, when the byte
      after the opcode cannot be read. */
  lemma AdjustFaults(s: State, mode: Mode, increment: bool)
    ensures Adjust(s, mode, increment).Ok? <==>
      ModeHandler(s, mode).Ok?
      && ModeHandler(s, mode).value.0 as int < |s.memory|
      && (mode == Immediate ==> ReadByte(s).Ok?)
  {
    ModeHandlerFrame(s, mode);
    if mode == Immediate && ReadByte(s).Ok? {
      ReadByteSpec(s);
    }
  }

  /** INC and DEC change no byte of memory but the one at the mode's address,
      and no byte of the program. */
  lemma AdjustWrite(s: State, mode: Mode, increment: bool)
    requires Adjust(s, mode, increment).Ok?
    ensures var address := ModeHandler(s, mode).value.0;
      var u := Adjust(s, mode, increment).value;
      address as int < |s.memory|
      && u.memory == s.memory[address as int := u.memory[address]]
      && u.program == s.program
  {
    ModeHandlerFrame(s, mode);
    var (address, t) := ModeHandler(s, mode).value;
    var operand := if mode == Immediate then ImmediateHandler(t)
                   else var v :- LoadByte(t, address); Ok((v, t));
    var (val, t') := operand.value;
    var result := if increment then WrappingInc(val) else WrappingDec(val);
    var w := StoreByte(t', address, result).value;
    assert w.memory == s.memory[address as int := result] && w.program == s.program;
    assert Adjust(s, mode, increment) == Ok(WithFlags(w, SetZeroNegative(w.registers.flags, result)));
  }

  /** INC and DEC set Zero and Negative from the byte they write and keep
      the other status bits. */
  lemma AdjustFlags(s: State, mode: Mode, increment: bool)
    requires Adjust(s, mode, increment).Ok?
    ensures var address := ModeHandler(s, mode).value.0;
      var u := Adjust(s, mode, increment).value;
      address as int < |u.memory|
      && (IsSet(u.registers.flags, ZERO) <==> u.memory[address] == 0)
      && (IsSet(u.registers.flags, NEGATIVE) <==> u.memory[address] as int >= 128)
      && u.registers.flags & 0xBD == s.registers.flags & 0xBD
  {
    ModeHandlerFrame(s, mode);
    var (address, t) := ModeHandler(s, mode).value;
    var operand := if mode == Immediate then ImmediateHandler(t)
                   else var v :- LoadByte(t, address); Ok((v, t));
    var (val, t') := operand.value;
    var result := if increment then WrappingInc(val) else WrappingDec(val);
    var w := StoreByte(t', address, result).value;
    assert w.memory[address] == result && w.registers.flags == s.registers.flags;
    assert Adjust(s, mode, increment) == Ok(WithFlags(w, SetZeroNegative(w.registers.flags, result)));
  }

  /** INX, INY, DEX, DEY as written: the register itself does not change
      (the incremented value is dropped), and Zero and Negative are set from
      its unchanged value. */
  lemma CountRegisterSpec(s: State, mnemonic: Mnemonic, mode: Mode)
    requires mnemonic in {INX, INY, DEX, DEY}
    ensures Execute(s, Instruction(mnemonic, mode)).Ok?
    ensures var u := Execute(s, Instruction(mnemonic, mode)).value;
      var value := if mnemonic in {INX, DEX} then s.registers.x else s.registers.y;
      u.registers == s.registers.(flags := u.registers.flags)
      && (IsSet(u.registers.flags, ZERO) <==> value == 0)
      && (IsSet(u.registers.flags, NEGATIVE) <==> value as int >= 128)
      && u.registers.flags & 0xBD == s.registers.flags & 0xBD
      && u.memory == s.memory && u.program == s.program
  {
    var reg := if mnemonic in {INX, DEX} then X else Y;
    assert Execute(s, Instruction(mnemonic, mode)) == Ok(CountRegister(s, reg));
  }

  /** ASL and LSR on the accumulator: A doubled modulo 256 or halved, Carry
      the bit shifted out, Zero and Negative from the result. */
  lemma ShiftAccumulatorSpec(s: State, op: ShiftOp)
    requires op == Asl || op == Lsr
    ensures Shift(s, Accumulator, op).Ok?
    ensures var u := Shift(s, Accumulator, op).value;
      var a := s.registers.a as int;
      var r := u.registers.a;
      r as int == (if op == Asl then (2 * a) % 256 else a / 2)
      && (IsSet(u.registers.flags, CARRY) <==> if op == Asl then a >= 128 else a % 2 == 1)
      && (IsSet(u.registers.flags, ZERO) <==> r == 0)
      && (IsSet(u.registers.flags, NEGATIVE) <==> r as int >= 128)
      && u.registers == s.registers.(a := r, flags := u.registers.flags)
      && u.memory == s.memory && u.program == s.program
  {
    var shifted := ShiftBy(op, s.registers.a, s.registers.flags);
    var flags := SetZeroNegative(shifted.1, shifted.0);
    assert Shift(s, Accumulator, op) == Ok(s.(registers := s.registers.(a := shifted.0, flags := flags)));
    ZeroNegativeKeepsCarry(shifted.1, shifted.0);
  }

  /** ROL on the accumulator: A doubled plus the old Carry, modulo 256;
      Carry receives bit 7; Zero and Negative from the result. */
  lemma RolAccumulatorSpec(s: State)
    ensures Shift(s, Accumulator, Rol).Ok?
    ensures var u := Shift(s, Accumulator, Rol).value;
      var a, c := s.registers.a as int, CarryIn(s.registers.flags);
      var r := u.registers.a;
      r as int == (2 * a + c) % 256
      && (IsSet(u.registers.flags, CARRY) <==> a >= 128)
      && (IsSet(u.registers.flags, ZERO) <==> r == 0)
      && (IsSet(u.registers.flags, NEGATIVE) <==> r as int >= 128)
      && u.registers == s.registers.(a := r, flags := u.registers.flags)
      && u.memory == s.memory && u.program == s.program
  {
    var rotated := RotateLeft(s.registers.a, s.registers.flags);
    var flags := SetZeroNegative(rotated.1, rotated.0);
    assert Shift(s, Accumulator, Rol) == Ok(s.(registers := s.registers.(a := rotated.0, flags := flags)));
    ZeroNegativeKeepsCarry(rotated.1, rotated.0);
    RotateLeftValue(s.registers.a, s.registers.flags);
  }

  /** ROR on the accumulator: A halved plus 128 times the old Carry; Carry
      receives bit 0; Zero and Negative from the result. */
  lemma RorAccumulatorSpec(s: State)
    ensures Shift(s, Accumulator, Ror).Ok?
    ensures var u := Shift(s, Accumulator, Ror).value;
      var a, c := s.registers.a as int, CarryIn(s.registers.flags);
      var r := u.registers.a;
      r as int == a / 2 + 128 * c
      && (IsSet(u.registers.flags, CARRY) <==> a % 2 == 1)
      && (IsSet(u.registers.flags, ZERO) <==> r == 0)
      && (IsSet(u.registers.flags, NEGATIVE) <==> r as int >= 128)
      && u.registers == s.registers.(a := r, flags := u.registers.flags)
      && u.memory == s.memory && u.program == s.program
  {
    var rotated := RotateRight(s.registers.a, s.registers.flags);
    var flags := SetZeroNegative(rotated.1, rotated.0);
    assert Shift(s, Accumulator, Ror) == Ok(s.(registers := s.registers.(a := rotated.0, flags := flags)));
    ZeroNegativeKeepsCarry(rotated.1, rotated.0);
    RotateRightValue(s.registers.a, s.registers.flags);
  }

  /** ASL, LSR, ROL, ROR fault exactly when the operand bytes fault or,
      outside the Accumulator mode, when the address is past the end of
      memory. */
  lemma ShiftFaults(s: State, mode: Mode, op: ShiftOp)
    ensures Shift(s, mode, op).Ok? <==>
      ModeHandler(s, mode).Ok?
      && (mode != Accumulator ==> ModeHandler(s, mode).value.0 as int < |s.memory|)
  {
    ModeHandlerFrame(s, mode);
  }

  /** ASL, LSR, ROL, ROR in memory: the byte at the mode's address is
      replaced by the shifted byte and only the flags and PC change. */
  lemma ShiftMemorySpec(s: State, mode: Mode, op: ShiftOp)
    requires mode != Accumulator && Shift(s, mode, op).Ok?
    ensures var (address, t) := ModeHandler(s, mode).value;
      var u := Shift(s, mode, op).value;
      var (result, flags) := ShiftBy(op, s.memory[address], s.registers.flags);
      address as int < |s.memory|
      && u.memory == s.memory[address as int := result]
      && u.registers == t.registers.(flags := SetZeroNegative(flags, result))
      && u.program == s.program
  {
    ModeHandlerFrame(s, mode);
  }

  /** BIT faults exactly when the operand bytes fault or the address is
      past the end of memory. */
  lemma BitFaults(s: State, mode: Mode)
    ensures Bit(s, mode).Ok? <==>
      ModeHandler(s, mode).Ok? && ModeHandler(s, mode).value.0 as int < |s.memory|
  {
    ModeHandlerFrame(s, mode);
  }

  /** BIT: reads memory at the mode's address even for Immediate, and
      changes only Zero, Overflow and Negative (and PC). */
  lemma BitSpec(s: State, mode: Mode)
    requires Bit(s, mode).Ok?
    ensures var (address, t) := ModeHandler(s, mode).value;
      var u := Bit(s, mode).value;
      var val := s.memory[address];
      address as int < |s.memory|
      && (IsSet(u.registers.flags, ZERO) <==> s.registers.a & val == 0)
      && (IsSet(u.registers.flags, OVERFLOW) <==> IsSet(val, 0x20))
      && (IsSet(u.registers.flags, NEGATIVE) <==> IsSet(val, 0x40))
      && u.registers.flags & 0x9D == s.registers.flags & 0x9D
      && u.registers == t.registers.(flags := u.registers.flags)
      && u.memory == s.memory && u.program == s.program
  {
    ModeHandlerFrame(s, mode);
    var (address, t) := ModeHandler(s, mode).value;
    var flags := BitTest(t.registers.a, t.memory[address], t.registers.flags);
    assert Bit(s, mode) == Ok(WithFlags(t, flags));
  }

  // ---------------------------------------------------------------- control flow

  /** JMP faults exactly when its operand bytes do. */
  lemma JmpFaults(s: State, mode: Mode)
    ensures Jmp(s, mode).Ok? <==> ModeHandler(s, mode).Ok?
  {
    if ModeHandler(s, mode).Ok? {
      var (address, t) := ModeHandler(s, mode).value;
      assert Jmp(s, mode) == Ok(t.(registers := t.registers.(pc := address)));
    }
  }

  /** Indirect JMP faults exactly when the operand word cannot be read, when
      the pointer is 0xffff (the u16 `address + 1` overflows) or when
      pointer + 1 is past the end of memory. */
  lemma JmpIndirectFaults(s: State)
    ensures Jmp(s, Indirect).Ok? <==>
      ReadShort(s).Ok? && ReadShort(s).value.0 != 0xFFFF
      && ReadShort(s).value.0 as int + 1 < |s.memory|
  {
    assert Jmp(s, Indirect).Ok? <==> IndirectHandler(s).Ok?;
    IndirectFaults(s);
  }

  /** JMP absolute: PC becomes the little-endian word after the opcode. */
  lemma JmpAbsoluteSpec(s: State)
    requires ReadShort(s).Ok?
    ensures Jmp(s, Absolute).Ok?
    ensures var u := Jmp(s, Absolute).value;
      var pc := s.registers.pc as int;
      u.registers.pc as int == s.program[pc] as int + 256 * s.program[pc + 1] as int
      && u.registers == s.registers.(pc := u.registers.pc)
      && u.memory == s.memory && u.program == s.program
  {
    ReadShortSpec(s);
  }

  /** JMP indirect: PC becomes the word in memory at the operand word. */
  lemma JmpIndirectSpec(s: State)
    requires Jmp(s, Indirect).Ok?
    ensures ReadShort(s).Ok?
    ensures var pointer := ReadShort(s).value.0 as int;
      var u := Jmp(s, Indirect).value;
      pointer + 1 < |s.memory|
      && u.registers.pc == ShortAt(s.memory, pointer)
      && u.registers == s.registers.(pc := u.registers.pc)
      && u.memory == s.memory && u.program == s.program
  {
    ReadShortSpec(s);
  }

  /** `stackPushShort`: the high byte at 0x0100 - SP, the low byte at
      0x0100 - (SP + 1), SP up by two modulo 256. */
  lemma StackPushShortSpec(s: State, value: bv16)
    requires StackPushShort(s, value).Ok?
    ensures var u := StackPushShort(s, value).value;
      var sp := s.registers.sp as int;
      u.memory == s.memory[0x100 - sp := High(value)][0x100 - (sp + 1) % 0x100 := Low(value)]
      && u.program == s.program
  {
    StackPushByteSpec(s, High(value));
    var t := StackPushByte(s, High(value)).value;
    StackPushByteSpec(t, Low(value));
    var u := StackPushByte(t, Low(value)).value;
    assert StackPushShort(s, value) == Ok(u);
  }

  /** `stackPushShort` moves SP up by two modulo 256 and changes no other
      register. */
  lemma StackPushShortPointer(s: State, value: bv16)
    requires StackPushShort(s, value).Ok?
    ensures var u := StackPushShort(s, value).value;
      u.registers == s.registers.(sp := u.registers.sp)
      && u.registers.sp as int == (s.registers.sp as int + 2) % 0x100
  {
    StackPushByteSpec(s, High(value));
    var t := StackPushByte(s, High(value)).value;
    StackPushByteSpec(t, Low(value));
    var u := StackPushByte(t, Low(value)).value;
    assert StackPushShort(s, value) == Ok(u);
    IncTwice(s.registers.sp as int, t.registers.sp as int, u.registers.sp as int);
  }

  /** `stackPushShort` succeeds exactly when both slots, 0x0100 - SP and
      0x0100 - (SP + 1), are inside memory. */
  lemma StackPushShortFaults(s: State, value: bv16)
    ensures StackPushShort(s, value).Ok? <==>
      0x100 - s.registers.sp as int < |s.memory|
      && 0x100 - (s.registers.sp as int + 1) % 0x100 < |s.memory|
  {
    StackPushByteSpec(s, High(value));
    if StackPushByte(s, High(value)).Ok? {
      var t := StackPushByte(s, High(value)).value;
      StackPushByteSpec(t, Low(value));
    }
  }

  /** `stackPopShort`: the low byte from 0x0100 - SP, the high byte from
      0x0100 - (SP - 1). */
  lemma StackPopShortSpec(s: State)
    requires StackPopShort(s).Ok?
    ensures var w := StackPopShort(s).value.0;
      var sp := s.registers.sp as int;
      0x100 - sp < |s.memory| && 0x100 - (sp + 0xFF) % 0x100 < |s.memory|
      && w as int == s.memory[0x100 - sp] as int + 256 * s.memory[0x100 - (sp + 0xFF) % 0x100] as int
  {
    StackPopByteSpec(s);
    var (low, t) := StackPopByte(s).value;
    StackPopByteSpec(t);
    var (high, v) := StackPopByte(t).value;
    assert StackPopShort(s) == Ok((Word(low, high), v));
    WordValue(low, high);
  }

  /** `stackPopShort` succeeds exactly when both slots it reads, 0x0100 - SP
      and 0x0100 - (SP - 1), are inside memory. */
  lemma StackPopShortFaults(s: State)
    ensures StackPopShort(s).Ok? <==>
      0x100 - s.registers.sp as int < |s.memory|
      && 0x100 - (s.registers.sp as int + 0xFF) % 0x100 < |s.memory|
  {
    StackPopByteSpec(s);
    if StackPopByte(s).Ok? {
      var t := StackPopByte(s).value.1;
      StackPopByteSpec(t);
    }
  }

  /** `stackPopShort` moves SP down by two modulo 256 and changes nothing
      else. */
  lemma StackPopShortFrame(s: State)
    requires StackPopShort(s).Ok?
    ensures var u := StackPopShort(s).value.1;
      u.registers == s.registers.(sp := u.registers.sp)
      && u.registers.sp as int == (s.registers.sp as int + 0xFE) % 0x100
      && u.memory == s.memory && u.program == s.program
  {
    StackPopByteSpec(s);
    var (low, t) := StackPopByte(s).value;
    StackPopByteSpec(t);
    var (high, v) := StackPopByte(t).value;
    assert StackPopShort(s) == Ok((Word(low, high), v));
    DecTwice(s.registers.sp as int);
  }

  lemma IncTwice(sp: int, next: int, last: int)
    requires 0 <= sp < 0x100 && next == (sp + 1) % 0x100 && last == (next + 1) % 0x100
    ensures last == (sp + 2) % 0x100
  {
    if sp == 0xFF {
      assert (sp + 1) % 0x100 == 0;
    } else if sp == 0xFE {
      assert (sp + 1) % 0x100 == 0xFF;
    } else {
      assert (sp + 1) % 0x100 == sp + 1;
    }
  }

  lemma DecTwice(sp: int)
    requires 0 <= sp < 0x100
    ensures ((sp + 0xFF) % 0x100 + 0xFF) % 0x100 == (sp + 0xFE) % 0x100
  {
    if sp == 0 {
      assert (sp + 0xFF) % 0x100 == 0xFF;
    } else {
      assert (sp + 0xFF) % 0x100 == sp - 1;
    }
  }

  lemma DecThrice(sp: int, next: int, last: int)
    requires 0 <= sp < 0x100 && next == (sp + 0xFF) % 0x100 && last == (next + 0xFE) % 0x100
    ensures last == (sp + 0xFD) % 0x100
  {
    if sp == 0 {
      assert next == 0xFF;
    } else {
      assert next == sp - 1;
    }
  }

  /** `PC - 1` on u16, when PC is not 0. */
  lemma PreviousValue(w: bv16)
    requires w != 0
    ensures Previous(w) as int == w as int - 1
  {
    var p := Previous(w);
    assert p == w - 1;
    Predecessor(w);
  }

  /** JSR faults exactly when its operand bytes fault, when PC after them
      is 0 (the u16 `PC - 1` overflows), or when either stack slot the
      return address goes to, 0x0100 - SP and 0x0100 - (SP + 1), is past
      the end of memory. */
  lemma JsrFaults(s: State, mode: Mode)
    ensures Jsr(s, mode).Ok? <==>
      ModeHandler(s, mode).Ok? && ModeHandler(s, mode).value.1.registers.pc != 0
      && 0x100 - s.registers.sp as int < |s.memory|
      && 0x100 - (s.registers.sp as int + 1) % 0x100 < |s.memory|
  {
    ModeHandlerFrame(s, mode);
    if ModeHandler(s, mode).Ok? {
      var (address, t) := ModeHandler(s, mode).value;
      if t.registers.pc != 0 {
        StackPushShortFaults(t, Previous(t.registers.pc));
      }
    }
  }

  /** JSR writes the return address PC - 1 (PC as it is after the operand
      bytes) to the stack: its high byte at 0x0100 - SP and its low byte at
      0x0100 - (SP + 1). No other byte of memory or of the program changes. */
  lemma JsrSpec(s: State, mode: Mode, address: bv16, t: State, u: State)
    requires ModeHandler(s, mode) == Ok((address, t))
    requires Jsr(s, mode) == Ok(u)
    ensures t.registers.pc != 0
    ensures var ret := Previous(t.registers.pc);
      var sp := s.registers.sp as int;
      0x100 - sp < |s.memory| && 0x100 - (sp + 1) % 0x100 < |s.memory|
      && u.memory == s.memory[0x100 - sp := High(ret)][0x100 - (sp + 1) % 0x100 := Low(ret)]
      && u.program == s.program
  {
    HandlerFrame(s, mode, address, t);
    JsrPush(s, mode, address, t, u);
    SamePush(s, t, u.memory, Previous(t.registers.pc));
  }

  /** The push JSR makes, stated on the state after its operand bytes. */
  lemma JsrPush(s: State, mode: Mode, address: bv16, t: State, u: State)
    requires ModeHandler(s, mode) == Ok((address, t))
    requires Jsr(s, mode) == Ok(u)
    ensures t.registers.pc != 0
    ensures var ret := Previous(t.registers.pc);
      var sp := t.registers.sp as int;
      0x100 - sp < |t.memory| && 0x100 - (sp + 1) % 0x100 < |t.memory|
      && u.memory == t.memory[0x100 - sp := High(ret)][0x100 - (sp + 1) % 0x100 := Low(ret)]
      && u.program == t.program
  {
    var ret := Previous(t.registers.pc);
    StackPushShortFaults(t, ret);
    StackPushShortSpec(t, ret);
  }

  /** The same two-byte push, stated on a state whose memory and SP are
      those of another. */
  lemma SamePush(s: State, t: State, m: seq<bv8>, w: bv16)
    requires t.memory == s.memory && t.registers.sp == s.registers.sp
    requires var sp := t.registers.sp as int;
      0x100 - sp < |t.memory| && 0x100 - (sp + 1) % 0x100 < |t.memory|
      && m == t.memory[0x100 - sp := High(w)][0x100 - (sp + 1) % 0x100 := Low(w)]
    ensures var sp := s.registers.sp as int;
      0x100 - sp < |s.memory| && 0x100 - (sp + 1) % 0x100 < |s.memory|
      && m == s.memory[0x100 - sp := High(w)][0x100 - (sp + 1) % 0x100 := Low(w)]
  {
  }

  /** A word stored high byte first at 0x0100 - SP and low byte at
      0x0100 - (SP + 1), as `stackPushShort` stores it, reads back as that
      word. */
  lemma PushedWord(m: seq<bv8>, sp: int, w: bv16, n: seq<bv8>)
    requires 0 <= sp < 0x100 && 0x100 - sp < |m| && 0x100 - (sp + 1) % 0x100 < |m|
    requires n == m[0x100 - sp := High(w)][0x100 - (sp + 1) % 0x100 := Low(w)]
    ensures n[0x100 - (sp + 1) % 0x100] as int + 256 * n[0x100 - sp] as int == w as int
  {
    LowHighValue(w);
  }

  /** JSR moves SP up by two modulo 256, sets PC to the operand's address,
      and changes no other register. */
  lemma JsrPointer(s: State, mode: Mode)
    requires Jsr(s, mode).Ok?
    ensures var address := ModeHandler(s, mode).value.0;
      var u := Jsr(s, mode).value;
      u.registers == s.registers.(pc := address, sp := u.registers.sp)
      && u.registers.sp as int == (s.registers.sp as int + 2) % 0x100
  {
    ModeHandlerFrame(s, mode);
    var (address, t) := ModeHandler(s, mode).value;
    var ret := Previous(t.registers.pc);
    StackPushShortPointer(t, ret);
    var v := StackPushShort(t, ret).value;
    assert Jsr(s, mode) == Ok(v.(registers := v.registers.(pc := address)));
  }

  /** RTS: PC becomes the word `stackPopShort` gives minus one, which
      faults when that word is 0. */
  lemma RtsSpec(s: State)
    requires StackPopShort(s).Ok?
    ensures var (w, t) := StackPopShort(s).value;
      (Rts(s).Err? <==> w == 0)
      && (Rts(s).Ok? ==>
            Rts(s).value.registers.pc as int == w as int - 1
            && Rts(s).value == t.(registers := t.registers.(pc := Rts(s).value.registers.pc)))
  {
    var (w, t) := StackPopShort(s).value;
    if w != 0 {
      assert Rts(s) == Ok(t.(registers := t.registers.(pc := Previous(w))));
      PreviousValue(w);
    }
  }

  /** RTI faults exactly when one of the three stack slots it reads,
      0x0100 - SP, 0x0100 - (SP - 1) and 0x0100 - (SP - 2), is past the end
      of memory. */
  lemma RtiFaults(s: State)
    ensures Rti(s).Ok? <==>
      var sp := s.registers.sp as int;
      0x100 - sp < |s.memory|
      && 0x100 - (sp + 0xFF) % 0x100 < |s.memory|
      && 0x100 - (sp + 0xFE) % 0x100 < |s.memory|
  {
    StackPopByteSpec(s);
    if StackPopByte(s).Ok? {
      var (flags, t) := StackPopByte(s).value;
      StackPopShortFaults(WithFlags(t, flags));
      DecTwice(s.registers.sp as int);
    }
  }

  /** RTI: Flags become the byte at 0x0100 - SP. */
  lemma RtiSpec(s: State, u: State)
    requires Rti(s) == Ok(u)
    ensures 0x100 - s.registers.sp as int < |s.memory|
    ensures u.registers.flags == s.memory[0x100 - s.registers.sp as int]
  {
    StackPopByteSpec(s);
    var (flags, t) := StackPopByte(s).value;
    var t' := WithFlags(t, flags);
    StackPopShortFrame(t');
    var (w, v) := StackPopShort(t').value;
    assert u == v.(registers := v.registers.(pc := w));
  }

  /** RTI moves SP down by three modulo 256: one byte for Flags, two for
      PC. */
  lemma RtiPointer(s: State, u: State)
    requires Rti(s) == Ok(u)
    ensures u.registers.sp as int == (s.registers.sp as int + 0xFD) % 0x100
  {
    var (flags, t) := StackPopByte(s).value;
    var t' := WithFlags(t, flags);
    var (w, v) := StackPopShort(t').value;
    assert u == v.(registers := v.registers.(pc := w));
    PopPointerAfterByte(s, flags, t, t', w, v);
  }

  /** RTI: PC becomes the word with its low byte at 0x0100 - (SP - 1) and
      its high byte at 0x0100 - (SP - 2), used as it is. */
  lemma RtiReturn(s: State, u: State)
    requires Rti(s) == Ok(u)
    ensures var sp := s.registers.sp as int;
      0x100 - (sp + 0xFF) % 0x100 < |s.memory|
      && 0x100 - (sp + 0xFE) % 0x100 < |s.memory|
      && u.registers.pc as int
         == s.memory[0x100 - (sp + 0xFF) % 0x100] as int + 256 * s.memory[0x100 - (sp + 0xFE) % 0x100] as int
  {
    var (flags, t) := StackPopByte(s).value;
    var t' := WithFlags(t, flags);
    var (w, v) := StackPopShort(t').value;
    assert u == v.(registers := v.registers.(pc := w));
    StackPopByteSpec(s);
    PoppedWord(t', w, v);
    PopWordAfterByte(s, t', w);
  }

  /** `StackPopShortSpec` for a pop whose result is already named. */
  lemma PoppedWord(t: State, w: bv16, v: State)
    requires StackPopShort(t) == Ok((w, v))
    ensures var sp := t.registers.sp as int;
      0x100 - sp < |t.memory| && 0x100 - (sp + 0xFF) % 0x100 < |t.memory|
      && w as int == t.memory[0x100 - sp] as int + 256 * t.memory[0x100 - (sp + 0xFF) % 0x100] as int
  {
    StackPopShortSpec(t);
  }

  /** The word `stackPopShort` reads from a state whose memory is that of
      `s` and whose SP is one below, as after RTI's first pop: its slots
      named from the SP of `s`. */
  lemma PopWordAfterByte(s: State, t: State, w: bv16)
    requires t.memory == s.memory
    requires t.registers.sp as int == (s.registers.sp as int + 0xFF) % 0x100
    requires var sp := t.registers.sp as int;
      0x100 - sp < |t.memory| && 0x100 - (sp + 0xFF) % 0x100 < |t.memory|
      && w as int == t.memory[0x100 - sp] as int + 256 * t.memory[0x100 - (sp + 0xFF) % 0x100] as int
    ensures var sp := s.registers.sp as int;
      0x100 - (sp + 0xFF) % 0x100 < |s.memory|
      && 0x100 - (sp + 0xFE) % 0x100 < |s.memory|
      && w as int == s.memory[0x100 - (sp + 0xFF) % 0x100] as int + 256 * s.memory[0x100 - (sp + 0xFE) % 0x100] as int
  {
    DecTwice(s.registers.sp as int);
  }

  /** SP after a byte and then a word are popped, as RTI does: three below
      the SP before, modulo 256. */
  lemma PopPointerAfterByte(s: State, flags: bv8, t: State, t': State, w: bv16, v: State)
    requires StackPopByte(s) == Ok((flags, t)) && t' == WithFlags(t, flags)
    requires StackPopShort(t') == Ok((w, v))
    ensures v.registers.sp as int == (s.registers.sp as int + 0xFD) % 0x100
  {
    StackPopByteSpec(s);
    StackPopShortFrame(t');
    DecThrice(s.registers.sp as int, t'.registers.sp as int, v.registers.sp as int);
  }

  /** RTI changes no register but Flags, PC and SP, and no byte of memory or
      of the program. */
  lemma RtiFrame(s: State, u: State)
    requires Rti(s) == Ok(u)
    ensures u.registers.a == s.registers.a && u.registers.x == s.registers.x && u.registers.y == s.registers.y
      && u.memory == s.memory && u.program == s.program
  {
    StackPopByteSpec(s);
    var (flags, t) := StackPopByte(s).value;
    var t' := WithFlags(t, flags);
    StackPopShortFrame(t');
    var (w, v) := StackPopShort(t').value;
    assert u == v.(registers := v.registers.(pc := w));
  }

  /** The branch target: PC plus the offset's low byte read as a signed
      byte, modulo 2^16. */
  lemma BranchTargetValue(pc: bv16, offset: bv16)
    ensures BranchTarget(pc, offset) as int == (pc as int + Signed(Low(offset)) + 0x1_0000) % 0x1_0000
  {
    var extended := SignExtend(Low(offset));
    var target := BranchTarget(pc, offset);
    assert target == pc + extended;
    AddWords(pc, extended);
    SignExtendValue(Low(offset));
    WordRange(pc);
    WrapOffset(pc as int, Signed(Low(offset)));
  }

  lemma WrapOffset(p: int, d: int)
    requires 0 <= p < 0x1_0000 && -128 <= d < 128
    ensures (p + (d + 0x1_0000) % 0x1_0000) % 0x1_0000 == (p + d + 0x1_0000) % 0x1_0000
  {
    if d < 0 {
      assert (d + 0x1_0000) % 0x1_0000 == d + 0x1_0000;
    } else {
      assert (d + 0x1_0000) % 0x1_0000 == d;
      DivMod65536((p + d) % 0x1_0000, (p + d) / 0x1_0000 + 1, p + d + 0x1_0000);
    }
  }

  /** A relative branch: the offset byte follows the opcode; when the
      condition holds PC moves by that byte read as signed (from the
      address after it), otherwise PC just passes it. Nothing else changes. */
  lemma BranchRelativeSpec(s: State, mask: bv8, expected: bv8)
    requires ReadByte(s).Ok?
    ensures Branch(s, Relative, mask, expected).Ok?
    ensures var u := Branch(s, Relative, mask, expected).value;
      var pc := s.registers.pc as int;
      var offset := Signed(s.program[pc]);
      u.registers.pc as int
        == (if BranchTaken(s.registers.flags, mask, expected) then (pc + 1 + offset + 0x1_0000) % 0x1_0000 else pc + 1)
      && u.registers == s.registers.(pc := u.registers.pc)
      && u.memory == s.memory && u.program == s.program
  {
    ReadByteSpec(s);
    var (b, t) := ReadByte(s).value;
    assert RelativeHandler(s) == Ok((b as bv16, t));
    LowOfByte(b);
    BranchTargetValue(t.registers.pc, b as bv16);
  }

  /** A branch faults exactly when its operand bytes do. */
  lemma BranchFaults(s: State, mode: Mode, mask: bv8, expected: bv8)
    ensures Branch(s, mode, mask, expected).Ok? <==> ModeHandler(s, mode).Ok?
  {
  }

  /** Which status bit each branch tests: BCC, BCS, BNE, BPL and BVC branch
      on Carry clear, Carry set, Zero clear, Negative clear and Overflow
      clear. */
  lemma BranchConditions(flags: bv8)
    ensures BranchTaken(flags, 0x01, 0) <==> !IsSet(flags, CARRY)
    ensures BranchTaken(flags, 0x01, 1) <==> IsSet(flags, CARRY)
    ensures BranchTaken(flags, 0x02, 0) <==> !IsSet(flags, ZERO)
    ensures BranchTaken(flags, 0x40, 0) <==> !IsSet(flags, NEGATIVE)
    ensures BranchTaken(flags, 0x20, 0) <==> !IsSet(flags, OVERFLOW)
  {
  }

  /** BEQ, BMI and BVS as written compare a masked bit other than bit 0 with
      1, which never holds: they never branch, whatever the flags, and only
      move PC past their operand. */
  lemma NeverTaken(s: State, mnemonic: Mnemonic, mode: Mode)
    requires mnemonic in {BEQ, BMI, BVS}
    ensures Execute(s, Instruction(mnemonic, mode)) ==
      if ModeHandler(s, mode).Ok? then Ok(ModeHandler(s, mode).value.1) else Err(ModeHandler(s, mode).fault)
  {
    var mask: bv8 := if mnemonic == BEQ then 0x02 else if mnemonic == BMI then 0x40 else 0x20;
    assert Execute(s, Instruction(mnemonic, mode)) == Branch(s, mode, mask, 1);
    if ModeHandler(s, mode).Ok? {
      assert !BranchTaken(ModeHandler(s, mode).value.1.registers.flags, mask, 1);
    }
  }

  /** A step is the execution of the decoded instruction on the state
      after the fetch. */
  lemma StepDecoded(s: State, inst: Instruction)
    requires ReadByte(s).Ok? && Decode(s.program[s.registers.pc]) == Some(inst)
    ensures Step(s) == Execute(ReadByte(s).value.1, inst)
  {
    FetchAndDecodeSpec(s);
  }

  /** CLC, CLD, CLI, CLV, SEC, SED and SEI compute a new status and drop
      it, and BRK and NOP have empty bodies: none of them changes the state. */
  lemma NoEffect(s: State, inst: Instruction)
    requires inst.mnemonic in {CLC, CLD, CLI, CLV, SEC, SED, SEI, BRK, NOP}
    ensures Execute(s, inst) == Ok(s)
  {
  }

  /** So a step over any opcode that decodes to one of them only moves PC
      past the opcode. */
  lemma NoEffectStep(s: State)
    requires ReadByte(s).Ok? && Decode(s.program[s.registers.pc]).Some?
    requires Decode(s.program[s.registers.pc]).value.mnemonic in {CLC, CLD, CLI, CLV, SEC, SED, SEI, BRK, NOP}
    ensures Step(s).Ok?
    ensures Step(s).value.registers.pc as int == s.registers.pc as int + 1
    ensures Step(s).value == s.(registers := s.registers.(pc := Step(s).value.registers.pc))
  {
    ReadByteSpec(s);
    var inst := Decode(s.program[s.registers.pc]).value;
    StepDecoded(s, inst);
    NoEffect(ReadByte(s).value.1, inst);
  }

  // ---------------------------------------------------------------- reset

  /** `reset` gives the state `CPU::new` builds for the same program: every
      register 0 and 0xffff bytes of zeroed memory. */
  lemma ResetSpec(s: State)
    ensures Reset(s) == New(s.program)
    ensures Reset(s).registers == Registers(0, 0, 0, 0, 0, 0)
    ensures |Reset(s).memory| == 0xFFFF && forall i :: 0 <= i < 0xFFFF ==> Reset(s).memory[i] == 0
  {
  }
}
