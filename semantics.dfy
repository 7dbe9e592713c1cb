/**
  * What each routine of src/cpu.rs does, as a function from the machine state
  * before it to the state after it (and the value it returns, if any).
  *
  * The machine state is the register file, the program the CPU fetches from
  * and the data memory. Every place where the source can panic (an index
  * past the end of `program` or `memory`, a u16 or u8 `+`/`-` that
  * overflows in a debug build, an opcode missing from the table) yields a
  * `Fault` instead; after a fault the source's process has aborted, so no
  * state is given.
  */
module Semantics {
  import opened Bytes
  import opened Flags
  import opened Instructions
  import opened Storage

  /** The register file (src/cpu.rs:21-41). */
  datatype Registers = Registers(pc: bv16, sp: bv8, a: bv8, x: bv8, y: bv8, flags: bv8)

  /** `Registers::new()` and the register part of `reset`. */
  const ZERO_REGISTERS: Registers := Registers(0, 0, 0, 0, 0, 0)

  /** The `STACK` field, which `CPU::new` sets to 0x0100 and nothing changes. */
  const STACK: bv16 := 0x0100

  /** The size of the data memory `CPU::new` and `reset` allocate. */
  const MEMORY_SIZE: nat := 0xFFFF

  datatype State = State(registers: Registers, program: seq<bv8>, memory: seq<bv8>)

  datatype Fault =
    | IllegalInstruction(opcode: bv8)  // the `_ => panic!` arm of the opcode table
    | ProgramIndex(index: int)         // `self.program[...]` past the end
    | MemoryIndex(address: int)        // `self.memory[...]` past the end
    | ArithmeticOverflow               // a u16 or u8 `+` or `-` that overflows

  datatype Result<T> = Ok(value: T) | Err(fault: Fault)
  {
    predicate IsFailure()
    {
      Err?
    }

    function PropagateFailure<U>(): Result<U>
      requires Err?
    {
      Err(fault)
    }

    function Extract(): T
      requires Ok?
    {
      value
    }
  }

  /** The three data registers, for the handlers that differ only in which
      of them they use (LDA/LDX/LDY, STA/STX/STY, CMP/CPX/CPY, ...). */
  datatype Register = A | X | Y

  function Get(r: Registers, reg: Register): bv8
  {
    match reg
    case A => r.a
    case X => r.x
    case Y => r.y
  }

  function Put(r: Registers, reg: Register, v: bv8): Registers
  {
    match reg
    case A => r.(a := v)
    case X => r.(x := v)
    case Y => r.(y := v)
  }

  /** The register file with `flags` replaced; everything else kept. */
  function WithFlags(s: State, flags: bv8): State
  {
    s.(registers := s.registers.(flags := flags))
  }

  // ---------------------------------------------------------------- arithmetic

  // The address and register arithmetic of the handlers, one named
  // computation each; u16 and u8 operations that the source writes with
  // `wrapping_add`/`wrapping_sub` or that cannot overflow are taken modulo
  // 2^16 and 2^8.

  /** `STACK - SP`, the slot `stackPushByte` and `stackPopByte` use. */
  function StackSlot(sp: bv8): bv16
  {
    STACK - (sp as bv16)
  }

  /** `0x0100 | SP`, the slot PHA, PHP, PLA and PLP use. */
  function PageOneSlot(sp: bv8): bv16
  {
    0x0100 | (sp as bv16)
  }

  /** `b.wrapping_add(1)` */
  function WrappingInc(b: bv8): bv8
  {
    b + 1
  }

  /** `b.wrapping_sub(1)` */
  function WrappingDec(b: bv8): bv8
  {
    b - 1
  }

  /** `w - 1` on u16, which the callers only reach when `w` is not 0. */
  function Previous(w: bv16): bv16
  {
    w - 1
  }

  /** `(b as u16).wrapping_add(index as u16)`: ZeroPageX and ZeroPageY. */
  function ZeroPageIndexed(b: bv8, index: bv8): bv16
  {
    (b as bv16) + (index as bv16)
  }

  /** AbsoluteX and AbsoluteY: the index added to the low byte only. */
  function AbsoluteIndexed(w: bv16, index: bv8): bv16
  {
    Word(Low(w) + index, High(w))
  }

  /** IndirectX's pointer: `b.wrapping_add(index) as u16`. */
  function ZeroPagePointer(b: bv8, index: bv8): bv16
  {
    (b + index) as bv16
  }

  /** IndirectY's address: `w.wrapping_add(index as u16)`. */
  function PostIndexed(w: bv16, index: bv8): bv16
  {
    w + (index as bv16)
  }

  /** `branch`: `PC.wrapping_add(offset as i8 as u16)`, where `offset as i8`
      keeps the low byte of the mode handler's result. */
  function BranchTarget(pc: bv16, offset: bv16): bv16
  {
    pc + SignExtend(Low(offset))
  }

  /** The branch condition `(Flags & mask) == expected`. */
  predicate BranchTaken(flags: bv8, mask: bv8, expected: bv8)
  {
    flags & mask == expected
  }

  // ---------------------------------------------------------------- fetch

  /** `readByte` (src/cpu.rs:326-330): the program byte at PC, after which PC
      is one further on. Faults when PC is past the end of the program, or
      when PC is 0xffff (the `+= 1` overflows). */
  function ReadByte(s: State): Result<(bv8, State)>
  {
    var pc := s.registers.pc;
    if pc as int >= |s.program| then Err(ProgramIndex(pc as int))
    else if pc == 0xFFFF then Err(ArithmeticOverflow)
    else Ok((s.program[pc], s.(registers := s.registers.(pc := Next(pc)))))
  }

  /** `readShort` (src/cpu.rs:332-337): the little-endian word at PC and
      PC + 1 of the program, after which PC is two further on. */
  function ReadShort(s: State): Result<(bv16, State)>
  {
    var pc := s.registers.pc;
    if pc as int >= |s.program| then Err(ProgramIndex(pc as int))
    else if pc == 0xFFFF then Err(ArithmeticOverflow)
    else if pc as int + 1 >= |s.program| then Err(ProgramIndex(pc as int + 1))
    else if pc == 0xFFFE then Err(ArithmeticOverflow)
    else Ok((Word(s.program[pc], s.program[pc as int + 1]), s.(registers := s.registers.(pc := NextTwo(pc)))))
  }

  // ---------------------------------------------------------------- memory

  /** `memoryReadByte`, which panics past the end of memory. */
  function LoadByte(s: State, address: bv16): Result<bv8>
  {
    if address as int < |s.memory| then Ok(s.memory[address]) else Err(MemoryIndex(address as int))
  }

  /** `memoryReadShort`, which panics past the end of memory and when
      `address + 1` overflows. */
  function LoadShort(s: State, address: bv16): Result<bv16>
  {
    if address as int >= |s.memory| then Err(MemoryIndex(address as int))
    else if address as int == 0xFFFF then Err(ArithmeticOverflow)
    else if address as int + 1 >= |s.memory| then Err(MemoryIndex(address as int + 1))
    else Ok(ShortAt(s.memory, address as int))
  }

  /** `memoryWriteByte`, which panics past the end of memory. */
  function StoreByte(s: State, address: bv16, val: bv8): Result<State>
  {
    if address as int < |s.memory| then Ok(s.(memory := s.memory[address as int := val]))
    else Err(MemoryIndex(address as int))
  }

  // ---------------------------------------------------------------- stack helpers

  /** `stackPushByte` (src/cpu.rs:338-343): writes at STACK - SP, then adds
      one to SP (wrapping). */
  function StackPushByte(s: State, value: bv8): Result<State>
  {
    var t :- StoreByte(s, StackSlot(s.registers.sp), value);
    Ok(t.(registers := t.registers.(sp := WrappingInc(t.registers.sp))))
  }

  /** `stackPushShort` (src/cpu.rs:345-350): the high byte, then the low. */
  function StackPushShort(s: State, value: bv16): Result<State>
  {
    var t :- StackPushByte(s, High(value));
    StackPushByte(t, Low(value))
  }

  /** `stackPopByte` (src/cpu.rs:352-359): reads at STACK - SP, then
      subtracts one from SP (wrapping). */
  function StackPopByte(s: State): Result<(bv8, State)>
  {
    var v :- LoadByte(s, StackSlot(s.registers.sp));
    Ok((v, s.(registers := s.registers.(sp := WrappingDec(s.registers.sp)))))
  }

  /** `stackPopShort` (src/cpu.rs:361-366): the low byte, then the high. */
  function StackPopShort(s: State): Result<(bv16, State)>
  {
    var low :- StackPopByte(s);
    var high :- StackPopByte(low.1);
    Ok((Word(low.0, high.0), high.1))
  }

  // ---------------------------------------------------------------- addressing

  /** `modeHandler` (src/cpu.rs:368-387): the address (or, for Relative, the
      offset) an instruction's operand bytes denote. Implicit and Accumulator
      give 0 and read nothing; Immediate falls to the `_` arm, gives 0xff
      and reads nothing (the handler then reads the byte itself). */
  function ModeHandler(s: State, mode: Mode): Result<(bv16, State)>
  {
    match mode
    case Implicit => Ok((0, s))
    case Accumulator => Ok((0, s))
    case Immediate => Ok((0xFF, s))
    case ZeroPage => ZeroPageHandler(s)
    case ZeroPageX => ZeroPageXHandler(s)
    case ZeroPageY => ZeroPageYHandler(s)
    case Relative => RelativeHandler(s)
    case Absolute => AbsoluteHandler(s)
    case AbsoluteX => AbsoluteXHandler(s)
    case AbsoluteY => AbsoluteYHandler(s)
    case Indirect => IndirectHandler(s)
    case IndirectX => IndirectXHandler(s)
    case IndirectY => IndirectYHandler(s)
  }

  /** `ImmediateHandler`: the next program byte is the value. */
  function ImmediateHandler(s: State): Result<(bv8, State)>
  {
    ReadByte(s)
  }

  function ZeroPageHandler(s: State): Result<(bv16, State)>
  {
    var next :- ReadByte(s);
    Ok((next.0 as bv16, next.1))
  }

  /** The operand byte plus X, added in 16 bits: no wrap within page zero. */
  function ZeroPageXHandler(s: State): Result<(bv16, State)>
  {
    var next :- ReadByte(s);
    Ok((ZeroPageIndexed(next.0, next.1.registers.x), next.1))
  }

  function ZeroPageYHandler(s: State): Result<(bv16, State)>
  {
    var next :- ReadByte(s);
    Ok((ZeroPageIndexed(next.0, next.1.registers.y), next.1))
  }

  function RelativeHandler(s: State): Result<(bv16, State)>
  {
    var next :- ReadByte(s);
    Ok((next.0 as bv16, next.1))
  }

  function AbsoluteHandler(s: State): Result<(bv16, State)>
  {
    ReadShort(s)
  }

  /** The operand word with X added to its low byte only (wrapping within
      the byte, no carry into the high byte). */
  function AbsoluteXHandler(s: State): Result<(bv16, State)>
  {
    var next :- ReadShort(s);
    Ok((AbsoluteIndexed(next.0, next.1.registers.x), next.1))
  }

  function AbsoluteYHandler(s: State): Result<(bv16, State)>
  {
    var next :- ReadShort(s);
    Ok((AbsoluteIndexed(next.0, next.1.registers.y), next.1))
  }

  /** The word in memory at the operand word. */
  function IndirectHandler(s: State): Result<(bv16, State)>
  {
    var next :- ReadShort(s);
    var target :- LoadShort(next.1, next.0);
    Ok((target, next.1))
  }

  /** The word in memory at (operand byte + X) wrapped to a byte. */
  function IndirectXHandler(s: State): Result<(bv16, State)>
  {
    var next :- ReadByte(s);
    var target :- LoadShort(next.1, ZeroPagePointer(next.0, next.1.registers.x));
    Ok((target, next.1))
  }

  /** The word in memory at the operand byte, plus Y (wrapping in 16 bits). */
  function IndirectYHandler(s: State): Result<(bv16, State)>
  {
    var next :- ReadByte(s);
    var target :- LoadShort(next.1, next.0 as bv16);
    Ok((PostIndexed(target, next.1.registers.y), next.1))
  }

  /** The operand of the value-reading handlers: `modeHandler`, then
      `match mode { Immediate => ImmediateHandler(), _ => memoryReadByte(address) }`. */
  function Operand(s: State, mode: Mode): Result<(bv8, State)>
  {
    var address :- ModeHandler(s, mode);
    if mode == Immediate then ImmediateHandler(address.1)
    else
      var val :- LoadByte(address.1, address.0);
      Ok((val, address.1))
  }

  // ---------------------------------------------------------------- handlers

  /** LDA, LDX, LDY (src/cpu.rs:447-471): the operand into the register,
      then Zero and Negative from it. */
  function Load(s: State, mode: Mode, reg: Register): Result<State>
  {
    var operand :- Operand(s, mode);
    var (val, t) := operand;
    var r := Put(t.registers, reg, val);
    Ok(t.(registers := r.(flags := SetZeroNegative(r.flags, val))))
  }

  /** STA, STX, STY (src/cpu.rs:472-483): the register to the address. */
  function Store(s: State, mode: Mode, reg: Register): Result<State>
  {
    var address :- ModeHandler(s, mode);
    StoreByte(address.1, address.0, Get(address.1.registers, reg))
  }

  /** TAX, TAY, TXA, TYA, TSX (src/cpu.rs:484-508): `value` into the
      register, then Zero and Negative from it. */
  function Transfer(s: State, value: bv8, reg: Register): State
  {
    var r := Put(s.registers, reg, value);
    s.(registers := r.(flags := SetZeroNegative(r.flags, value)))
  }

  /** TXS (src/cpu.rs:509-511): X into SP; no flag changes. */
  function TransferToStack(s: State): State
  {
    s.(registers := s.registers.(sp := s.registers.x))
  }

  /** PHA and PHP (src/cpu.rs:515-528): `value` to 0x0100 | SP, then one
      subtracted from SP (wrapping). */
  function Push(s: State, value: bv8): Result<State>
  {
    var t :- StoreByte(s, PageOneSlot(s.registers.sp), value);
    Ok(t.(registers := t.registers.(sp := WrappingDec(t.registers.sp))))
  }

  /** The read of PLA and PLP: the byte at 0x0100 | SP, then one added to SP
      (wrapping). */
  function Pull(s: State): Result<(bv8, State)>
  {
    var v :- LoadByte(s, PageOneSlot(s.registers.sp));
    Ok((v, s.(registers := s.registers.(sp := WrappingInc(s.registers.sp)))))
  }

  /** PLA (src/cpu.rs:530-537): the pulled byte into A, then Zero and
      Negative from it. */
  function PullAccumulator(s: State): Result<State>
  {
    var pulled :- Pull(s);
    var (v, t) := pulled;
    Ok(t.(registers := t.registers.(a := v, flags := SetZeroNegative(t.registers.flags, v))))
  }

  /** PLP (src/cpu.rs:538-542): the pulled byte replaces Flags. */
  function PullFlags(s: State): Result<State>
  {
    var pulled :- Pull(s);
    Ok(WithFlags(pulled.1, pulled.0))
  }

  datatype LogicOp = And | Eor | Ora

  function Combine(op: LogicOp, a: bv8, val: bv8): bv8
  {
    match op
    case And => a & val
    case Eor => a ^ val
    case Ora => a | val
  }

  /** AND, EOR, ORA (src/cpu.rs:544-569): A combined with the operand, then
      Zero and Negative from the result. */
  function Logic(s: State, mode: Mode, op: LogicOp): Result<State>
  {
    var operand :- Operand(s, mode);
    var (val, t) := operand;
    var result := Combine(op, t.registers.a, val);
    Ok(t.(registers := t.registers.(a := result, flags := SetZeroNegative(t.registers.flags, result))))
  }

  /** BIT (src/cpu.rs:571-589): always reads memory at the mode's address. */
  function Bit(s: State, mode: Mode): Result<State>
  {
    var address :- ModeHandler(s, mode);
    var t := address.1;
    var memVal :- LoadByte(t, address.0);
    Ok(WithFlags(t, BitTest(t.registers.a, memVal, t.registers.flags)))
  }

  /** ADC (src/cpu.rs:591-613). */
  function Adc(s: State, mode: Mode): Result<State>
  {
    var operand :- Operand(s, mode);
    var (val, t) := operand;
    var (result, flags) := AddWithCarry(t.registers.a, val, t.registers.flags);
    Ok(t.(registers := t.registers.(a := result, flags := flags)))
  }

  /** SBC (src/cpu.rs:615-639). */
  function Sbc(s: State, mode: Mode): Result<State>
  {
    var operand :- Operand(s, mode);
    var (val, t) := operand;
    var (result, flags) := SubtractWithCarry(t.registers.a, val, t.registers.flags);
    Ok(t.(registers := t.registers.(a := result, flags := flags)))
  }

  /** `compare` through CMP, CPX, CPY (src/cpu.rs:640-658): `value - val` on
      u8, which panics when the register is below the operand. */
  function Compare(s: State, mode: Mode, reg: Register): Result<State>
  {
    var value := Get(s.registers, reg);
    var operand :- Operand(s, mode);
    CompareWith(operand.1, value, operand.0)
  }

  /** `value - val` (u8, panics when it would go below zero), then Carry,
      Zero and Negative from the difference. */
  function CompareWith(s: State, value: bv8, val: bv8): Result<State>
  {
    if value < val then Err(ArithmeticOverflow)
    else Ok(WithFlags(s, CompareFlags(s.registers.flags, value, val)))
  }

  /** INC and DEC (src/cpu.rs:659-686): the operand plus or minus one
      (wrapping) written back to the mode's address, then Zero and Negative
      from the result. */
  function Adjust(s: State, mode: Mode, increment: bool): Result<State>
  {
    var address :- ModeHandler(s, mode);
    var operand :- if mode == Immediate then ImmediateHandler(address.1)
                   else var v :- LoadByte(address.1, address.0); Ok((v, address.1));
    var (val, t) := operand;
    var result := if increment then WrappingInc(val) else WrappingDec(val);
    var u :- StoreByte(t, address.0, result);
    Ok(WithFlags(u, SetZeroNegative(u.registers.flags, result)))
  }

  /** INX, INY, DEX, DEY (src/cpu.rs:668-696): the incremented or
      decremented value is computed and dropped, so the register keeps its
      value; Zero and Negative are set from it. */
  function CountRegister(s: State, reg: Register): State
  {
    WithFlags(s, SetZeroNegative(s.registers.flags, Get(s.registers, reg)))
  }

  datatype ShiftOp = Asl | Lsr | Rol | Ror

  function ShiftBy(op: ShiftOp, val: bv8, flags: bv8): (bv8, bv8)
  {
    match op
    case Asl => ShiftLeft(val, flags)
    case Lsr => ShiftRight(val, flags)
    case Rol => RotateLeft(val, flags)
    case Ror => RotateRight(val, flags)
  }

  /** ASL, LSR, ROL, ROR (src/cpu.rs:697-775): the operand is A for the
      Accumulator mode and memory at the mode's address otherwise; the result
      goes back to the same place, then Zero and Negative from it. */
  function Shift(s: State, mode: Mode, op: ShiftOp): Result<State>
  {
    var address :- ModeHandler(s, mode);
    if mode == Accumulator then Ok(ShiftAccumulator(address.1, op))
    else ShiftMemory(address.1, address.0, op)
  }

  /** A shift whose operand and result are the accumulator. */
  function ShiftAccumulator(s: State, op: ShiftOp): State
  {
    var (result, flags) := ShiftBy(op, s.registers.a, s.registers.flags);
    s.(registers := s.registers.(a := result, flags := SetZeroNegative(flags, result)))
  }

  /** A shift whose operand and result are the byte at `address`. */
  function ShiftMemory(s: State, address: bv16, op: ShiftOp): Result<State>
  {
    var val :- LoadByte(s, address);
    var (result, flags) := ShiftBy(op, val, s.registers.flags);
    var t :- StoreByte(s, address, result);
    Ok(WithFlags(t, SetZeroNegative(flags, result)))
  }

  /** JMP (src/cpu.rs:776-780): PC := the mode's address. */
  function Jmp(s: State, mode: Mode): Result<State>
  {
    var address :- ModeHandler(s, mode);
    Ok(address.1.(registers := address.1.registers.(pc := address.0)))
  }

  /** JSR (src/cpu.rs:783-795): pushes PC - 1 (u16, panics when PC is 0)
      with `stackPushShort`, then PC := the mode's address. */
  function Jsr(s: State, mode: Mode): Result<State>
  {
    var address :- ModeHandler(s, mode);
    var t := address.1;
    if t.registers.pc == 0 then Err(ArithmeticOverflow)
    else
      var u :- StackPushShort(t, Previous(t.registers.pc));
      Ok(u.(registers := u.registers.(pc := address.0)))
  }

  /** `branch` and its callers (src/cpu.rs:796-841): the offset's low byte,
      read as `i8` and sign-extended, is added to PC (wrapping) when
      `Flags & mask == expected`. */
  function Branch(s: State, mode: Mode, mask: bv8, expected: bv8): Result<State>
  {
    var offset :- ModeHandler(s, mode);
    var t := offset.1;
    if BranchTaken(t.registers.flags, mask, expected) then
      Ok(t.(registers := t.registers.(pc := BranchTarget(t.registers.pc, offset.0))))
    else Ok(t)
  }

  /** RTS (src/cpu.rs:799-801): PC := the popped word minus one (u16, panics
      when the word is 0). */
  function Rts(s: State): Result<State>
  {
    var popped :- StackPopShort(s);
    if popped.0 == 0 then Err(ArithmeticOverflow)
    else Ok(popped.1.(registers := popped.1.registers.(pc := Previous(popped.0))))
  }

  /** RTI (src/cpu.rs:872-875): Flags := a popped byte, then PC := a popped
      word. */
  function Rti(s: State): Result<State>
  {
    var flags :- StackPopByte(s);
    var t := WithFlags(flags.1, flags.0);
    var pc :- StackPopShort(t);
    Ok(pc.1.(registers := pc.1.registers.(pc := pc.0)))
  }

  /** `executeInstruction` (src/cpu.rs:877-939). CLC, CLD, CLI, CLV, SEC, SED
      and SEI compute a new status and drop it, and BRK and NOP have empty
      bodies: all seven leave the state as it is. */
  function Execute(s: State, inst: Instruction): Result<State>
  {
    var mode := inst.mode;
    match inst.mnemonic
    case LDA => Load(s, mode, A)
    case LDX => Load(s, mode, X)
    case LDY => Load(s, mode, Y)
    case STA => Store(s, mode, A)
    case STX => Store(s, mode, X)
    case STY => Store(s, mode, Y)
    case TAX => Ok(Transfer(s, s.registers.a, X))
    case TAY => Ok(Transfer(s, s.registers.a, Y))
    case TXA => Ok(Transfer(s, s.registers.x, A))
    case TYA => Ok(Transfer(s, s.registers.y, A))
    case TSX => Ok(Transfer(s, s.registers.sp, X))
    case TXS => Ok(TransferToStack(s))
    case PHA => Push(s, s.registers.a)
    case PHP => Push(s, s.registers.flags)
    case PLA => PullAccumulator(s)
    case PLP => PullFlags(s)
    case AND => Logic(s, mode, And)
    case EOR => Logic(s, mode, Eor)
    case ORA => Logic(s, mode, Ora)
    case BIT => Bit(s, mode)
    case ADC => Adc(s, mode)
    case SBC => Sbc(s, mode)
    case CMP => Compare(s, mode, A)
    case CPX => Compare(s, mode, X)
    case CPY => Compare(s, mode, Y)
    case INC => Adjust(s, mode, true)
    case INX => Ok(CountRegister(s, X))
    case INY => Ok(CountRegister(s, Y))
    case DEC => Adjust(s, mode, false)
    case DEX => Ok(CountRegister(s, X))
    case DEY => Ok(CountRegister(s, Y))
    case ASL => Shift(s, mode, Asl)
    case LSR => Shift(s, mode, Lsr)
    case ROL => Shift(s, mode, Rol)
    case ROR => Shift(s, mode, Ror)
    case JMP => Jmp(s, mode)
    case JSR => Jsr(s, mode)
    case RTS => Rts(s)
    case BCC => Branch(s, mode, 0x01, 0)
    case BCS => Branch(s, mode, 0x01, 1)
    case BEQ => Branch(s, mode, 0x02, 1)
    case BMI => Branch(s, mode, 0x40, 1)
    case BNE => Branch(s, mode, 0x02, 0)
    case BPL => Branch(s, mode, 0x40, 0)
    case BVC => Branch(s, mode, 0x20, 0)
    case BVS => Branch(s, mode, 0x20, 1)
    case CLC => Ok(s)
    case CLD => Ok(s)
    case CLI => Ok(s)
    case CLV => Ok(s)
    case SEC => Ok(s)
    case SED => Ok(s)
    case SEI => Ok(s)
    case BRK => Ok(s)
    case NOP => Ok(s)
    case RTI => Rti(s)
  }

  /** `fetchAndDecodeInstruction` (src/cpu.rs:117-325): the program byte at
      PC is read (PC advances by one) and looked up in the opcode table. */
  function FetchAndDecode(s: State): Result<(Instruction, State)>
  {
    var opcode :- ReadByte(s);
    match Decode(opcode.0)
    case None => Err(IllegalInstruction(opcode.0))
    case Some(inst) => Ok((inst, opcode.1))
  }

  /** One turn of the `run` loop (src/cpu.rs:941-946). */
  function Step(s: State): Result<State>
  {
    var decoded :- FetchAndDecode(s);
    Execute(decoded.1, decoded.0)
  }

  /** `fuel` turns of the `run` loop, stopping at the first fault. */
  function Run(s: State, fuel: nat): Result<State>
    decreases fuel, 0
  {
    if fuel == 0 then Ok(s) else RunFetch(s, fuel - 1)
  }

  /** One turn of the loop, then `fuel` more unless it faulted: the fetch
      and decode half of the turn. */
  function RunFetch(s: State, fuel: nat): Result<State>
    decreases fuel, 2
  {
    var decoded :- FetchAndDecode(s);
    RunExecute(decoded.1, decoded.0, fuel)
  }

  /** The execute half of a turn, then `fuel` more turns unless it faulted. */
  function RunExecute(s: State, inst: Instruction, fuel: nat): Result<State>
    decreases fuel, 1
  {
    var t :- Execute(s, inst);
    Run(t, fuel)
  }

  /** One turn of the loop is one step. */
  lemma RunOne(s: State)
    ensures Run(s, 1) == Step(s)
  {
    RunTurn(s, 1);
    if Step(s).Ok? {
      assert Run(Step(s).value, 0) == Ok(Step(s).value);
    }
  }

  /** A run of `n > 0` turns is a step and then, unless it faulted, the
      remaining `n - 1` turns. */
  lemma RunTurn(s: State, n: nat)
    requires n > 0
    ensures Run(s, n) == if Step(s).Ok? then Run(Step(s).value, n - 1) else Step(s)
  {
    assert Run(s, n) == RunFetch(s, n - 1);
    match FetchAndDecode(s)
    case Err(_) =>
    case Ok(decoded) =>
      assert RunFetch(s, n - 1) == RunExecute(decoded.1, decoded.0, n - 1);
  }

  /** A run of `n > 0` turns whose first step succeeds is that step followed
      by `n - 1` more turns. */
  lemma RunStep(s: State, t: State, n: nat)
    requires n > 0 && Step(s) == Ok(t)
    ensures Run(s, n) == Run(t, n - 1)
  {
    RunTurn(s, n);
  }

  /** A run of `n > 0` turns whose first step faults stops with that fault. */
  lemma RunFault(s: State, n: nat)
    requires n > 0 && Step(s).Err?
    ensures Run(s, n) == Err(Step(s).fault)
  {
    RunTurn(s, n);
  }

  /** A CPU as `CPU::new` builds it, with `program` in place of the file's
      contents. */
  function New(program: seq<bv8>): State
  {
    State(ZERO_REGISTERS, program, seq(MEMORY_SIZE, _ => 0))
  }

  /** `reset` (src/cpu.rs:65-73): registers zero, a fresh zeroed memory, the
      program kept. */
  function Reset(s: State): State
  {
    State(ZERO_REGISTERS, s.program, seq(MEMORY_SIZE, _ => 0))
  }
}
