/**
  * The `CPU` object of src/cpu.rs: a register file and a program that its
  * methods update in place, and a `Memory` object they write through.
  *
  * Every method is proved against the function of the same routine in
  * `Semantics`: when the function gives a state, the method returns `Ok` and
  * leaves the object in exactly that state; when the function gives a fault,
  * the method returns the same fault (the source panics there, so the object
  * is not looked at again).
  */
module Cpu {
  import opened Bytes
  import opened Flags
  import opened Instructions
  import opened Storage
  import opened Semantics

  /** What a value-returning routine whose specification is `spec` returns:
      the value, or the fault. */
  function Returned<T>(spec: Result<(T, State)>): Result<T>
  {
    if spec.Ok? then Ok(spec.value.0) else Err(spec.fault)
  }

  /** What a routine that returns nothing returns. */
  function Outcome(spec: Result<State>): Result<()>
  {
    if spec.Ok? then Ok(()) else Err(spec.fault)
  }

  /** `r` is what a value-returning routine gives when its specification
      is `spec` and the object now holds `now`. */
  ghost predicate Gave<T>(r: Result<T>, spec: Result<(T, State)>, now: State)
  {
    r == Returned(spec) && (spec.Ok? ==> now == spec.value.1)
  }

  /** The same for a routine that returns nothing. */
  ghost predicate Did(r: Result<()>, spec: Result<State>, now: State)
  {
    r == Outcome(spec) && (spec.Ok? ==> now == spec.value)
  }

  class CPU {
    var registers: Registers
    var program: seq<bv8>
    const memory: Memory

    /** The machine state the object holds. */
    ghost function Value(): State
      reads this, memory
    {
      State(registers, program, memory.memory)
    }

    /** `CPU::new` (src/cpu.rs:53-64), with the program given instead of
        read from a file: registers zero, 0xffff bytes of zeroed memory. */
    constructor(program: seq<bv8>)
      ensures Value() == Semantics.New(program)
      ensures fresh(memory)
    {
      registers := ZERO_REGISTERS;
      this.program := program;
      memory := new Memory(MEMORY_SIZE);
    }

    /** `reset` (src/cpu.rs:65-73) */
    method Reset()
      modifies this`registers, memory
      ensures Value() == Semantics.Reset(old(Value()))
    {
      registers := registers.(pc := 0, sp := 0, a := 0, x := 0, y := 0, flags := 0);
      memory.memory := seq(MEMORY_SIZE, _ => 0);
    }

    // ------------------------------------------------------------ flag setters

    /** `setCarryFlag` (src/cpu.rs:75-82) */
    method SetCarryFlag(val: bv8)
      modifies this`registers
      ensures registers == old(registers).(flags := SetCarry(old(registers.flags), val))
    {
      registers := registers.(flags := SetCarry(registers.flags, val));
    }

    /** `setZeroFlag` (src/cpu.rs:84-91) */
    method SetZeroFlag(val: bv8)
      modifies this`registers
      ensures registers == old(registers).(flags := SetZero(old(registers.flags), val))
    {
      registers := registers.(flags := SetZero(registers.flags, val));
    }

    /** `setInterruptDisable` (src/cpu.rs:93-95) */
    method SetInterruptDisableFlag()
      modifies this`registers
      ensures registers == old(registers).(flags := SetInterruptDisable(old(registers.flags)))
    {
      registers := registers.(flags := SetInterruptDisable(registers.flags));
    }

    /** `setDecimalModeFlag` (src/cpu.rs:97-99) */
    method SetDecimalModeFlag()
      modifies this`registers
      ensures registers == old(registers).(flags := SetDecimalMode(old(registers.flags)))
    {
      registers := registers.(flags := SetDecimalMode(registers.flags));
    }

    /** `setBreakCommand` (src/cpu.rs:101-103) */
    method SetBreakCommandFlag()
      modifies this`registers
      ensures registers == old(registers).(flags := SetBreakCommand(old(registers.flags)))
    {
      registers := registers.(flags := SetBreakCommand(registers.flags));
    }

    /** `setOverflowFlag` (src/cpu.rs:105-107) */
    method SetOverflowFlag(f: bool)
      modifies this`registers
      ensures registers == old(registers).(flags := SetOverflow(old(registers.flags), f))
    {
      registers := registers.(flags := SetOverflow(registers.flags, f));
    }

    /** `setNegativeFlag` (src/cpu.rs:109-115) */
    method SetNegativeFlag(val: bv8)
      modifies this`registers
      ensures registers == old(registers).(flags := SetNegative(old(registers.flags), val))
    {
      registers := registers.(flags := SetNegative(registers.flags, val));
    }

    // ------------------------------------------------------------ fetch

    /** `readByte` (src/cpu.rs:326-330) */
    method ReadByte() returns (r: Result<bv8>)
      modifies this`registers
      ensures Gave(r, Semantics.ReadByte(old(Value())), Value())
    {
      var pc := registers.pc;
      if pc as int >= |program| {
        return Err(ProgramIndex(pc as int));
      }
      var b := program[pc];
      if pc == 0xFFFF {
        return Err(ArithmeticOverflow);
      }
      registers := registers.(pc := Next(pc));
      return Ok(b);
    }

    /** `readShort` (src/cpu.rs:332-337); the second index, `PC + 1`, is
        only reached once that sum is known not to overflow. */
    method ReadShort() returns (r: Result<bv16>)
      modifies this`registers
      ensures Gave(r, Semantics.ReadShort(old(Value())), Value())
    {
      var pc := registers.pc;
      if pc as int >= |program| {
        return Err(ProgramIndex(pc as int));
      }
      var low := program[pc];
      if pc == 0xFFFF {
        return Err(ArithmeticOverflow);
      }
      if pc as int + 1 >= |program| {
        return Err(ProgramIndex(pc as int + 1));
      }
      var high := program[pc as int + 1];
      if pc == 0xFFFE {
        return Err(ArithmeticOverflow);
      }
      ghost var before := Value();
      registers := registers.(pc := NextTwo(pc));
      assert Semantics.ReadShort(before) == Ok((Word(low, high), Value()));
      return Ok(Word(low, high));
    }

    // ------------------------------------------------------------ memory

    /** `memoryReadByte` through the CPU, with its out-of-range panic as a
        fault. */
    method LoadByte(address: bv16) returns (r: Result<bv8>)
      ensures r == Semantics.LoadByte(Value(), address)
    {
      if address as int >= |memory.memory| {
        return Err(MemoryIndex(address as int));
      }
      var b := memory.ReadByte(address);
      return Ok(b);
    }

    /** `memoryReadShort` through the CPU. */
    method LoadShort(address: bv16) returns (r: Result<bv16>)
      ensures r == Semantics.LoadShort(Value(), address)
    {
      if address as int >= |memory.memory| {
        return Err(MemoryIndex(address as int));
      }
      if address as int == 0xFFFF {
        return Err(ArithmeticOverflow);
      }
      if address as int + 1 >= |memory.memory| {
        return Err(MemoryIndex(address as int + 1));
      }
      var w := memory.ReadShort(address);
      return Ok(w);
    }

    /** `memoryWriteByte` through the CPU. */
    method StoreByte(address: bv16, val: bv8) returns (r: Result<()>)
      modifies memory
      ensures Did(r, Semantics.StoreByte(old(Value()), address, val), Value())
    {
      if address as int >= |memory.memory| {
        return Err(MemoryIndex(address as int));
      }
      memory.WriteByte(address, val);
      return Ok(());
    }

    // ------------------------------------------------------------ stack helpers

    /** `stackPushByte` (src/cpu.rs:338-343) */
    method StackPushByte(value: bv8) returns (r: Result<()>)
      modifies this`registers, memory
      ensures Did(r, Semantics.StackPushByte(old(Value()), value), Value())
    {
      var stored :- StoreByte(StackSlot(registers.sp), value);
      registers := registers.(sp := WrappingInc(registers.sp));
      return Ok(());
    }

    /** `stackPushShort` (src/cpu.rs:345-350) */
    method StackPushShort(value: bv16) returns (r: Result<()>)
      modifies this`registers, memory
      ensures Did(r, Semantics.StackPushShort(old(Value()), value), Value())
    {
      var hi := High(value);
      var low := Low(value);
      var pushed :- StackPushByte(hi);
      r := StackPushByte(low);
    }

    /** `stackPopByte` (src/cpu.rs:352-359) */
    method StackPopByte() returns (r: Result<bv8>)
      modifies this`registers
      ensures Gave(r, Semantics.StackPopByte(old(Value())), Value())
    {
      var val :- LoadByte(StackSlot(registers.sp));
      registers := registers.(sp := WrappingDec(registers.sp));
      return Ok(val);
    }

    /** `stackPopShort` (src/cpu.rs:361-366) */
    method StackPopShort() returns (r: Result<bv16>)
      modifies this`registers
      ensures Gave(r, Semantics.StackPopShort(old(Value())), Value())
    {
      var l :- StackPopByte();
      var h :- StackPopByte();
      return Ok(Word(l, h));
    }

    // ------------------------------------------------------------ addressing

    /** `modeHandler` (src/cpu.rs:368-387) */
    method ModeHandler(mode: Mode) returns (r: Result<bv16>)
      modifies this`registers
      ensures Gave(r, Semantics.ModeHandler(old(Value()), mode), Value())
    {
      match mode
      case Implicit => return Ok(0);
      case Accumulator => return Ok(0);
      case ZeroPage => r := ZeroPageHandler();
      case ZeroPageX => r := ZeroPageXHandler();
      case ZeroPageY => r := ZeroPageYHandler();
      case Relative => r := RelativeHandler();
      case Absolute => r := AbsoluteHandler();
      case AbsoluteX => r := AbsoluteXHandler();
      case AbsoluteY => r := AbsoluteYHandler();
      case Indirect => r := IndirectHandler();
      case IndirectX => r := IndirectXHandler();
      case IndirectY => r := IndirectYHandler();
      case Immediate => return Ok(0xFF);
    }

    /** `ImmediateHandler` (src/cpu.rs:389-391) */
    method ImmediateHandler() returns (r: Result<bv8>)
      modifies this`registers
      ensures Gave(r, Semantics.ImmediateHandler(old(Value())), Value())
    {
      r := ReadByte();
    }

    /** `ZeroPageHandler` (src/cpu.rs:393-396) */
    method ZeroPageHandler() returns (r: Result<bv16>)
      modifies this`registers
      ensures Gave(r, Semantics.ZeroPageHandler(old(Value())), Value())
    {
      var next :- ReadByte();
      return Ok(next as bv16);
    }

    /** `ZeroPageXHandler` (src/cpu.rs:397-400) */
    method ZeroPageXHandler() returns (r: Result<bv16>)
      modifies this`registers
      ensures Gave(r, Semantics.ZeroPageXHandler(old(Value())), Value())
    {
      var next :- ReadByte();
      return Ok(ZeroPageIndexed(next, registers.x));
    }

    /** `ZeroPageYHandler` (src/cpu.rs:401-404) */
    method ZeroPageYHandler() returns (r: Result<bv16>)
      modifies this`registers
      ensures Gave(r, Semantics.ZeroPageYHandler(old(Value())), Value())
    {
      var next :- ReadByte();
      return Ok(ZeroPageIndexed(next, registers.y));
    }

    /** `RelativeHandler` (src/cpu.rs:405-407) */
    method RelativeHandler() returns (r: Result<bv16>)
      modifies this`registers
      ensures Gave(r, Semantics.RelativeHandler(old(Value())), Value())
    {
      var next :- ReadByte();
      return Ok(next as bv16);
    }

    /** `AbsoluteHandler` (src/cpu.rs:408-411) */
    method AbsoluteHandler() returns (r: Result<bv16>)
      modifies this`registers
      ensures Gave(r, Semantics.AbsoluteHandler(old(Value())), Value())
    {
      r := ReadShort();
    }

    /** `AbsoluteXHandler` (src/cpu.rs:413-419) */
    method AbsoluteXHandler() returns (r: Result<bv16>)
      modifies this`registers
      ensures Gave(r, Semantics.AbsoluteXHandler(old(Value())), Value())
    {
      var next :- ReadShort();
      return Ok(AbsoluteIndexed(next, registers.x));
    }

    /** `AbsoluteYHandler` (src/cpu.rs:420-425) */
    method AbsoluteYHandler() returns (r: Result<bv16>)
      modifies this`registers
      ensures Gave(r, Semantics.AbsoluteYHandler(old(Value())), Value())
    {
      var next :- ReadShort();
      return Ok(AbsoluteIndexed(next, registers.y));
    }

    /** `IndirectHandler` (src/cpu.rs:426-430) */
    method IndirectHandler() returns (r: Result<bv16>)
      modifies this`registers
      ensures Gave(r, Semantics.IndirectHandler(old(Value())), Value())
    {
      var next :- ReadShort();
      r := LoadShort(next);
    }

    /** `IndirectXHandler` (src/cpu.rs:431-438) */
    method IndirectXHandler() returns (r: Result<bv16>)
      modifies this`registers
      ensures Gave(r, Semantics.IndirectXHandler(old(Value())), Value())
    {
      var next :- ReadByte();
      r := LoadShort(ZeroPagePointer(next, registers.x));
    }

    /** `IndirectYHandler` (src/cpu.rs:439-445) */
    method IndirectYHandler() returns (r: Result<bv16>)
      modifies this`registers
      ensures Gave(r, Semantics.IndirectYHandler(old(Value())), Value())
    {
      ghost var before := Value();
      var index :- ReadByte();
      var memVal :- LoadShort(index as bv16);
      assert Semantics.IndirectYHandler(before) == Ok((PostIndexed(memVal, registers.y), Value()));
      return Ok(PostIndexed(memVal, registers.y));
    }

    /** The operand fetch the value-reading handlers open with: the mode's
        address, then the immediate byte or the memory byte there. */
    method Operand(mode: Mode) returns (r: Result<bv8>)
      modifies this`registers
      ensures Gave(r, Semantics.Operand(old(Value()), mode), Value())
    {
      var address :- ModeHandler(mode);
      if mode == Immediate {
        r := ImmediateHandler();
      } else {
        r := LoadByte(address);
      }
    }

    // ------------------------------------------------------------ handlers

    /** LDA, LDX, LDY (src/cpu.rs:447-471) */
    method Load(mode: Mode, reg: Register) returns (r: Result<()>)
      modifies this`registers
      ensures Did(r, Semantics.Load(old(Value()), mode, reg), Value())
    {
      var val :- Operand(mode);
      registers := Put(registers, reg, val);
      SetZeroFlag(val);
      SetNegativeFlag(val);
      return Ok(());
    }

    /** STA, STX, STY (src/cpu.rs:472-483) */
    method Store(mode: Mode, reg: Register) returns (r: Result<()>)
      modifies this`registers, memory
      ensures Did(r, Semantics.Store(old(Value()), mode, reg), Value())
    {
      var address :- ModeHandler(mode);
      r := StoreByte(address, Get(registers, reg));
    }

    /** TAX, TAY, TXA, TYA, TSX (src/cpu.rs:484-508) */
    method Transfer(value: bv8, reg: Register)
      modifies this`registers
      ensures Value() == Semantics.Transfer(old(Value()), value, reg)
    {
      registers := Put(registers, reg, value);
      SetZeroFlag(value);
      SetNegativeFlag(value);
    }

    /** TXS (src/cpu.rs:509-511) */
    method TransferToStack()
      modifies this`registers
      ensures Value() == Semantics.TransferToStack(old(Value()))
    {
      registers := registers.(sp := registers.x);
    }

    /** PHA and PHP (src/cpu.rs:515-528) */
    method Push(value: bv8) returns (r: Result<()>)
      modifies this`registers, memory
      ensures Did(r, Semantics.Push(old(Value()), value), Value())
    {
      var absoluteAddress := PageOneSlot(registers.sp);
      var stored :- StoreByte(absoluteAddress, value);
      registers := registers.(sp := WrappingDec(registers.sp));
      return Ok(());
    }

    /** PLA (src/cpu.rs:530-537) */
    method PullAccumulator() returns (r: Result<()>)
      modifies this`registers
      ensures Did(r, Semantics.PullAccumulator(old(Value())), Value())
    {
      var absoluteAddress := PageOneSlot(registers.sp);
      var val :- LoadByte(absoluteAddress);
      registers := registers.(a := val);
      registers := registers.(sp := WrappingInc(registers.sp));
      SetZeroFlag(registers.a);
      SetNegativeFlag(registers.a);
      return Ok(());
    }

    /** PLP (src/cpu.rs:538-542) */
    method PullFlags() returns (r: Result<()>)
      modifies this`registers
      ensures Did(r, Semantics.PullFlags(old(Value())), Value())
    {
      var absoluteAddress := PageOneSlot(registers.sp);
      var val :- LoadByte(absoluteAddress);
      registers := registers.(flags := val);
      registers := registers.(sp := WrappingInc(registers.sp));
      return Ok(());
    }

    /** AND, EOR, ORA (src/cpu.rs:544-569) */
    method Logic(mode: Mode, op: LogicOp) returns (r: Result<()>)
      modifies this`registers
      ensures Did(r, Semantics.Logic(old(Value()), mode, op), Value())
    {
      var val :- Operand(mode);
      registers := registers.(a := Combine(op, registers.a, val));
      SetZeroFlag(registers.a);
      SetNegativeFlag(registers.a);
      return Ok(());
    }

    /** BIT (src/cpu.rs:571-589) */
    method Bit(mode: Mode) returns (r: Result<()>)
      modifies this`registers
      ensures Did(r, Semantics.Bit(old(Value()), mode), Value())
    {
      var address :- ModeHandler(mode);
      var memVal :- LoadByte(address);
      registers := registers.(flags := BitTest(registers.a, memVal, registers.flags));
      return Ok(());
    }

    /** ADC (src/cpu.rs:591-613) */
    method Adc(mode: Mode) returns (r: Result<()>)
      modifies this`registers
      ensures Did(r, Semantics.Adc(old(Value()), mode), Value())
    {
      var val :- Operand(mode);
      var (result, flags) := AddWithCarry(registers.a, val, registers.flags);
      registers := registers.(a := result, flags := flags);
      return Ok(());
    }

    /** SBC (src/cpu.rs:615-639) */
    method Sbc(mode: Mode) returns (r: Result<()>)
      modifies this`registers
      ensures Did(r, Semantics.Sbc(old(Value()), mode), Value())
    {
      var val :- Operand(mode);
      var (result, flags) := SubtractWithCarry(registers.a, val, registers.flags);
      registers := registers.(a := result, flags := flags);
      return Ok(());
    }

    /** `compare`, called by CMP, CPX, CPY (src/cpu.rs:640-658) */
    method Compare(mode: Mode, reg: Register) returns (r: Result<()>)
      modifies this`registers
      ensures Did(r, Semantics.Compare(old(Value()), mode, reg), Value())
    {
      var value := Get(registers, reg);
      var val :- Operand(mode);
      r := CompareWith(value, val);
    }

    /** The subtraction and flag updates of `compare`. */
    method CompareWith(value: bv8, val: bv8) returns (r: Result<()>)
      modifies this`registers
      ensures Did(r, Semantics.CompareWith(old(Value()), value, val), Value())
    {
      if value < val {
        return Err(ArithmeticOverflow);
      }
      registers := registers.(flags := CompareFlags(registers.flags, value, val));
      return Ok(());
    }

    /** INC and DEC (src/cpu.rs:659-667, 678-686) */
    method Adjust(mode: Mode, increment: bool) returns (r: Result<()>)
      modifies this`registers, memory
      ensures Did(r, Semantics.Adjust(old(Value()), mode, increment), Value())
    {
      var address :- ModeHandler(mode);
      var val: bv8;
      if mode == Immediate {
        val :- ImmediateHandler();
      } else {
        val :- LoadByte(address);
      }
      var result := if increment then WrappingInc(val) else WrappingDec(val);
      var stored :- StoreByte(address, result);
      SetZeroFlag(result);
      SetNegativeFlag(result);
      return Ok(());
    }

    /** INX, INY, DEX, DEY (src/cpu.rs:668-677, 687-696): the new value is
        computed and dropped. */
    method CountRegister(reg: Register)
      modifies this`registers
      ensures Value() == Semantics.CountRegister(old(Value()), reg)
    {
      SetZeroFlag(Get(registers, reg));
      SetNegativeFlag(Get(registers, reg));
    }

    /** ASL, LSR, ROL, ROR (src/cpu.rs:697-775) */
    method Shift(mode: Mode, op: ShiftOp) returns (r: Result<()>)
      modifies this`registers, memory
      ensures Did(r, Semantics.Shift(old(Value()), mode, op), Value())
    {
      var address :- ModeHandler(mode);
      if mode == Accumulator {
        ShiftAccumulator(op);
        return Ok(());
      }
      r := ShiftMemory(address, op);
    }

    /** The Accumulator arm of ASL, LSR, ROL and ROR. */
    method ShiftAccumulator(op: ShiftOp)
      modifies this`registers
      ensures Value() == Semantics.ShiftAccumulator(old(Value()), op)
    {
      var result := ShiftInPlace(op, registers.a);
      registers := registers.(a := result);
      SetZeroFlag(result);
      SetNegativeFlag(result);
    }

    /** The memory arm of ASL, LSR, ROL and ROR. */
    method ShiftMemory(address: bv16, op: ShiftOp) returns (r: Result<()>)
      modifies this`registers, memory
      ensures Did(r, Semantics.ShiftMemory(old(Value()), address, op), Value())
    {
      var val :- LoadByte(address);
      var result := ShiftInPlace(op, val);
      // the load succeeded, so the address is in range for the store
      memory.WriteByte(address, result);
      SetZeroFlag(result);
      SetNegativeFlag(result);
      return Ok(());
    }

    /** The shift or rotation itself and its Carry update. */
    method ShiftInPlace(op: ShiftOp, val: bv8) returns (result: bv8)
      modifies this`registers
      ensures (result, registers.flags) == ShiftBy(op, val, old(registers.flags))
      ensures registers == old(registers).(flags := registers.flags)
    {
      var shifted := ShiftBy(op, val, registers.flags);
      result := shifted.0;
      registers := registers.(flags := shifted.1);
    }

    /** JMP (src/cpu.rs:776-780) */
    method Jmp(mode: Mode) returns (r: Result<()>)
      modifies this`registers
      ensures Did(r, Semantics.Jmp(old(Value()), mode), Value())
    {
      var address :- ModeHandler(mode);
      registers := registers.(pc := address);
      return Ok(());
    }

    /** JSR (src/cpu.rs:783-795) */
    method Jsr(mode: Mode) returns (r: Result<()>)
      modifies this`registers, memory
      ensures Did(r, Semantics.Jsr(old(Value()), mode), Value())
    {
      var address :- ModeHandler(mode);
      if registers.pc == 0 {
        return Err(ArithmeticOverflow);
      }
      var pushed :- StackPushShort(Previous(registers.pc));
      registers := registers.(pc := address);
      return Ok(());
    }

    /** `branch` (src/cpu.rs:796-798) */
    method BranchTo(condition: bool, offset: bv16)
      modifies this`registers
      ensures registers == if condition then old(registers).(pc := BranchTarget(old(registers.pc), offset)) else old(registers)
    {
      if condition {
        registers := registers.(pc := BranchTarget(registers.pc, offset));
      }
    }

    /** BCC, BCS, BNE, BEQ, BPL, BMI, BVC, BVS (src/cpu.rs:802-841) */
    method Branch(mode: Mode, mask: bv8, expected: bv8) returns (r: Result<()>)
      modifies this`registers
      ensures Did(r, Semantics.Branch(old(Value()), mode, mask, expected), Value())
    {
      var offset :- ModeHandler(mode);
      var condition := BranchTaken(registers.flags, mask, expected);
      BranchTo(condition, offset);
      return Ok(());
    }

    /** RTS (src/cpu.rs:799-801) */
    method Rts() returns (r: Result<()>)
      modifies this`registers
      ensures Did(r, Semantics.Rts(old(Value())), Value())
    {
      var popped :- StackPopShort();
      if popped == 0 {
        return Err(ArithmeticOverflow);
      }
      registers := registers.(pc := Previous(popped));
      return Ok(());
    }

    /** RTI (src/cpu.rs:872-875) */
    method Rti() returns (r: Result<()>)
      modifies this`registers
      ensures Did(r, Semantics.Rti(old(Value())), Value())
    {
      var flags :- StackPopByte();
      registers := registers.(flags := flags);
      var pc :- StackPopShort();
      registers := registers.(pc := pc);
      return Ok(());
    }

    // ------------------------------------------------------------ dispatch

    /** `executeInstruction` (src/cpu.rs:877-939) */
    method ExecuteInstruction(inst: Instruction) returns (r: Result<()>)
      modifies this`registers, memory
      ensures Did(r, Semantics.Execute(old(Value()), inst), Value())
    {
      r := Ok(());
      var mode := inst.mode;
      match inst.mnemonic
      case LDA => r := Load(mode, A);
      case LDX => r := Load(mode, X);
      case LDY => r := Load(mode, Y);
      case STA => r := Store(mode, A);
      case STX => r := Store(mode, X);
      case STY => r := Store(mode, Y);
      case TAX => Transfer(registers.a, X);
      case TAY => Transfer(registers.a, Y);
      case TXA => Transfer(registers.x, A);
      case TYA => Transfer(registers.y, A);
      case TSX => Transfer(registers.sp, X);
      case TXS => TransferToStack();
      case PHA => r := Push(registers.a);
      case PHP => r := Push(registers.flags);
      case PLA => r := PullAccumulator();
      case PLP => r := PullFlags();
      case AND => r := Logic(mode, And);
      case EOR => r := Logic(mode, Eor);
      case ORA => r := Logic(mode, Ora);
      case BIT => r := Bit(mode);
      case ADC => r := Adc(mode);
      case SBC => r := Sbc(mode);
      case CMP => r := Compare(mode, A);
      case CPX => r := Compare(mode, X);
      case CPY => r := Compare(mode, Y);
      case INC => r := Adjust(mode, true);
      case INX => CountRegister(X);
      case INY => CountRegister(Y);
      case DEC => r := Adjust(mode, false);
      case DEX => CountRegister(X);
      case DEY => CountRegister(Y);
      case ASL => r := Shift(mode, Asl);
      case LSR => r := Shift(mode, Lsr);
      case ROL => r := Shift(mode, Rol);
      case ROR => r := Shift(mode, Ror);
      case JMP => r := Jmp(mode);
      case JSR => r := Jsr(mode);
      case RTS => r := Rts();
      case BCC => r := Branch(mode, 0x01, 0);
      case BCS => r := Branch(mode, 0x01, 1);
      case BEQ => r := Branch(mode, 0x02, 1);
      case BMI => r := Branch(mode, 0x40, 1);
      case BNE => r := Branch(mode, 0x02, 0);
      case BPL => r := Branch(mode, 0x40, 0);
      case BVC => r := Branch(mode, 0x20, 0);
      case BVS => r := Branch(mode, 0x20, 1);
      case CLC =>
      case CLD =>
      case CLI =>
      case CLV =>
      case SEC =>
      case SED =>
      case SEI =>
      case BRK =>
      case NOP =>
      case RTI => r := Rti();
    }

    /** `fetchAndDecodeInstruction` (src/cpu.rs:117-325) */
    method FetchAndDecodeInstruction() returns (r: Result<Instruction>)
      modifies this`registers
      ensures Gave(r, Semantics.FetchAndDecode(old(Value())), Value())
    {
      var opcode :- ReadByte();
      match Decode(opcode)
      case None => return Err(IllegalInstruction(opcode));
      case Some(inst) => return Ok(inst);
    }

    /** One turn of the `run` loop. */
    method Step() returns (r: Result<()>)
      modifies this`registers, memory
      ensures Did(r, Semantics.Step(old(Value())), Value())
    {
      var inst :- FetchAndDecodeInstruction();
      r := ExecuteInstruction(inst);
    }

    /** `run` (src/cpu.rs:941-946), cut off after `fuel` instructions or at
        the first fault. */
    method Run(fuel: nat) returns (r: Result<()>)
      modifies this`registers, memory
      ensures Did(r, Semantics.Run(old(Value()), fuel), Value())
    {
      ghost var start := Value();
      var remaining := fuel;
      while remaining > 0
        invariant Semantics.Run(start, fuel) == Semantics.Run(Value(), remaining)
      {
        var stepped := Turn(start, fuel, remaining);
        if stepped.Err? {
          return stepped;
        }
        remaining := remaining - 1;
      }
      return Ok(());
    }

    /** One turn of the loop of `Run`, with `remaining` turns left of a run
        of `fuel` turns from `start`. */
    method Turn(ghost start: State, ghost fuel: nat, ghost remaining: nat) returns (r: Result<()>)
      requires remaining > 0 && Semantics.Run(start, fuel) == Semantics.Run(Value(), remaining)
      modifies this`registers, memory
      ensures r.Ok? ==> Semantics.Run(start, fuel) == Semantics.Run(Value(), remaining - 1)
      ensures r.Err? ==> Semantics.Run(start, fuel) == Err(r.fault)
    {
      ghost var current := Value();
      r := Step();
      if r.Err? {
        Semantics.RunFault(current, remaining);
        return;
      }
      assert Semantics.Step(current) == Ok(Value());
      Semantics.RunStep(current, Value(), remaining);
    }
  }
}
