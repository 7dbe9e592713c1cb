/**
  * Single instructions on concrete machines, in the shape of the source's
  * instruction tests (src/cpuTests.rs:51-117): a fresh CPU whose registers
  * are loaded and whose data memory holds a few little-endian words, one
  * fetch and one execute, and the machine that results. The last lemmas
  * run two-instruction programs and show what the stack routines, as
  * written, do to them.
  */
module Scenarios {
  import opened Bytes
  import opened Flags
  import opened Instructions
  import opened Storage
  import opened Semantics
  import opened Properties

  /** The zeroed data memory of a fresh CPU. */
  function Zeroed(): (m: seq<bv8>)
    ensures |m| == MEMORY_SIZE
    ensures forall i :: 0 <= i < MEMORY_SIZE ==> m[i] == 0
  {
    seq(MEMORY_SIZE, _ => 0)
  }

  /** The zeroed data memory with the word `value` written at `address`, as
      the tests' `memoryWriteShort` set-up does. */
  function Written(address: int, value: bv16): (m: seq<bv8>)
    requires 0 <= address < MEMORY_SIZE - 1
    ensures |m| == MEMORY_SIZE
    ensures ShortAt(m, address) == value
  {
    ShortRoundTrip(Zeroed(), address, value);
    WithShort(Zeroed(), address, value)
  }

  /** The dispatch of `executeInstruction` for JSR and BCC. */
  lemma JsrDispatch(s: State, mode: Mode)
    ensures Execute(s, Instruction(JSR, mode)) == Jsr(s, mode)
  {
  }

  lemma BccDispatch(s: State, mode: Mode)
    ensures Execute(s, Instruction(BCC, mode)) == Branch(s, mode, 0x01, 0)
  {
  }

  // ---------------------------------------------------------------- loads and transfers

  /** LDA #$aa (testLda, first case): A is 0xaa, Negative is set, PC is 2. */
  lemma LdaImmediateExample()
    ensures Step(State(ZERO_REGISTERS, [0xA9, 0xAA], Zeroed()))
      == Ok(State(Registers(2, 0, 0xAA, 0, 0, 0x40), [0xA9, 0xAA], Zeroed()))
  {
    var s := State(ZERO_REGISTERS, [0xA9, 0xAA], Zeroed());
    var s1 := s.(registers := s.registers.(pc := 1));
    assert ReadByte(s) == Ok((0xA9, s1));
    DecodeLdaImmediate();
    StepDecoded(s, Instruction(LDA, Immediate));
    var s2 := s.(registers := s.registers.(pc := 2));
    assert Operand(s1, Immediate) == Ok((0xAA, s2));
  }

  /** LDA $15 with the word 0x44 at 0x15 (testLda, second case): A is 0x44,
      no flag is set and PC is 2. */
  lemma LdaZeroPageExample()
    ensures Step(State(ZERO_REGISTERS, [0xA5, 0x15], Written(0x15, 0x44)))
      == Ok(State(Registers(2, 0, 0x44, 0, 0, 0), [0xA5, 0x15], Written(0x15, 0x44)))
  {
    var m := Written(0x15, 0x44);
    var s := State(ZERO_REGISTERS, [0xA5, 0x15], m);
    var s1 := s.(registers := s.registers.(pc := 1));
    assert ReadByte(s) == Ok((0xA5, s1));
    assert Decode(0xA5) == Some(Instruction(LDA, ZeroPage));
    StepDecoded(s, Instruction(LDA, ZeroPage));
    var s2 := s.(registers := s.registers.(pc := 2));
    assert ModeHandler(s1, ZeroPage) == Ok((0x15, s2));
    ShortAtValue(m, 0x15);
    assert m[0x15] == 0x44;
    assert Operand(s1, ZeroPage) == Ok((0x44, s2));
  }

  /** TAX with A = 0x50 (testTax): X is 0x50, PC is 1. */
  lemma TaxExample()
    ensures Step(State(Registers(0, 0, 0x50, 0, 0, 0), [0xAA], Zeroed()))
      == Ok(State(Registers(1, 0, 0x50, 0x50, 0, 0), [0xAA], Zeroed()))
  {
    var s := State(Registers(0, 0, 0x50, 0, 0, 0), [0xAA], Zeroed());
    var s1 := s.(registers := s.registers.(pc := 1));
    assert ReadByte(s) == Ok((0xAA, s1));
    assert Decode(0xAA) == Some(Instruction(TAX, Implicit));
    StepDecoded(s, Instruction(TAX, Implicit));
  }

  // ---------------------------------------------------------------- stack

  /** PHA with SP = 0x10 and A = 0x50 (testPHA): 0x50 is at 0x0110, SP is
      0x0f, PC is 1. */
  lemma PhaExample()
    ensures Step(State(Registers(0, 0x10, 0x50, 0, 0, 0), [0x48], Zeroed()))
      == Ok(State(Registers(1, 0x0F, 0x50, 0, 0, 0), [0x48], Zeroed()[0x110 := 0x50]))
  {
    var s := State(Registers(0, 0x10, 0x50, 0, 0, 0), [0x48], Zeroed());
    var s1 := s.(registers := s.registers.(pc := 1));
    assert ReadByte(s) == Ok((0x48, s1));
    assert Decode(0x48) == Some(Instruction(PHA, Implicit));
    StepDecoded(s, Instruction(PHA, Implicit));
    assert PageOneSlot(0x10) == 0x110;
  }

  /** PLA with SP = 0x11 and the word 0x50 at 0x0111 (testPLA): A is 0x50,
      SP is 0x12, PC is 1. */
  lemma PlaExample()
    ensures Step(State(Registers(0, 0x11, 0, 0, 0, 0), [0x68], Written(0x111, 0x50)))
      == Ok(State(Registers(1, 0x12, 0x50, 0, 0, 0), [0x68], Written(0x111, 0x50)))
  {
    var m := Written(0x111, 0x50);
    var s := State(Registers(0, 0x11, 0, 0, 0, 0), [0x68], m);
    var s1 := s.(registers := s.registers.(pc := 1));
    assert ReadByte(s) == Ok((0x68, s1));
    assert Decode(0x68) == Some(Instruction(PLA, Implicit));
    StepDecoded(s, Instruction(PLA, Implicit));
    assert PageOneSlot(0x11) == 0x111;
    ShortAtValue(m, 0x111);
    assert m[0x111] == 0x50;
    assert Pull(s1) == Ok((0x50, s1.(registers := s1.registers.(sp := 0x12))));
  }

  // ---------------------------------------------------------------- logic and arithmetic

  /** AND #$06 with A = 0x0f (testAND): A is 0x06, PC is 2. */
  lemma AndExample()
    ensures Step(State(Registers(0, 0, 0x0F, 0, 0, 0), [0x29, 0x06], Zeroed()))
      == Ok(State(Registers(2, 0, 0x06, 0, 0, 0), [0x29, 0x06], Zeroed()))
  {
    var s := State(Registers(0, 0, 0x0F, 0, 0, 0), [0x29, 0x06], Zeroed());
    var s1 := s.(registers := s.registers.(pc := 1));
    assert ReadByte(s) == Ok((0x29, s1));
    assert Decode(0x29) == Some(Instruction(AND, Immediate));
    StepDecoded(s, Instruction(AND, Immediate));
    var s2 := s.(registers := s.registers.(pc := 2));
    assert Operand(s1, Immediate) == Ok((0x06, s2));
  }

  /** BIT $20 with A = 0x60 and the word 0x60 at 0x20 (testBIT): bits 5 and
      6 of the operand become Overflow and Negative, Zero stays clear. */
  lemma BitExample()
    ensures Step(State(Registers(0, 0, 0x60, 0, 0, 0), [0x24, 0x20], Written(0x20, 0x60)))
      == Ok(State(Registers(2, 0, 0x60, 0, 0, 0x60), [0x24, 0x20], Written(0x20, 0x60)))
  {
    var m := Written(0x20, 0x60);
    var s := State(Registers(0, 0, 0x60, 0, 0, 0), [0x24, 0x20], m);
    var s1 := s.(registers := s.registers.(pc := 1));
    assert ReadByte(s) == Ok((0x24, s1));
    assert Decode(0x24) == Some(Instruction(BIT, ZeroPage));
    StepDecoded(s, Instruction(BIT, ZeroPage));
    var s2 := s.(registers := s.registers.(pc := 2));
    assert ModeHandler(s1, ZeroPage) == Ok((0x20, s2));
    ShortAtValue(m, 0x20);
    assert m[0x20] == 0x60;
    assert BitTest(0x60, 0x60, 0) == 0x60;
  }

  /** ADC $20 with A = `a` and the word `val` at 0x20, as in the three cases
      of testADC. */
  lemma AdcZeroPage(a: bv8, val: bv8, result: bv8, flags: bv8)
    requires AddWithCarry(a, val, 0) == (result, flags)
    ensures Step(State(Registers(0, 0, a, 0, 0, 0), [0x65, 0x20], Written(0x20, val as bv16)))
      == Ok(State(Registers(2, 0, result, 0, 0, flags), [0x65, 0x20], Written(0x20, val as bv16)))
  {
    var m := Written(0x20, val as bv16);
    var s := State(Registers(0, 0, a, 0, 0, 0), [0x65, 0x20], m);
    var s1 := s.(registers := s.registers.(pc := 1));
    assert ReadByte(s) == Ok((0x65, s1));
    assert Decode(0x65) == Some(Instruction(ADC, ZeroPage));
    StepDecoded(s, Instruction(ADC, ZeroPage));
    var s2 := s.(registers := s.registers.(pc := 2));
    assert ModeHandler(s1, ZeroPage) == Ok((0x20, s2));
    assert ShortAt(m, 0x20) == val as bv16;
    WordJoin(m[0x20], m[0x21]);
    assert m[0x20] == Low(val as bv16);
    LowOfByte(val);
    assert Operand(s1, ZeroPage) == Ok((val, s2));
  }

  /** 0x0f + 1 = 0x10, no flag. 0x7f + 1 = 0x80 with Overflow (Negative is
      not touched by ADC). 0xff + 0x80 = 0x7f with Carry and Overflow. */
  lemma AdcExamples()
    ensures AddWithCarry(0x0F, 0x01, 0) == (0x10, 0x00)
    ensures AddWithCarry(0x7F, 0x01, 0) == (0x80, 0x20)
    ensures AddWithCarry(0xFF, 0x80, 0) == (0x7F, 0x21)
  {
  }

  // ---------------------------------------------------------------- control flow

  /** JSR $1234 from PC 0 (testJSR): PC is 0x1234, SP is 2 and the word
      read at 0x00ff is 2, the address of JSR's last byte. */
  lemma JsrExample()
    ensures Step(State(ZERO_REGISTERS, [0x20, 0x34, 0x12], Written(0x1234, 1)))
      == Ok(State(Registers(0x1234, 2, 0, 0, 0, 0), [0x20, 0x34, 0x12], Written(0x1234, 1)[0x100 := 0][0xFF := 2]))
    ensures ShortAt(Written(0x1234, 1)[0x100 := 0][0xFF := 2], 0xFF) == 2
  {
    var m := Written(0x1234, 1);
    var s := State(ZERO_REGISTERS, [0x20, 0x34, 0x12], m);
    var s1 := s.(registers := s.registers.(pc := 1));
    assert ReadByte(s) == Ok((0x20, s1));
    assert Decode(0x20) == Some(Instruction(JSR, Absolute));
    StepDecoded(s, Instruction(JSR, Absolute));
    var s3 := s.(registers := s.registers.(pc := 3));
    assert ReadShort(s1) == Ok((0x1234, s3));
    assert Previous(3) == 2;
    assert StackSlot(0) == 0x100 && StackSlot(1) == 0xFF;
    var u := s3.(memory := m[0x100 := 0][0xFF := 2], registers := s3.registers.(sp := 2));
    assert StackPushShort(s3, 2) == Ok(u);
    assert Jsr(s1, Absolute) == Ok(u.(registers := u.registers.(pc := 0x1234)));
    JsrDispatch(s1, Absolute);
    assert ShortAt(u.memory, 0xFF) == Word(2, 0);
  }

  /** RTS with SP = 2 and the word 5 at 0x00fe (testRTS): the popped word is
      5, PC is 4 and SP is 0. */
  lemma RtsExample()
    ensures Step(State(Registers(0, 2, 0, 0, 0, 0), [0x60], Written(0xFE, 5)))
      == Ok(State(Registers(4, 0, 0, 0, 0, 0), [0x60], Written(0xFE, 5)))
  {
    var m := Written(0xFE, 5);
    var s := State(Registers(0, 2, 0, 0, 0, 0), [0x60], m);
    var s1 := s.(registers := s.registers.(pc := 1));
    assert ReadByte(s) == Ok((0x60, s1));
    assert Decode(0x60) == Some(Instruction(RTS, Implicit));
    StepDecoded(s, Instruction(RTS, Implicit));
    assert StackSlot(2) == 0xFE && StackSlot(1) == 0xFF;
    WordJoin(m[0xFE], m[0xFF]);
    assert m[0xFE] == 5 && m[0xFF] == 0;
    assert StackPopShort(s1) == Ok((5, s1.(registers := s1.registers.(sp := 0))));
  }

  /** BCC with the Carry clear and offset 0x10 (testBCC, second case): PC is
      2 + 0x10. */
  lemma BccForwardExample()
    ensures Step(State(ZERO_REGISTERS, [0x90, 0x10], Zeroed()))
      == Ok(State(Registers(0x12, 0, 0, 0, 0, 0), [0x90, 0x10], Zeroed()))
  {
    var s := State(ZERO_REGISTERS, [0x90, 0x10], Zeroed());
    var s1 := s.(registers := s.registers.(pc := 1));
    assert ReadByte(s) == Ok((0x90, s1));
    assert Decode(0x90) == Some(Instruction(BCC, Relative));
    StepDecoded(s, Instruction(BCC, Relative));
    var s2 := s.(registers := s.registers.(pc := 2));
    assert ModeHandler(s1, Relative) == Ok((0x10, s2));
    BccDispatch(s1, Relative);
  }

  /** BCC with the Carry clear and offset 0xfe, i.e. -2 (testBCC, first
      case): PC goes back to 0. */
  lemma BccBackwardExample()
    ensures Step(State(ZERO_REGISTERS, [0x90, 0xFE], Zeroed()))
      == Ok(State(ZERO_REGISTERS, [0x90, 0xFE], Zeroed()))
  {
    var s := State(ZERO_REGISTERS, [0x90, 0xFE], Zeroed());
    var s1 := s.(registers := s.registers.(pc := 1));
    assert ReadByte(s) == Ok((0x90, s1));
    assert Decode(0x90) == Some(Instruction(BCC, Relative));
    StepDecoded(s, Instruction(BCC, Relative));
    var s2 := s.(registers := s.registers.(pc := 2));
    assert ModeHandler(s1, Relative) == Ok((0xFE, s2));
    BccDispatch(s1, Relative);
  }

  /** NOP (testNOP): only PC moves, to 1. */
  lemma NopExample()
    ensures Step(State(ZERO_REGISTERS, [0xEA], Zeroed()))
      == Ok(State(Registers(1, 0, 0, 0, 0, 0), [0xEA], Zeroed()))
  {
    var s := State(ZERO_REGISTERS, [0xEA], Zeroed());
    var s1 := s.(registers := s.registers.(pc := 1));
    assert ReadByte(s) == Ok((0xEA, s1));
    assert Decode(0xEA) == Some(Instruction(NOP, Implicit));
    StepDecoded(s, Instruction(NOP, Implicit));
    NoEffect(s1, Instruction(NOP, Implicit));
  }

  // ---------------------------------------------------------------- two-instruction programs

  /** PHA at PC 0 of [PHA, PLA] with A = 5 and SP = 1: 5 goes to 0x0101 and
      SP becomes 0. */
  lemma PushStep()
    ensures Step(State(Registers(0, 1, 5, 0, 0, 0), [0x48, 0x68], Zeroed()))
      == Ok(State(Registers(1, 0, 5, 0, 0, 0), [0x48, 0x68], Zeroed()[0x101 := 5]))
  {
    var s := State(Registers(0, 1, 5, 0, 0, 0), [0x48, 0x68], Zeroed());
    var s1 := s.(registers := s.registers.(pc := 1));
    assert ReadByte(s) == Ok((0x48, s1));
    assert Decode(0x48) == Some(Instruction(PHA, Implicit));
    StepDecoded(s, Instruction(PHA, Implicit));
    assert PageOneSlot(1) == 0x101;
  }

  /** The PLA that follows reads 0x0100 | SP = 0x0100, not the slot PHA
      wrote: A becomes 0 (and Zero is set), SP is back to 1. */
  lemma PullStep()
    ensures Step(State(Registers(1, 0, 5, 0, 0, 0), [0x48, 0x68], Zeroed()[0x101 := 5]))
      == Ok(State(Registers(2, 1, 0, 0, 0, 0x02), [0x48, 0x68], Zeroed()[0x101 := 5]))
  {
    var m := Zeroed()[0x101 := 5];
    var s := State(Registers(1, 0, 5, 0, 0, 0), [0x48, 0x68], m);
    var s1 := s.(registers := s.registers.(pc := 2));
    assert ReadByte(s) == Ok((0x68, s1));
    assert Decode(0x68) == Some(Instruction(PLA, Implicit));
    StepDecoded(s, Instruction(PLA, Implicit));
    assert PageOneSlot(0) == 0x100;
    assert m[0x100] == 0;
    assert Pull(s1) == Ok((0, s1.(registers := s1.registers.(sp := 1))));
  }

  /** So PHA followed by PLA does not give A back: run from A = 5, the
      program [PHA, PLA] ends with A = 0. */
  lemma PushPullExample()
    ensures Run(State(Registers(0, 1, 5, 0, 0, 0), [0x48, 0x68], Zeroed()), 2)
      == Ok(State(Registers(2, 1, 0, 0, 0, 0x02), [0x48, 0x68], Zeroed()[0x101 := 5]))
  {
    var s0 := State(Registers(0, 1, 5, 0, 0, 0), [0x48, 0x68], Zeroed());
    var s1 := State(Registers(1, 0, 5, 0, 0, 0), [0x48, 0x68], Zeroed()[0x101 := 5]);
    var s2 := State(Registers(2, 1, 0, 0, 0, 0x02), [0x48, 0x68], Zeroed()[0x101 := 5]);
    PushStep();
    RunStep(s0, s1, 2);
    PullStep();
    RunStep(s1, s2, 1);
  }

  /** JSR $0003 at PC 0 of [JSR $0003, RTS]: the word 2 (PC - 1) is pushed
      high byte first, at 0x0100 and 0x00ff, SP becomes 2 and PC 3. */
  lemma CallStep()
    ensures Step(State(ZERO_REGISTERS, [0x20, 0x03, 0x00, 0x60], Zeroed()))
      == Ok(State(Registers(3, 2, 0, 0, 0, 0), [0x20, 0x03, 0x00, 0x60], Zeroed()[0x100 := 0][0xFF := 2]))
  {
    var s := State(ZERO_REGISTERS, [0x20, 0x03, 0x00, 0x60], Zeroed());
    var s1 := s.(registers := s.registers.(pc := 1));
    assert ReadByte(s) == Ok((0x20, s1));
    assert Decode(0x20) == Some(Instruction(JSR, Absolute));
    StepDecoded(s, Instruction(JSR, Absolute));
    var s3 := s.(registers := s.registers.(pc := 3));
    assert ReadShort(s1) == Ok((0x0003, s3));
    assert Previous(3) == 2;
    assert StackSlot(0) == 0x100 && StackSlot(1) == 0xFF;
    var u := s3.(memory := Zeroed()[0x100 := 0][0xFF := 2], registers := s3.registers.(sp := 2));
    assert StackPushShort(s3, 2) == Ok(u);
    assert Jsr(s1, Absolute) == Ok(u.(registers := u.registers.(pc := 3)));
    JsrDispatch(s1, Absolute);
  }

  /** The RTS at PC 3 pops its low byte from 0x0100 - 2 = 0x00fe and its
      high byte from 0x00ff, one slot below each byte JSR pushed: the word is
      0x0200 and PC becomes 0x01ff. */
  lemma ReturnStep()
    ensures Step(State(Registers(3, 2, 0, 0, 0, 0), [0x20, 0x03, 0x00, 0x60], Zeroed()[0x100 := 0][0xFF := 2]))
      == Ok(State(Registers(0x01FF, 0, 0, 0, 0, 0), [0x20, 0x03, 0x00, 0x60], Zeroed()[0x100 := 0][0xFF := 2]))
  {
    var m := Zeroed()[0x100 := 0][0xFF := 2];
    var s := State(Registers(3, 2, 0, 0, 0, 0), [0x20, 0x03, 0x00, 0x60], m);
    var s1 := s.(registers := s.registers.(pc := 4));
    assert ReadByte(s) == Ok((0x60, s1));
    assert Decode(0x60) == Some(Instruction(RTS, Implicit));
    StepDecoded(s, Instruction(RTS, Implicit));
    assert StackSlot(2) == 0xFE && StackSlot(1) == 0xFF;
    assert m[0xFE] == 0 && m[0xFF] == 2;
    assert Word(0, 2) == 0x0200;
    assert StackPopShort(s1) == Ok((0x0200, s1.(registers := s1.registers.(sp := 0))));
  }

  /** So RTS does not return to the instruction after JSR: run from
      `CPU::new`, [JSR $0003, RTS] leaves PC at 0x01ff instead of 3. */
  lemma CallReturnExample()
    ensures Run(New([0x20, 0x03, 0x00, 0x60]), 2)
      == Ok(State(Registers(0x01FF, 0, 0, 0, 0, 0), [0x20, 0x03, 0x00, 0x60], Zeroed()[0x100 := 0][0xFF := 2]))
  {
    var program: seq<bv8> := [0x20, 0x03, 0x00, 0x60];
    var s0 := State(ZERO_REGISTERS, program, Zeroed());
    var s1 := State(Registers(3, 2, 0, 0, 0, 0), program, Zeroed()[0x100 := 0][0xFF := 2]);
    var s2 := State(Registers(0x01FF, 0, 0, 0, 0, 0), program, Zeroed()[0x100 := 0][0xFF := 2]);
    assert New(program) == s0;
    CallStep();
    RunStep(s0, s1, 2);
    ReturnStep();
    RunStep(s1, s2, 1);
  }
}
