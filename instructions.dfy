/**
  * The instruction set as the emulator names it: the addressing modes, the
  * instructions (each carrying its mode), and the opcode table of
  * `fetchAndDecodeInstruction` (src/cpu.rs:120-324), which maps 151 of the
  * 256 byte values to an instruction and panics on the others.
  */
module Instructions {

  datatype Option<T> = None | Some(value: T)

  /** The addressing modes `modeHandler` distinguishes (src/cpu.rs:368-387). */
  datatype Mode =
      Implicit
    | Accumulator
    | Immediate
    | ZeroPage
    | ZeroPageX
    | ZeroPageY
    | Relative
    | Absolute
    | AbsoluteX
    | AbsoluteY
    | Indirect
    | IndirectX
    | IndirectY

  /** The mnemonics of the opcode table, one per variant of the source's
      `Instruction` enum. */
  datatype Mnemonic =
      LDA
    | LDX
    | LDY
    | STA
    | STX
    | STY
    | TAX
    | TAY
    | TXA
    | TYA
    | TSX
    | TXS
    | PHA
    | PHP
    | PLA
    | PLP
    | AND
    | EOR
    | ORA
    | BIT
    | ADC
    | SBC
    | CMP
    | CPX
    | CPY
    | INC
    | INX
    | INY
    | DEC
    | DEX
    | DEY
    | ASL
    | LSR
    | ROL
    | ROR
    | JMP
    | JSR
    | RTS
    | BCC
    | BCS
    | BEQ
    | BMI
    | BNE
    | BPL
    | BVC
    | BVS
    | CLC
    | CLD
    | CLI
    | CLV
    | SEC
    | SED
    | SEI
    | BRK
    | NOP
    | RTI

  /** An instruction as `fetchAndDecodeInstruction` returns it: the variant
      `LDA(mode)` of the source's enum is `Instruction(LDA, mode)` here. */
  datatype Instruction = Instruction(mnemonic: Mnemonic, mode: Mode)

  /** The opcode table: the instruction a byte decodes to, or `None` for the
      105 bytes the table does not list (where the source panics with
      "Illegal instruction"). The match is on the byte's numeric value. */
  function Decode(opcode: bv8): Option<Instruction>
  {
    match opcode as int
    case 0xA9 => Some(Instruction(LDA, Immediate))
    case 0xA5 => Some(Instruction(LDA, ZeroPage))
    case 0xB5 => Some(Instruction(LDA, ZeroPageX))
    case 0xAD => Some(Instruction(LDA, Absolute))
    case 0xBD => Some(Instruction(LDA, AbsoluteX))
    case 0xB9 => Some(Instruction(LDA, AbsoluteY))
    case 0xA1 => Some(Instruction(LDA, IndirectX))
    case 0xB1 => Some(Instruction(LDA, IndirectY))
    case 0xA2 => Some(Instruction(LDX, Immediate))
    case 0xA6 => Some(Instruction(LDX, ZeroPage))
    case 0xB6 => Some(Instruction(LDX, ZeroPageY))
    case 0xAE => Some(Instruction(LDX, Absolute))
    case 0xBE => Some(Instruction(LDX, AbsoluteY))
    case 0xA0 => Some(Instruction(LDY, Immediate))
    case 0xA4 => Some(Instruction(LDY, ZeroPage))
    case 0xB4 => Some(Instruction(LDY, ZeroPageX))
    case 0xAC => Some(Instruction(LDY, Absolute))
    case 0xBC => Some(Instruction(LDY, AbsoluteX))
    case 0x85 => Some(Instruction(STA, ZeroPage))
    case 0x95 => Some(Instruction(STA, ZeroPageX))
    case 0x8D => Some(Instruction(STA, Absolute))
    case 0x9D => Some(Instruction(STA, AbsoluteX))
    case 0x99 => Some(Instruction(STA, AbsoluteY))
    case 0x81 => Some(Instruction(STA, IndirectX))
    case 0x91 => Some(Instruction(STA, IndirectY))
    case 0x86 => Some(Instruction(STX, ZeroPage))
    case 0x96 => Some(Instruction(STX, ZeroPageY))
    case 0x8E => Some(Instruction(STX, Absolute))
    case 0x84 => Some(Instruction(STY, ZeroPage))
    case 0x94 => Some(Instruction(STY, ZeroPageX))
    case 0x8C => Some(Instruction(STY, Absolute))
    case 0xAA => Some(Instruction(TAX, Implicit))
    case 0xA8 => Some(Instruction(TAY, Implicit))
    case 0x8A => Some(Instruction(TXA, Implicit))
    case 0x98 => Some(Instruction(TYA, Implicit))
    case 0xBA => Some(Instruction(TSX, Implicit))
    case 0x9A => Some(Instruction(TXS, Implicit))
    case 0x48 => Some(Instruction(PHA, Implicit))
    case 0x08 => Some(Instruction(PHP, Implicit))
    case 0x68 => Some(Instruction(PLA, Implicit))
    case 0x28 => Some(Instruction(PLP, Implicit))
    case 0x29 => Some(Instruction(AND, Immediate))
    case 0x25 => Some(Instruction(AND, ZeroPage))
    case 0x35 => Some(Instruction(AND, ZeroPageX))
    case 0x2D => Some(Instruction(AND, Absolute))
    case 0x3D => Some(Instruction(AND, AbsoluteX))
    case 0x39 => Some(Instruction(AND, AbsoluteY))
    case 0x21 => Some(Instruction(AND, IndirectX))
    case 0x31 => Some(Instruction(AND, IndirectY))
    case 0x49 => Some(Instruction(EOR, Immediate))
    case 0x45 => Some(Instruction(EOR, ZeroPage))
    case 0x55 => Some(Instruction(EOR, ZeroPageX))
    case 0x4D => Some(Instruction(EOR, Absolute))
    case 0x5D => Some(Instruction(EOR, AbsoluteX))
    case 0x59 => Some(Instruction(EOR, AbsoluteY))
    case 0x41 => Some(Instruction(EOR, IndirectX))
    case 0x51 => Some(Instruction(EOR, IndirectY))
    case 0x09 => Some(Instruction(ORA, Immediate))
    case 0x05 => Some(Instruction(ORA, ZeroPage))
    case 0x15 => Some(Instruction(ORA, ZeroPageX))
    case 0x0D => Some(Instruction(ORA, Absolute))
    case 0x1D => Some(Instruction(ORA, AbsoluteX))
    case 0x19 => Some(Instruction(ORA, AbsoluteY))
    case 0x01 => Some(Instruction(ORA, IndirectX))
    case 0x11 => Some(Instruction(ORA, IndirectY))
    case 0x24 => Some(Instruction(BIT, ZeroPage))
    case 0x2C => Some(Instruction(BIT, Absolute))
    case 0x69 => Some(Instruction(ADC, Immediate))
    case 0x65 => Some(Instruction(ADC, ZeroPage))
    case 0x75 => Some(Instruction(ADC, ZeroPageX))
    case 0x6D => Some(Instruction(ADC, Absolute))
    case 0x7D => Some(Instruction(ADC, AbsoluteX))
    case 0x79 => Some(Instruction(ADC, AbsoluteY))
    case 0x61 => Some(Instruction(ADC, IndirectX))
    case 0x71 => Some(Instruction(ADC, IndirectY))
    case 0xE9 => Some(Instruction(SBC, Immediate))
    case 0xE5 => Some(Instruction(SBC, ZeroPage))
    case 0xF5 => Some(Instruction(SBC, ZeroPageX))
    case 0xED => Some(Instruction(SBC, Absolute))
    case 0xFD => Some(Instruction(SBC, AbsoluteX))
    case 0xF9 => Some(Instruction(SBC, AbsoluteY))
    case 0xE1 => Some(Instruction(SBC, IndirectX))
    case 0xF1 => Some(Instruction(SBC, IndirectY))
    case 0xC9 => Some(Instruction(CMP, Immediate))
    case 0xC5 => Some(Instruction(CMP, ZeroPage))
    case 0xD5 => Some(Instruction(CMP, ZeroPageX))
    case 0xCD => Some(Instruction(CMP, Absolute))
    case 0xDD => Some(Instruction(CMP, AbsoluteX))
    case 0xD9 => Some(Instruction(CMP, AbsoluteY))
    case 0xC1 => Some(Instruction(CMP, IndirectX))
    case 0xD1 => Some(Instruction(CMP, IndirectY))
    case 0xE0 => Some(Instruction(CPX, Immediate))
    case 0xE4 => Some(Instruction(CPX, ZeroPage))
    case 0xEC => Some(Instruction(CPX, Absolute))
    case 0xC0 => Some(Instruction(CPY, Immediate))
    case 0xC4 => Some(Instruction(CPY, ZeroPage))
    case 0xCC => Some(Instruction(CPY, Absolute))
    case 0xE6 => Some(Instruction(INC, ZeroPage))
    case 0xF6 => Some(Instruction(INC, ZeroPageX))
    case 0xEE => Some(Instruction(INC, Absolute))
    case 0xFE => Some(Instruction(INC, AbsoluteX))
    case 0xE8 => Some(Instruction(INX, Implicit))
    case 0xC8 => Some(Instruction(INY, Implicit))
    case 0xC6 => Some(Instruction(DEC, ZeroPage))
    case 0xD6 => Some(Instruction(DEC, ZeroPageX))
    case 0xCE => Some(Instruction(DEC, Absolute))
    case 0xDE => Some(Instruction(DEC, AbsoluteX))
    case 0xCA => Some(Instruction(DEX, Implicit))
    case 0x88 => Some(Instruction(DEY, Implicit))
    case 0x0A => Some(Instruction(ASL, Accumulator))
    case 0x06 => Some(Instruction(ASL, ZeroPage))
    case 0x16 => Some(Instruction(ASL, ZeroPageX))
    case 0x0E => Some(Instruction(ASL, Absolute))
    case 0x1E => Some(Instruction(ASL, AbsoluteX))
    case 0x4A => Some(Instruction(LSR, Accumulator))
    case 0x46 => Some(Instruction(LSR, ZeroPage))
    case 0x56 => Some(Instruction(LSR, ZeroPageX))
    case 0x4E => Some(Instruction(LSR, Absolute))
    case 0x5E => Some(Instruction(LSR, AbsoluteX))
    case 0x2A => Some(Instruction(ROL, Accumulator))
    case 0x26 => Some(Instruction(ROL, ZeroPage))
    case 0x36 => Some(Instruction(ROL, ZeroPageX))
    case 0x2E => Some(Instruction(ROL, Absolute))
    case 0x3E => Some(Instruction(ROL, AbsoluteX))
    case 0x6A => Some(Instruction(ROR, Accumulator))
    case 0x66 => Some(Instruction(ROR, ZeroPage))
    case 0x76 => Some(Instruction(ROR, ZeroPageX))
    case 0x6E => Some(Instruction(ROR, Absolute))
    case 0x7E => Some(Instruction(ROR, AbsoluteX))
    case 0x4C => Some(Instruction(JMP, Absolute))
    case 0x6C => Some(Instruction(JMP, Indirect))
    case 0x20 => Some(Instruction(JSR, Absolute))
    case 0x60 => Some(Instruction(RTS, Implicit))
    case 0x90 => Some(Instruction(BCC, Relative))
    case 0xB0 => Some(Instruction(BCS, Relative))
    case 0xF0 => Some(Instruction(BEQ, Relative))
    case 0x30 => Some(Instruction(BMI, Relative))
    case 0xD0 => Some(Instruction(BNE, Relative))
    case 0x10 => Some(Instruction(BPL, Relative))
    case 0x50 => Some(Instruction(BVC, Relative))
    case 0x70 => Some(Instruction(BVS, Relative))
    case 0x18 => Some(Instruction(CLC, Implicit))
    case 0xD8 => Some(Instruction(CLD, Implicit))
    case 0x58 => Some(Instruction(CLI, Implicit))
    case 0xB8 => Some(Instruction(CLV, Implicit))
    case 0x38 => Some(Instruction(SEC, Implicit))
    case 0xF8 => Some(Instruction(SED, Implicit))
    case 0x78 => Some(Instruction(SEI, Implicit))
    case 0x00 => Some(Instruction(BRK, Implicit))
    case 0xEA => Some(Instruction(NOP, Implicit))
    case 0x40 => Some(Instruction(RTI, Implicit))
    case _ => None
  }
}
