# A verified model of the nesVM 6502 core

nesVM is a NES emulator written in Rust. Its core is a MOS 6502 CPU
(src/cpu.rs). The CPU holds:

- a register file: PC, SP, A, X, Y and the status byte;
- a program, the bytes loaded from a ROM file, which it fetches from;
- a flat data memory of 0xffff bytes (src/memory.rs).

It runs a fetch–decode–execute loop. Each turn reads the opcode at PC and
looks it up in a 151-entry table of mnemonic and addressing mode. It then
dispatches to a handler. The handler reads its operand through the mode's
address routine and updates registers, flags and memory.

The model has three layers.

- **Values.** `Bytes`, `Flags` and `Instructions` cover little-endian words
  and 8/16-bit arithmetic, the status-flag setters with the ADC, SBC,
  compare, shift, rotate and BIT flag logic, and the opcode table.
- **Specification.** `Semantics` gives each routine of src/cpu.rs as a
  function from a `State` (registers, program, memory) to a `Result`.
  - Every place where the Rust code can panic is an `Err` carrying a
    `Fault`. These are: an index past the end of the program or the memory,
    a u8 or u16 `+` or `-` that overflows in a debug build, and an opcode
    missing from the table.
  - `Properties` states what each routine does and when it faults, in
    integer arithmetic. The instruction-level fault lemmas are stated over
    the operand bytes, and `ModeHandlerFaults` says in terms of the state
    when those fault. It also records which stack routines undo each
    other.
- **Objects.** `Storage.Memory` and `Cpu.CPU` are classes whose methods
  update their fields in place, as the Rust `impl` blocks do. Each method
  is proved to return what its `Semantics` function returns and to leave
  the object in the state that function gives.

The model follows the code as written, including where it departs from the
6502:

- `setCarryFlag`'s test is always true.
- `setOverflowFlag` ignores its argument.
- INX, INY, DEX and DEY drop the value they compute.
- BIT takes Overflow and Negative from bits 5 and 6 of the operand.
- BEQ, BMI and BVS never branch.
- CMP, CPX and CPY panic when the register is below the operand.
- PHA/PLA and JSR/RTS do not pair up. `PushPullExample` and
  `CallReturnExample` show this on two-instruction programs.
- Most scenarios reproduce one unit test of src/cpuTests.rs each.
  `AdcZeroPage` and `AdcExamples` together reproduce `testADC`.
  `PushPullExample` and `CallReturnExample` reproduce no test: they are
  extra two-instruction programs.

## Model

| member | source | states |
|---|---|---|
| Bytes.WordValue | src/cpu.rs:332-337 | the word built from a low and a high byte is low + 256 * high |
| Bytes.WordSplit | src/memory.rs:27-32 | the low and high byte of a word rebuild the word |
| Bytes.WordJoin | src/memory.rs:20-25 | splitting a word built from two bytes gives the two bytes back |
| Bytes.LowHighValue | src/memory.rs:27-32 | a word is its low byte plus 256 times its high byte |
| Bytes.SignExtendValue | src/cpu.rs:796-798 | the offset byte sign-extended to 16 bits is its signed value modulo 2^16 |
| Bytes.AddWords | src/cpu.rs:326-337 | u16 wrapping addition is integer addition modulo 65536 |
| Bytes.AddBytes | src/cpu.rs:338-366 | u8 wrapping addition is integer addition modulo 256 |
| Flags.CarryIn | src/cpu.rs:596 | the carry-in is 0 or 1, and 1 exactly when Carry is set |
| Flags.SetZero | src/cpu.rs:84-91 | Zero is set exactly when the value is 0; no other bit moves |
| Flags.SetNegative | src/cpu.rs:109-115 | bit 6 is set exactly when the value is at least 128; no other bit moves |
| Flags.SetZeroNegative | src/cpu.rs:84-115 | Zero and Negative describe the value; the other six bits are kept |
| Flags.ZeroNegativeKeepsCarry | src/cpu.rs:84-115 | setting Zero and Negative does not disturb Carry |
| Flags.SetCarry | src/cpu.rs:75-82 | Carry ends set whatever the argument, since the unsigned test always holds; no other bit moves |
| Flags.SetInterruptDisable | src/cpu.rs:93-95 | bit 2 set, the rest kept |
| Flags.SetDecimalMode | src/cpu.rs:97-99 | bit 3 set, the rest kept |
| Flags.SetBreakCommand | src/cpu.rs:101-103 | bit 4 set, the rest kept |
| Flags.SetOverflow | src/cpu.rs:105-107 | bit 5 set whatever the argument, the rest kept |
| Flags.AddWithCarryReference | src/cpu.rs:591-613 | ADC against integer addition: A + operand + C modulo 256; Carry exactly when the sum exceeds 255; Overflow exactly when the signed sum leaves -128..127; the other status bits are kept |
| Flags.NegateMinusOne | src/cpu.rs:620 | SBC's `wrapping_neg().wrapping_sub(1)` is the bitwise complement |
| Flags.SubtractWithCarryReference | src/cpu.rs:615-639 | SBC against integer subtraction: A - operand - (1 - C) modulo 256; Carry exactly when no borrow; Overflow exactly when the signed difference leaves -128..127; the other status bits are kept |
| Flags.CompareFlags | src/cpu.rs:640-658 | when the operand is not above the register: Carry set, Zero exactly when they are equal, Negative from the difference; other bits kept |
| Flags.ShiftLeft | src/cpu.rs:702-704 | ASL: the value doubled modulo 256, with bit 7 in Carry |
| Flags.ShiftRight | src/cpu.rs:720-722 | LSR: the value halved, with bit 0 in Carry |
| Flags.RotateLeft | src/cpu.rs:736-743 | ROL: Carry receives bit 7; the other status bits are kept |
| Flags.RotateRight | src/cpu.rs:759-766 | ROR: Carry receives bit 0; the other status bits are kept |
| Flags.RotateLeftValue | src/cpu.rs:736-743 | ROL as integers: 2 * value + old Carry modulo 256; Carry exactly when value >= 128 |
| Flags.RotateRightValue | src/cpu.rs:759-766 | ROR as integers: value / 2 + 128 * old Carry; Carry exactly when value is odd |
| Flags.RotateLeftRight | src/cpu.rs:732-775 | ROR undoes ROL: the value and the whole status byte come back |
| Flags.BitTest | src/cpu.rs:571-589 | Zero exactly when A & operand is 0; bits 5 and 6 copy the operand's bits 5 and 6; the other bits are kept |
| Storage.ShortAtValue | src/memory.rs:20-25 | a word read from memory is the low byte plus 256 times the next byte |
| Storage.ShortRoundTrip | src/memory.rs:20-32 | reading a word back after writing it gives the word |
| Storage.WithShortFrame | src/memory.rs:27-32 | writing a word changes only its two bytes |
| Storage.ShortAt | src/memory.rs:20-25 | the word read as written; `ShortAtValue` and `ShortRoundTrip` state its properties |
| Storage.WithShort | src/memory.rs:27-32 | the word write as written, keeping the length of memory; `WithShortFrame` and `ShortRoundTrip` state its properties |
| Storage.Memory.constructor | src/memory.rs:10-14 | a new memory has `size` zero bytes |
| Storage.Memory.ReadByte | src/memory.rs:16-18 | returns the byte at the address |
| Storage.Memory.ReadShort | src/memory.rs:20-25 | returns the little-endian word at the address |
| Storage.Memory.WriteShort | src/memory.rs:27-32 | the memory becomes the old memory with the word stored at the address |
| Storage.Memory.WriteByte | src/memory.rs:34-37 | the memory becomes the old memory with that one byte replaced |
| Storage.ReadMemoryExample | src/memory.rs:46-52 | a byte written to a fresh memory reads back as 0x60 |
| Instructions.Decode | src/cpu.rs:117-325 | the opcode table as written; `Properties.FetchAndDecodeSpec` and `Properties.DecodeLdaImmediate` state its properties |
| Semantics.ReadByte | src/cpu.rs:326-330 | the routine as written; its properties are the `Properties` rows for it |
| Semantics.ReadShort | src/cpu.rs:332-337 | the routine as written; its properties are the `Properties` rows for it |
| Semantics.LoadByte | src/memory.rs:16-18 | the routine as written; its properties are the `Properties` rows for it |
| Semantics.LoadShort | src/memory.rs:20-25 | the routine as written; its properties are the `Properties` rows for it |
| Semantics.StoreByte | src/memory.rs:34-37 | the routine as written; its properties are the `Properties` rows for it |
| Semantics.StackPushByte | src/cpu.rs:338-343 | the routine as written; its properties are the `Properties` rows for it |
| Semantics.StackPushShort | src/cpu.rs:345-350 | the routine as written; its properties are the `Properties` rows for it |
| Semantics.StackPopByte | src/cpu.rs:352-359 | the routine as written; its properties are the `Properties` rows for it |
| Semantics.StackPopShort | src/cpu.rs:361-366 | the routine as written; its properties are the `Properties` rows for it |
| Semantics.ModeHandler | src/cpu.rs:368-387 | the routine as written; its properties are the `Properties` rows for it |
| Semantics.ImmediateHandler | src/cpu.rs:389-391 | the routine as written; its properties are the `Properties` rows for it |
| Semantics.ZeroPageHandler | src/cpu.rs:393-396 | the routine as written; its properties are the `Properties` rows for it |
| Semantics.ZeroPageXHandler | src/cpu.rs:397-400 | the routine as written; its properties are the `Properties` rows for it |
| Semantics.ZeroPageYHandler | src/cpu.rs:401-404 | the routine as written; its properties are the `Properties` rows for it |
| Semantics.RelativeHandler | src/cpu.rs:405-407 | the routine as written; its properties are the `Properties` rows for it |
| Semantics.AbsoluteHandler | src/cpu.rs:408-411 | the routine as written; its properties are the `Properties` rows for it |
| Semantics.AbsoluteXHandler | src/cpu.rs:413-419 | the routine as written; its properties are the `Properties` rows for it |
| Semantics.AbsoluteYHandler | src/cpu.rs:420-425 | the routine as written; its properties are the `Properties` rows for it |
| Semantics.IndirectHandler | src/cpu.rs:426-430 | the routine as written; its properties are the `Properties` rows for it |
| Semantics.IndirectXHandler | src/cpu.rs:431-438 | the routine as written; its properties are the `Properties` rows for it |
| Semantics.IndirectYHandler | src/cpu.rs:439-445 | the routine as written; its properties are the `Properties` rows for it |
| Semantics.Operand | src/cpu.rs:447-471 | the routine as written; its properties are the `Properties` rows for it |
| Semantics.Load | src/cpu.rs:447-471 | the routine as written; its properties are the `Properties` rows for it |
| Semantics.Store | src/cpu.rs:472-483 | the routine as written; its properties are the `Properties` rows for it |
| Semantics.Transfer | src/cpu.rs:484-508 | the routine as written; its properties are the `Properties` rows for it |
| Semantics.TransferToStack | src/cpu.rs:509-511 | the routine as written; its properties are the `Properties` rows for it |
| Semantics.Push | src/cpu.rs:515-528 | the routine as written; its properties are the `Properties` rows for it |
| Semantics.Pull | src/cpu.rs:531-542 | the routine as written; its properties are the `Properties` rows for it |
| Semantics.PullAccumulator | src/cpu.rs:531-537 | the routine as written; its properties are the `Properties` rows for it |
| Semantics.PullFlags | src/cpu.rs:539-542 | the routine as written; its properties are the `Properties` rows for it |
| Semantics.Logic | src/cpu.rs:544-569 | the routine as written; its properties are the `Properties` rows for it |
| Semantics.Bit | src/cpu.rs:571-589 | the routine as written; its properties are the `Properties` rows for it |
| Semantics.Adc | src/cpu.rs:591-613 | the routine as written; its properties are the `Properties` rows for it |
| Semantics.Sbc | src/cpu.rs:615-639 | the routine as written; its properties are the `Properties` rows for it |
| Semantics.Compare | src/cpu.rs:640-658 | the routine as written; its properties are the `Properties` rows for it |
| Semantics.CompareWith | src/cpu.rs:640-649 | the routine as written; its properties are the `Properties` rows for it |
| Semantics.Adjust | src/cpu.rs:659-686 | the routine as written; its properties are the `Properties` rows for it |
| Semantics.CountRegister | src/cpu.rs:668-696 | the routine as written; its properties are the `Properties` rows for it |
| Semantics.Shift | src/cpu.rs:697-775 | the routine as written; its properties are the `Properties` rows for it |
| Semantics.ShiftAccumulator | src/cpu.rs:697-775 | the routine as written; its properties are the `Properties` rows for it |
| Semantics.ShiftMemory | src/cpu.rs:697-775 | the routine as written; its properties are the `Properties` rows for it |
| Semantics.Jmp | src/cpu.rs:776-780 | the routine as written; its properties are the `Properties` rows for it |
| Semantics.Jsr | src/cpu.rs:783-795 | the routine as written; its properties are the `Properties` rows for it |
| Semantics.Branch | src/cpu.rs:796-841 | the routine as written; its properties are the `Properties` rows for it |
| Semantics.Rts | src/cpu.rs:799-801 | the routine as written; its properties are the `Properties` rows for it |
| Semantics.Rti | src/cpu.rs:872-875 | the routine as written; its properties are the `Properties` rows for it |
| Semantics.Execute | src/cpu.rs:877-939 | the dispatch as written; `Properties.StepDecoded`, `Properties.NoEffect` and the per-instruction rows state its properties |
| Semantics.FetchAndDecode | src/cpu.rs:117-325 | the routine as written; its properties are the `Properties` rows for it |
| Semantics.Step | src/cpu.rs:941-946 | one turn as written; `Properties.StepDecoded` states its property |
| Semantics.Run | src/cpu.rs:941-946 | `fuel` turns as written; `RunOne`, `RunTurn`, `RunStep` and `RunFault` state its properties |
| Semantics.RunFetch | src/cpu.rs:941-946 | the fetch half of a turn as written, a helper of `Run` |
| Semantics.RunExecute | src/cpu.rs:941-946 | the execute half of a turn as written, a helper of `Run` |
| Semantics.New | src/cpu.rs:53-64 | `CPU::new` as written, with the program as a parameter |
| Semantics.Reset | src/cpu.rs:65-73 | `reset` as written; `Properties.ResetSpec` states its property |
| Semantics.RunOne | src/cpu.rs:941-946 | one turn of the run loop is one step |
| Semantics.RunTurn | src/cpu.rs:941-946 | n > 0 turns are a step, then n - 1 turns unless the step faulted |
| Semantics.RunStep | src/cpu.rs:941-946 | a successful first step is followed by the remaining turns |
| Semantics.RunFault | src/cpu.rs:941-946 | a faulting first step stops the run with that fault |
| Properties.ReadByteSpec | src/cpu.rs:326-330 | succeeds exactly when PC is in the program and below 0xffff; gives the byte at PC, PC + 1, nothing else changes |
| Properties.ReadShortSpec | src/cpu.rs:332-337 | succeeds exactly when PC and PC + 1 are in the program and PC + 2 does not overflow; gives the little-endian word, PC + 2 |
| Properties.FetchAndDecodeSpec | src/cpu.rs:117-325 | succeeds exactly when the byte at PC reads and is in the table; gives that entry, else an illegal-instruction fault |
| Properties.DecodeLdaImmediate | src/cpu.rs:120-122 | opcode 0xa9 decodes to LDA immediate |
| Properties.ZeroPageIndexedValue | src/cpu.rs:397-404 | zero-page indexing adds in 16 bits, so the address can leave page zero |
| Properties.AbsoluteIndexedValue | src/cpu.rs:413-425 | absolute indexing adds the index to the low byte modulo 256 and keeps the high byte |
| Properties.ZeroPagePointerValue | src/cpu.rs:431-438 | the IndirectX pointer is operand + X modulo 256 |
| Properties.PostIndexedValue | src/cpu.rs:439-445 | the IndirectY address is the word read + Y modulo 65536 |
| Properties.ZeroPageXAddress | src/cpu.rs:397-400 | ZeroPageX gives operand byte + X and moves PC past it |
| Properties.AbsoluteXAddress | src/cpu.rs:413-419 | AbsoluteX gives the word's high byte with low byte + X modulo 256; PC + 2 |
| Properties.IndirectXAddress | src/cpu.rs:431-438 | IndirectX gives the word in memory at operand + X modulo 256 |
| Properties.IndirectYAddress | src/cpu.rs:439-445 | IndirectY gives the word in memory at the operand byte, + Y modulo 65536 |
| Properties.ModeHandlerFaults | src/cpu.rs:368-445 | the operand bytes fault exactly when: never for Implicit, Accumulator, Immediate; the byte after the opcode cannot be read for ZeroPage, ZeroPageX/Y, Relative; the word cannot be read for Absolute, AbsoluteX/Y; and for the indirect modes as the next three rows say |
| Properties.IndirectFaults | src/cpu.rs:426-430 | Indirect faults exactly when the operand word cannot be read, is 0xffff, or the byte after it is past memory |
| Properties.IndirectXFaults | src/cpu.rs:431-438 | IndirectX faults exactly when the operand byte cannot be read or (operand + X) modulo 256 + 1 is past memory |
| Properties.IndirectYFaults | src/cpu.rs:439-445 | IndirectY faults exactly when the operand byte cannot be read or operand + 1 is past memory |
| Properties.PageOneSlotValue | src/cpu.rs:515-542 | PHA/PHP/PLA/PLP address 0x0100 + SP |
| Properties.StackSlotValue | src/cpu.rs:338-366 | `stackPushByte`/`stackPopByte` address 0x0100 - SP, which lies in 0x01..0x0100 |
| Properties.WrappingIncValue | src/cpu.rs:338-343 | SP + 1 wrapping is integer + 1 modulo 256 |
| Properties.WrappingDecValue | src/cpu.rs:352-359 | SP - 1 wrapping is integer - 1 modulo 256 |
| Properties.IncAfterDec | src/cpu.rs:338-359 | wrapping increment undoes wrapping decrement |
| Properties.DecAfterInc | src/cpu.rs:338-359 | wrapping decrement undoes wrapping increment |
| Properties.PushSpec | src/cpu.rs:515-528 | PHA/PHP: the byte goes to 0x0100 + SP, SP - 1 modulo 256; faults exactly when the slot is past memory; nothing else changes |
| Properties.PullSpec | src/cpu.rs:530-542 | PLA/PLP read 0x0100 + SP, then SP + 1 modulo 256; faults exactly when the slot is past memory |
| Properties.PullAfterPushRestores | src/cpu.rs:515-542 | a pull after a push restores SP |
| Properties.PullAfterPushReads | src/cpu.rs:515-542 | a pull after a push reads 0x0100 + (SP - 1) modulo 256, not the pushed slot: one lower, or 0x01ff when SP is 0; it faults exactly when that slot is past memory |
| Properties.StackPushByteSpec | src/cpu.rs:338-343 | the byte goes to 0x0100 - SP, SP + 1 modulo 256, nothing else changes |
| Properties.StackPopByteSpec | src/cpu.rs:352-359 | gives the byte at 0x0100 - SP and SP - 1 modulo 256 |
| Properties.PopAfterPushByteRestores | src/cpu.rs:338-359 | `stackPopByte` after `stackPushByte` restores SP |
| Properties.PopAfterPushByteReads | src/cpu.rs:338-359 | and reads 0x0100 - (SP + 1), not the pushed byte |
| Properties.ModeHandlerFrame | src/cpu.rs:368-445 | the mode handlers change only PC |
| Properties.OperandSpec | src/cpu.rs:447-471 | the operand is the program byte for Immediate, else the memory byte at the mode's address |
| Properties.OperandFrame | src/cpu.rs:447-471 | reading an operand changes only PC |
| Properties.OperandFaults | src/cpu.rs:368-471 | an operand read succeeds exactly when the mode handler does and, for Immediate, the byte after the opcode reads, or otherwise the address is inside memory |
| Properties.LoadSpec | src/cpu.rs:447-471 | LDA/LDX/LDY: the operand lands in the register, Zero/Negative describe it, everything else is kept; faults only from the operand read |
| Properties.StoreSpec | src/cpu.rs:472-483 | STA/STX/STY: the register is written at the mode's address, only PC among the registers changes; faults exactly when the address or operand read fails |
| Properties.TransferSpec | src/cpu.rs:484-508 | TAX, TAY, TXA, TYA, TSX never fault: the target takes the source register's value, Zero/Negative describe it, the other status bits, the other registers, SP, PC, memory and program are kept |
| Properties.TransferEffect | src/cpu.rs:484-508 | the step the five transfers share: the value in the target, Zero/Negative from it, nothing else changes |
| Properties.TxsSpec | src/cpu.rs:509-511 | TXS never faults: SP takes X, every status bit and every other register, memory and program are kept |
| Properties.PullAccumulatorSpec | src/cpu.rs:531-537 | PLA faults exactly when 0x0100 + SP is past memory, with that index; else A takes the byte there, Zero/Negative describe it, the other status bits are kept, SP + 1 modulo 256, X, Y, PC, memory and program are kept |
| Properties.PullFlagsSpec | src/cpu.rs:539-542 | PLP faults exactly when 0x0100 + SP is past memory, with that index; else the status byte takes the byte there, SP + 1 modulo 256, A, X, Y, PC, memory and program are kept |
| Properties.AdcSpec | src/cpu.rs:591-613 | ADC: A becomes A + operand + C modulo 256 |
| Properties.AdcCarry | src/cpu.rs:591-613 | ADC: Carry is set exactly when A + operand + C exceeds 255 |
| Properties.AdcOverflow | src/cpu.rs:591-613 | ADC: Overflow is set exactly when the signed sum leaves -128..127 |
| Properties.AdcKeeps | src/cpu.rs:591-613 | ADC keeps the other status bits, X, Y, SP, memory and program |
| Properties.OperandOnlyFaults | src/cpu.rs:544-639 | ADC, SBC, AND, EOR and ORA fault exactly when their operand read faults |
| Properties.SbcSpec | src/cpu.rs:615-639 | SBC: A becomes A - operand - (1 - C) modulo 256 |
| Properties.SbcCarry | src/cpu.rs:615-639 | SBC: Carry is set exactly when no borrow was needed |
| Properties.SbcOverflow | src/cpu.rs:615-639 | SBC: Overflow exactly when the signed difference leaves -128..127 |
| Properties.SbcKeeps | src/cpu.rs:615-639 | SBC keeps the other status bits, X, Y, SP, memory and program |
| Properties.CompareSpec | src/cpu.rs:640-658 | CMP/CPX/CPY fault exactly when the register is below the operand; otherwise Carry set, Zero iff equal, Negative from the difference, nothing else but PC changes |
| Properties.LogicSpec | src/cpu.rs:544-569 | AND/EOR/ORA: A combined with the operand bit by bit, Zero/Negative from the result |
| Properties.AdjustSpec | src/cpu.rs:659-686 | INC/DEC: the byte written at the mode's address is operand ± 1 modulo 256; for Immediate the operand is the program byte and the write goes to 0xff |
| Properties.AdjustWrite | src/cpu.rs:659-686 | INC/DEC: the address is in range, no other memory byte and no program byte changes |
| Properties.AdjustFlags | src/cpu.rs:659-686 | INC/DEC: Zero/Negative from the written byte, the other flags kept |
| Properties.AdjustFaults | src/cpu.rs:659-686 | INC/DEC fault exactly when the operand bytes fault, the address (0xff for Immediate) is past memory, or for Immediate the byte after the opcode cannot be read |
| Properties.CountRegisterSpec | src/cpu.rs:668-696 | INX/INY/DEX/DEY leave the register unchanged and set Zero/Negative from it |
| Properties.ShiftAccumulatorSpec | src/cpu.rs:697-731 | ASL/LSR on A: doubled modulo 256 or halved, Carry the bit shifted out, Zero/Negative from the result |
| Properties.RolAccumulatorSpec | src/cpu.rs:732-753 | ROL on A: 2A + C modulo 256, Carry from bit 7, Zero/Negative from the result |
| Properties.RorAccumulatorSpec | src/cpu.rs:754-775 | ROR on A: A / 2 + 128C, Carry from bit 0, Zero/Negative from the result |
| Properties.ShiftMemorySpec | src/cpu.rs:697-775 | the shifts in memory replace the byte at the mode's address; only flags and PC change |
| Properties.ShiftFaults | src/cpu.rs:697-775 | the shifts fault exactly when the operand bytes fault or, outside Accumulator mode, the address is past memory |
| Properties.BitSpec | src/cpu.rs:571-589 | BIT reads memory at the mode's address even for Immediate and changes only Zero, Overflow, Negative and PC |
| Properties.BitFaults | src/cpu.rs:571-589 | BIT faults exactly when the operand bytes fault or the address is past memory |
| Properties.JmpAbsoluteSpec | src/cpu.rs:776-780 | JMP absolute: PC becomes the word after the opcode |
| Properties.JmpIndirectSpec | src/cpu.rs:776-780 | JMP indirect: PC becomes the word in memory at the operand word |
| Properties.JmpFaults | src/cpu.rs:776-780 | JMP faults exactly when its operand bytes do |
| Properties.JmpIndirectFaults | src/cpu.rs:426-430 | indirect JMP faults exactly when the operand word cannot be read, is 0xffff, or the byte after it is past memory |
| Properties.StackPushShortSpec | src/cpu.rs:345-350 | the high byte goes to 0x0100 - SP and the low byte to 0x0100 - (SP + 1); no other byte and no program byte changes |
| Properties.StackPushShortPointer | src/cpu.rs:345-350 | SP goes up by two modulo 256 and no other register changes |
| Properties.StackPushShortFaults | src/cpu.rs:345-350 | it succeeds exactly when both slots, 0x0100 - SP and 0x0100 - (SP + 1), are inside memory |
| Properties.StackPopShortFaults | src/cpu.rs:361-366 | it succeeds exactly when both slots it reads, 0x0100 - SP and 0x0100 - (SP - 1), are inside memory |
| Properties.StackPopShortSpec | src/cpu.rs:361-366 | gives the word with its low byte at 0x0100 - SP and its high byte at 0x0100 - (SP - 1) |
| Properties.StackPopShortFrame | src/cpu.rs:361-366 | SP - 2 modulo 256, nothing else changes |
| Properties.PreviousValue | src/cpu.rs:783-801 | PC - 1 on u16 is integer PC - 1 when PC is not 0 |
| Properties.JsrFaults | src/cpu.rs:783-795 | JSR faults exactly when its operand bytes fault, when PC after them is 0, or when a slot 0x0100 - SP or 0x0100 - (SP + 1) is past memory |
| Properties.JsrSpec | src/cpu.rs:783-795 | JSR: PC after the operand is not 0; memory becomes the old memory with the high byte of PC - 1 at 0x0100 - SP and its low byte at 0x0100 - (SP + 1); the program is kept |
| Properties.JsrPush | src/cpu.rs:783-795 | the same push, stated on the state after the operand bytes |
| Properties.SamePush | src/cpu.rs:345-350 | a two-byte push depends only on the memory and SP it starts from |
| Properties.PushedWord | src/cpu.rs:345-366 | the two bytes pushed read back, low + 256 * high, as the pushed word |
| Properties.JsrPointer | src/cpu.rs:783-795 | JSR sets PC to the operand's address, SP to SP + 2 modulo 256, and keeps A, X, Y and Flags |
| Properties.RtsSpec | src/cpu.rs:799-801 | RTS sets PC to the popped word - 1, faulting when that word is 0 |
| Properties.RtiFaults | src/cpu.rs:872-875 | RTI faults exactly when a slot 0x0100 - SP, 0x0100 - (SP - 1) or 0x0100 - (SP - 2) is past memory |
| Properties.RtiSpec | src/cpu.rs:872-873 | RTI: Flags become the byte at 0x0100 - SP |
| Properties.RtiPointer | src/cpu.rs:872-875 | RTI: SP goes down by three modulo 256 |
| Properties.RtiReturn | src/cpu.rs:874 | RTI: PC becomes the byte at 0x0100 - (SP - 1) plus 256 times the byte at 0x0100 - (SP - 2), not adjusted |
| Properties.RtiFrame | src/cpu.rs:872-875 | RTI keeps A, X, Y, memory and program |
| Properties.PopWordAfterByte | src/cpu.rs:352-366 | with memory unchanged and SP' = SP - 1 modulo 256, the word read from 0x0100 - SP' and 0x0100 - (SP' - 1) is the byte at 0x0100 - (SP - 1) plus 256 times the byte at 0x0100 - (SP - 2) |
| Properties.PopPointerAfterByte | src/cpu.rs:352-366 | a byte pop then a word pop leave SP three below, modulo 256 |
| Properties.BranchTargetValue | src/cpu.rs:796-798 | the target is PC + the signed offset byte, modulo 2^16 |
| Properties.BranchRelativeSpec | src/cpu.rs:802-841 | a branch moves PC by the signed offset exactly when its condition holds, else past the operand; nothing else changes |
| Properties.BranchFaults | src/cpu.rs:802-841 | a branch faults exactly when its operand bytes do |
| Properties.BranchConditions | src/cpu.rs:802-841 | BCC, BCS, BNE, BPL and BVC test Carry clear, Carry set, Zero clear, Negative clear and Overflow clear |
| Properties.NeverTaken | src/cpu.rs:802-841 | BEQ, BMI and BVS never branch, whatever the flags |
| Properties.StepDecoded | src/cpu.rs:877-946 | a step executes the decoded instruction on the state after the fetch |
| Properties.NoEffect | src/cpu.rs:842-871 | CLC–SEI, BRK and NOP leave the state unchanged |
| Properties.NoEffectStep | src/cpu.rs:842-871 | a step over such an opcode only moves PC past it |
| Properties.ResetSpec | src/cpu.rs:65-73 | `reset` gives the state `CPU::new` gives for the same program |
| Cpu.CPU.constructor | src/cpu.rs:53-64 | the new object holds `Semantics.New(program)` |
| Cpu.CPU.Reset | src/cpu.rs:65-73 | the object holds `Semantics.Reset` of its old state |
| Cpu.CPU.SetCarryFlag | src/cpu.rs:75-82 | only the status byte changes, to `SetCarry` of the old one |
| Cpu.CPU.SetZeroFlag | src/cpu.rs:84-91 | only the status byte changes, to `SetZero` of the old one |
| Cpu.CPU.SetInterruptDisableFlag | src/cpu.rs:93-95 | only the status byte changes, to `SetInterruptDisable` of the old one |
| Cpu.CPU.SetDecimalModeFlag | src/cpu.rs:97-99 | only the status byte changes, to `SetDecimalMode` of the old one |
| Cpu.CPU.SetBreakCommandFlag | src/cpu.rs:101-103 | only the status byte changes, to `SetBreakCommand` of the old one |
| Cpu.CPU.SetOverflowFlag | src/cpu.rs:105-107 | only the status byte changes, to `SetOverflow` of the old one |
| Cpu.CPU.SetNegativeFlag | src/cpu.rs:109-115 | only the status byte changes, to `SetNegative` of the old one |
| Cpu.CPU.ReadByte | src/cpu.rs:326-330 | returns and leaves what `Semantics.ReadByte` gives |
| Cpu.CPU.ReadShort | src/cpu.rs:332-337 | returns and leaves what `Semantics.ReadShort` gives |
| Cpu.CPU.LoadByte | src/memory.rs:16-18 | returns what `Semantics.LoadByte` gives, the fault included |
| Cpu.CPU.LoadShort | src/memory.rs:20-25 | returns what `Semantics.LoadShort` gives, the fault included |
| Cpu.CPU.StoreByte | src/memory.rs:34-37 | in place, what `Semantics.StoreByte` gives |
| Cpu.CPU.StackPushByte | src/cpu.rs:338-343 | in place, what `Semantics.StackPushByte` gives |
| Cpu.CPU.StackPushShort | src/cpu.rs:345-350 | in place, what `Semantics.StackPushShort` gives |
| Cpu.CPU.StackPopByte | src/cpu.rs:352-359 | in place, what `Semantics.StackPopByte` gives |
| Cpu.CPU.StackPopShort | src/cpu.rs:361-366 | in place, what `Semantics.StackPopShort` gives |
| Cpu.CPU.ModeHandler | src/cpu.rs:368-387 | in place, what `Semantics.ModeHandler` gives for the mode |
| Cpu.CPU.ImmediateHandler | src/cpu.rs:389-391 | in place, what the Immediate handler gives |
| Cpu.CPU.ZeroPageHandler | src/cpu.rs:393-396 | in place, what the ZeroPage handler gives |
| Cpu.CPU.ZeroPageXHandler | src/cpu.rs:397-400 | in place, what the ZeroPageX handler gives |
| Cpu.CPU.ZeroPageYHandler | src/cpu.rs:401-404 | in place, what the ZeroPageY handler gives |
| Cpu.CPU.RelativeHandler | src/cpu.rs:405-407 | in place, what the Relative handler gives |
| Cpu.CPU.AbsoluteHandler | src/cpu.rs:408-411 | in place, what the Absolute handler gives |
| Cpu.CPU.AbsoluteXHandler | src/cpu.rs:413-419 | in place, what the AbsoluteX handler gives |
| Cpu.CPU.AbsoluteYHandler | src/cpu.rs:420-425 | in place, what the AbsoluteY handler gives |
| Cpu.CPU.IndirectHandler | src/cpu.rs:426-430 | in place, what the Indirect handler gives |
| Cpu.CPU.IndirectXHandler | src/cpu.rs:431-438 | in place, what the IndirectX handler gives |
| Cpu.CPU.IndirectYHandler | src/cpu.rs:439-445 | in place, what the IndirectY handler gives |
| Cpu.CPU.Operand | src/cpu.rs:447-471 | in place, what `Semantics.Operand` gives |
| Cpu.CPU.Load | src/cpu.rs:447-471 | in place, what `Semantics.Load` gives |
| Cpu.CPU.Store | src/cpu.rs:472-483 | in place, what `Semantics.Store` gives |
| Cpu.CPU.Transfer | src/cpu.rs:484-508 | in place, what `Semantics.Transfer` gives |
| Cpu.CPU.TransferToStack | src/cpu.rs:509-511 | in place, what `Semantics.TransferToStack` gives |
| Cpu.CPU.Push | src/cpu.rs:515-528 | in place, what `Semantics.Push` gives |
| Cpu.CPU.PullAccumulator | src/cpu.rs:530-537 | in place, what `Semantics.PullAccumulator` gives |
| Cpu.CPU.PullFlags | src/cpu.rs:538-542 | in place, what `Semantics.PullFlags` gives |
| Cpu.CPU.Logic | src/cpu.rs:544-569 | in place, what `Semantics.Logic` gives |
| Cpu.CPU.Bit | src/cpu.rs:571-589 | in place, what `Semantics.Bit` gives |
| Cpu.CPU.Adc | src/cpu.rs:591-613 | in place, what `Semantics.Adc` gives |
| Cpu.CPU.Sbc | src/cpu.rs:615-639 | in place, what `Semantics.Sbc` gives |
| Cpu.CPU.Compare | src/cpu.rs:640-658 | in place, what `Semantics.Compare` gives |
| Cpu.CPU.CompareWith | src/cpu.rs:640-658 | in place, what `Semantics.CompareWith` gives |
| Cpu.CPU.Adjust | src/cpu.rs:659-686 | in place, what `Semantics.Adjust` gives |
| Cpu.CPU.CountRegister | src/cpu.rs:668-696 | in place, what `Semantics.CountRegister` gives |
| Cpu.CPU.Shift | src/cpu.rs:697-775 | in place, what `Semantics.Shift` gives |
| Cpu.CPU.ShiftAccumulator | src/cpu.rs:697-775 | in place, what `Semantics.ShiftAccumulator` gives |
| Cpu.CPU.ShiftMemory | src/cpu.rs:697-775 | in place, what `Semantics.ShiftMemory` gives |
| Cpu.CPU.ShiftInPlace | src/cpu.rs:697-775 | the shifted byte and status byte are `ShiftBy` of the operand and the old status; only the status byte changes |
| Cpu.CPU.Jmp | src/cpu.rs:776-780 | in place, what `Semantics.Jmp` gives |
| Cpu.CPU.Jsr | src/cpu.rs:783-795 | in place, what `Semantics.Jsr` gives |
| Cpu.CPU.BranchTo | src/cpu.rs:796-798 | PC moves to the branch target exactly when the condition holds; nothing else changes |
| Cpu.CPU.Branch | src/cpu.rs:802-841 | in place, what `Semantics.Branch` gives |
| Cpu.CPU.Rts | src/cpu.rs:799-801 | in place, what `Semantics.Rts` gives |
| Cpu.CPU.Rti | src/cpu.rs:872-875 | in place, what `Semantics.Rti` gives |
| Cpu.CPU.ExecuteInstruction | src/cpu.rs:877-939 | in place, what `Semantics.Execute` gives for the instruction |
| Cpu.CPU.FetchAndDecodeInstruction | src/cpu.rs:117-325 | in place, what `Semantics.FetchAndDecode` gives |
| Cpu.CPU.Step | src/cpu.rs:941-946 | one turn of the loop, in place, as `Semantics.Step` |
| Cpu.CPU.Run | src/cpu.rs:941-946 | `fuel` turns in place, as `Semantics.Run`; it stops at the first fault and returns it |
| Cpu.CPU.Turn | src/cpu.rs:941-946 | one turn keeps the loop invariant that the rest of the run equals the whole run |
| Scenarios.LdaImmediateExample | src/cpuTests.rs:120-126 | LDA #$aa: A = 0xaa, Negative set, PC 2 |
| Scenarios.LdaZeroPageExample | src/cpuTests.rs:128-133 | LDA $15 with 0x44 there: A = 0x44, PC 2 |
| Scenarios.TaxExample | src/cpuTests.rs:291-297 | TAX: X = 0x50, PC 1 |
| Scenarios.PhaExample | src/cpuTests.rs:300-306 | PHA: 0x50 at 0x0110, SP 0x0f, PC 1 |
| Scenarios.PlaExample | src/cpuTests.rs:309-315 | PLA: A = 0x50, SP 0x12, PC 1 |
| Scenarios.AndExample | src/cpuTests.rs:318-324 | AND #$06 with A = 0x0f: A = 0x06 |
| Scenarios.BitExample | src/cpuTests.rs:327-333 | BIT $20: status 0x60 |
| Scenarios.AdcZeroPage | src/cpuTests.rs:336-357 | ADC $20: A and status as `AddWithCarry` gives |
| Scenarios.AdcExamples | src/cpuTests.rs:336-357 | the three sums of testADC and their flags |
| Scenarios.JsrExample | src/cpuTests.rs:360-370 | JSR $1234: PC 0x1234, SP 2, the word 2 at 0x00ff |
| Scenarios.RtsExample | src/cpuTests.rs:372-379 | RTS with SP 2 and 5 at 0x00fe: PC 4, SP 0 |
| Scenarios.BccForwardExample | src/cpuTests.rs:388-393 | BCC +0x10: PC 0x12 |
| Scenarios.BccBackwardExample | src/cpuTests.rs:382-387 | BCC -2: PC 0 |
| Scenarios.NopExample | src/cpuTests.rs:396-404 | NOP: PC 1 only |
| Scenarios.PushPullExample | src/cpu.rs:515-542 | [PHA, PLA] from A = 5 ends with A = 0 |
| Scenarios.CallReturnExample | src/cpu.rs:783-801 | [JSR $0003, RTS] from `CPU::new` ends at PC 0x01ff, not 3 |

## Left out

- Loading the program from a file in `CPU::new`, and the `println!` output, are left out. The program is a parameter instead.
- `run` loops forever. `Run` takes a `fuel` count of turns and stops at the first fault. Composing runs and a frame property over a whole run are not proved.
- `runWithCallback` and the ROM-file tests (`testNESRom`, `testRun`) are left out. They depend on files and on a host callback.
- Decimal mode, interrupts and cycle timing are left out, because the core has none of them.
- After a panic the Rust process aborts. The model gives a `Fault` and no state, and the `Cpu.CPU` methods promise nothing about the object after an `Err`.
- The `Instruction` enum with one variant per mnemonic is modelled as a pair of mnemonic and addressing mode. The 151-entry table appears in full in `Instructions.Decode`. Per-opcode facts are proved only for the opcodes in `DecodeLdaImmediate`, `FetchAndDecodeSpec` and the scenarios.
- Integer overflow follows a debug build, where `PC += 1`, `PC - 1` and `value - val` panic and the model gives a `Fault`. The wrap-around a release build gives instead is not modelled.
- Cpu.CPU.Run: its `modifies` clause covers all registers and memory, so it states nothing narrower about what a run leaves unchanged.
- The tests' expectation that a failed check prints a message is left out. The scenarios state the resulting machine directly.
