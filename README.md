# vanadium, modelled in Dafny

vanadium is a small register virtual machine with an assembler for its
textual instruction language. This project models three parts of it and
proves properties about each:

- **The execution engine** (`src/vm.rs`).
  - The machine has 32 `i32` registers, a byte-offset program counter, the
    program bytes, a heap, a `u32` remainder and an equality flag.
  - The pure function `Vm.Execute` says what one fetch-decode-execute step
    does: the new machine and the boolean the step returns, or a panic.
  - The class `Vm.VM` keeps the same state in fields (registers in an
    `array`). Its methods `Step`, `RunOnce`, `Run`, `Next8`, `Next16`,
    `DecodeOpcode` and `AddByte` update those fields in place. Each one is
    proved against `Execute` or against the run functions.
  - `VmProperties` states, opcode by opcode, what changes and what stays.
    It also states the scenarios of the VM's unit tests as lemmas.
- **The assembler** (`src/assembler/*.rs`).
  - The nom parsers for opcodes, registers, integer operands, the five
    instruction forms, `instruction` and `program` are modelled as
    functions over strings. Each returns `Parsed(value, rest)`, `Failed`
    (so that `alt!` tries the next alternative) or `Panicked` (an `unwrap`
    on an oversized number).
  - `AssemblerInstruction::to_bytes` and `Program::to_bytes` are modelled
    twice: as loops (`ToBytes`) and as the functions those loops are proved
    to compute (`Encode`, `EncodeAll`).
  - Round-trip lemmas show that every instruction and program written out
    as text reads back as itself. Layout lemmas show that the encoded bytes
    are what the VM decodes.
- **`parse_hex`** (`src/repl/mod.rs`). It splits a line on single spaces
  and reads each piece as a hexadecimal byte. The method is proved against
  a function, and that function is proved to read back any bytes written
  as hexadecimal pairs.

Modules:

| module | models |
|---|---|
| `Numeric` | the `u8`/`u16`/`i32`/`u32` ranges; Rust's truncating `/` and `%`; the `as usize`, `as u16` and `as u32` casts |
| `Opcodes` | the byte ↔ opcode and mnemonic ↔ opcode tables |
| `Tokens` | the `Token` the parsers produce |
| `Vm`, `VmProperties` | `src/vm.rs` |
| `Parsing` | whitespace skipping (`ws!`), `digit`, `alpha1`, decimal numbers |
| `OpcodeParser`, `RegisterParser`, `OperandParser` | the three token parsers |
| `InstructionParser`, `InstructionProperties` | `src/assembler/instruction_parser.rs` |
| `ProgramParser` | `src/assembler/program_parser.rs` |
| `Repl` | `parse_hex` |
| `Pipeline` | the assembler and the VM together |

Where the code and its comments or tests disagree, the model follows the
code:

- **Byte order of LOAD.** The comment in the LOAD test calls the operand
  "little endian", but `next_16_bits` reads the high byte first.
  `Vm.VM.Next16` and `VmProperties.LoadStep` state the big-endian reading.
- **Comparison width.** EQ .. LTQ consume 3 bytes (opcode and two
  registers), not 4.
- **Conditional jump width.** JEQ and JNEQ consume 2 bytes (opcode and
  register).
- **The JMPB test.** It starts at pc 4, where the byte is a JMP, so it never
  runs the JMPB (`VmProperties.JmpbTestRunsJmp`).
- **The LTQ test.** It lays instructions out 4 bytes apart. Its second step
  therefore runs the padding 0 as HLT, and it passes only because the flag
  is left untouched (`VmProperties.LtqTestTrace`).
- **Form order.** `instruction` tries forms one, three, four, five and two,
  in that order.
- **No sign on integer operands.** A `-` after `#` is not a digit, so
  negative literals do not parse.
- **The `parse_hex` doc example.** The example `00 01 03 E8` is documented
  as a LOAD command. It reads back as those four bytes, but its first byte
  is HLT's (`Pipeline.DocExampleHalts`).
- **The `run` loop.** See Findings.

Opcode table:

- `src/instruction.rs` is not part of this model. It holds the byte and
  mnemonic tables, so `Opcodes` supplies a concrete total table.
- The values the VM's tests use are respected: HLT 0, LOAD 1, JMP 6 ..
  ALOC 17, and any unknown byte gives IGL.
- ADD .. DIV take 2 .. 5, NOP (an opcode without an arm in
  `execute_instruction`) takes 18, and IGL takes 19 and above. Properties
  of the VM are stated through `FromByte` and `ToByte`, or with the byte
  values listed in the previous line, never with 2 .. 5, 18 or 19.
- Mnemonics are the lower-case opcode names.

## Model

| member | source | states |
|---|---|---|
| `Numeric.AsUsize` | src/vm.rs:83 | `i32 as usize` on a 64-bit target: a non-negative value stays, a negative one lands in the upper half of the range |
| `Numeric.AsUint32` | src/vm.rs:80 | `as u32` adds 2^32 to a negative value and keeps a non-negative one |
| `Numeric.AsUint16` | src/assembler/instruction_parser.rs:37 | `as u16` keeps values in [0, 65535] and agrees with the value modulo 2^16 |
| `Numeric.TruncDiv` | src/vm.rs:79 | Rust's quotient: a non-zero quotient is negative exactly when the operands' signs differ |
| `Numeric.TruncRem` | src/vm.rs:80 | Rust's remainder: dividend = divisor × quotient + remainder, \|remainder\| < \|divisor\|, sign of the dividend |
| `Numeric.TruncDivision` | src/vm.rs:79-80 | quotient and remainder recompose the dividend, in all four sign cases |
| `Opcodes.ToByte` | src/assembler/instruction_parser.rs:20 | `code as u8` is inverted by the byte-to-opcode table |
| `Opcodes.ByteRoundTrip` | src/vm.rs:171-175 | every byte not decoded as IGL encodes its opcode |
| `Opcodes.PinnedBytes` | src/vm.rs:219-395 | the byte values the tests use: HLT 0, LOAD 1, JMP 6 .. ALOC 17, 200 is IGL |
| `Opcodes.Mnemonic` | src/assembler/opcode_parser.rs:10 | every opcode but IGL has a non-empty name |
| `Opcodes.FromMnemonic` | src/assembler/opcode_parser.rs:10 | a word maps to an opcode other than IGL only when it is that opcode's name |
| `Opcodes.MnemonicRoundTrip` | src/assembler/opcode_parser.rs:10 | reading an opcode's name gives that opcode |
| `Vm.Initial` | src/vm.rs:20-29 | `VM::new`: 32 registers, pc 0, empty program and heap |
| `Vm.Execute` | src/vm.rs:42-157 | a step that does not panic keeps 32 registers and never changes the program |
| `Vm.Dispatch` | src/vm.rs:47-156 | each arm of the match keeps the register count and the program |
| `Vm.ExecLoad` | src/vm.rs:56-60 | the LOAD arm keeps the register count and the program |
| `Vm.ExecArith` | src/vm.rs:61-81 | the arithmetic arms keep the register count and the program |
| `Vm.ExecCompare` | src/vm.rs:94-129 | the comparison arms keep the register count and the program |
| `Vm.ExecJump` | src/vm.rs:82-93 | the jump arms keep the register count and the program |
| `Vm.ExecBranch` | src/vm.rs:130-145 | the conditional jump arms keep the register count and the program |
| `Vm.ExecAloc` | src/vm.rs:146-150 | the ALOC arm keeps the register count and the program |
| `Vm.ZerosAreZero` | src/vm.rs:149 | the bytes `resize` adds are all 0 |
| `Vm.RunAsWritten` | src/vm.rs:31-36 | `run` as written, bounded by fuel: the machine it ends with is well formed |
| `Vm.RunToHalt` | src/vm.rs:31-36 | the loop `run` evidently means, bounded by fuel: the machine it ends with is well formed |
| `Vm.RunAsWrittenFirstStep` | src/vm.rs:33-34 | a run as written that does not panic takes its first step without panicking |
| `Vm.RunAsWrittenAdvance` | src/vm.rs:33-34 | one loop turn of `run` as written: it goes on from the new state when the step returns true, and ends there otherwise |
| `Vm.RunToHaltFirstStep` | src/vm.rs:33-34 | a corrected run that does not panic takes its first step without panicking |
| `Vm.RunToHaltAdvance` | src/vm.rs:33-34 | one loop turn of the corrected run: it ends after a halting step and goes on from the new state otherwise |
| `Vm.VM.constructor` | src/vm.rs:20-29 | `VM::new` gives the initial machine with a fresh register array |
| `Vm.VM.Next8` | src/vm.rs:159-163 | `next_8_bits` returns the byte at pc and moves pc by 1 |
| `Vm.VM.Next16` | src/vm.rs:165-169 | `next_16_bits` returns high byte × 256 + low byte and moves pc by 2 |
| `Vm.VM.DecodeOpcode` | src/vm.rs:171-175 | `decode_opcode` returns the opcode of the byte at pc and moves pc by 1 |
| `Vm.VM.AddByte` | src/vm.rs:177-179 | `add_byte` appends exactly one byte to the program |
| `Vm.VM.Step` | src/vm.rs:42-157 | `execute_instruction` changes the fields into the state `Execute` gives and returns its boolean |
| `Vm.VM.Load` | src/vm.rs:56-60 | the LOAD arm, in place, does what `ExecLoad` describes |
| `Vm.VM.Arith` | src/vm.rs:61-81 | the ADD/SUB/MUL/DIV arms, in place, do what `ExecArith` describes |
| `Vm.VM.Comparison` | src/vm.rs:94-129 | the EQ .. LTQ arms, in place, do what `ExecCompare` describes |
| `Vm.VM.Jump` | src/vm.rs:82-93 | the JMP/JMPF/JMPB arms, in place, do what `ExecJump` describes |
| `Vm.VM.Branch` | src/vm.rs:130-145 | the JEQ/JNEQ arms, in place, do what `ExecBranch` describes |
| `Vm.VM.Aloc` | src/vm.rs:146-150 | the ALOC arm, in place, does what `ExecAloc` describes |
| `Vm.VM.RunOnce` | src/vm.rs:38-40 | `run_once` performs exactly one step |
| `Vm.VM.StepAsWritten` | src/vm.rs:33-34 | one turn of `run`'s loop as written keeps the state on the path of `RunAsWritten` |
| `Vm.VM.Run` | src/vm.rs:31-36 | `run`'s loop ends in the state `RunAsWritten` predicts (finished, or out of fuel) |
| `Vm.VM.StepUntilHalt` | src/vm.rs:31-36 | one turn of the corrected loop keeps the state on the path of `RunToHalt` |
| `Vm.VM.RunUntilHalt` | src/vm.rs:31-36 | the corrected loop ends in the state `RunToHalt` predicts |
| `VmProperties.StepPastEnd` | src/vm.rs:43-45 | past the end of the program a step returns true and changes nothing |
| `VmProperties.HaltingAndUnrecognizedSteps` | src/vm.rs:48-55 | HLT and IGL move pc by 1, change nothing else and return true; an opcode without an arm does the same but returns false (lines 151-154) |
| `VmProperties.UnknownByteHalts` | src/vm.rs:171-175 | a byte the table decodes as IGL halts the step, moves pc past the byte and leaves the rest of the machine alone |
| `VmProperties.LoadStep` | src/vm.rs:56-60 | LOAD sets register r to hi × 256 + lo (in [0, 65535]), moves pc by 4, changes nothing else; it panics exactly on a missing byte or r ≥ 32 |
| `VmProperties.ArithStep` | src/vm.rs:61-81 | ADD/SUB/MUL/DIV read src1, src2, dest in order, set dest to the result, move pc by 4; DIV alone sets the remainder; nothing else changes |
| `VmProperties.ArithPanics` | src/vm.rs:61-81 | with valid indices, arithmetic panics exactly on i32 overflow, or for DIV on a zero divisor or `i32::MIN / -1` |
| `VmProperties.DivOverflowsOnlyAtMinByMinusOne` | src/vm.rs:79 | the quotient of two i32 values overflows only for `i32::MIN / -1` |
| `VmProperties.DivExamples` | src/vm.rs:79-80 | 10 / 3 = 3 rem 1; -7 / 2 = -3 rem -1, stored as 2^32 - 1 |
| `VmProperties.CompareStep` | src/vm.rs:94-129 | EQ .. LTQ take 3 bytes and set only the flag, to ==, !=, >, <, >= or <=; they panic exactly on a missing byte or a bad index |
| `VmProperties.JumpStep` | src/vm.rs:82-93 | JMP sets pc to the register `as usize`; JMPF/JMPB add that to, or subtract it from, old pc + 2, panicking when that leaves the usize range; a negative register is a target 2^64 below its value |
| `VmProperties.BranchStep` | src/vm.rs:130-145 | JEQ (JNEQ) with the flag set (clear) jumps to the register and returns true; otherwise pc moves by 2 and it returns false |
| `VmProperties.AlocStep` | src/vm.rs:146-150 | ALOC panics exactly on a missing byte, a bad index, a negative size or a length past `isize::MAX`; otherwise it grows the heap by exactly the register's value, old bytes stay, new bytes are 0, and only pc changes besides |
| `VmProperties.AlocNegativePanics` | src/vm.rs:147-149 | a negative size cannot be allocated |
| `VmProperties.StepWidth` | src/vm.rs:42-157 | an instruction that falls through moves pc by its width; no step changes the program or shrinks the heap |
| `VmProperties.TestVm` | src/vm.rs:207-210 | the test setup is a well-formed machine |
| `VmProperties.LoadTest` | src/vm.rs:237-242 | `[1, 0, 1, 244]` loads 500 into register 0 |
| `VmProperties.JmpTest` | src/vm.rs:245-251 | JMP to register 0 = 1 gives pc 1 |
| `VmProperties.JmpfTest` | src/vm.rs:254-260 | JMPF by 2 from pc 0 gives pc 4 |
| `VmProperties.JmpbTestRunsJmp` | src/vm.rs:263-270 | the JMPB test runs a JMP to 2; a JMPB at pc 4 would give pc 4 |
| `VmProperties.EqTest` | src/vm.rs:273-283 | EQ sets the flag for 10 == 10 and clears it for 10 == 20 |
| `VmProperties.NeqTest` | src/vm.rs:286-296 | NEQ clears the flag for 10, 10 and sets it for 10, 20 |
| `VmProperties.GtTest` | src/vm.rs:299-309 | GT sets the flag for 20 > 10 and clears it for 20 > 30 |
| `VmProperties.LtTest` | src/vm.rs:312-322 | LT sets the flag for 10 < 20 and clears it for 10 < 5 |
| `VmProperties.GtqTest` | src/vm.rs:325-338 | GTQ sets the flag for 20 >= 10 and 20 >= 20, clears it for 20 >= 30 |
| `VmProperties.LtqTestTrace` | src/vm.rs:341-354 | the LTQ test's second step runs a HLT at pc 3; the flags it checks hold anyway |
| `VmProperties.JeqTest` | src/vm.rs:357-370 | the JEQ test's three steps give pc 4, 0 and 2 |
| `VmProperties.JneqTest` | src/vm.rs:373-386 | the JNEQ test's three steps give pc 2, 4 and 0 |
| `VmProperties.AlocTest` | src/vm.rs:389-395 | ALOC of 1024 gives a 1024-byte heap |
| `VmProperties.RunAsWrittenSpinsPastEnd` | src/vm.rs:31-36 | as written, `run` never returns once pc is past the end |
| `VmProperties.RunAsWrittenStopsAfterOrdinaryStep` | src/vm.rs:31-36 | as written, `run` returns right after the first step that returns false |
| `VmProperties.RunAsWrittenNeverReturnsOnHalts` | src/vm.rs:31-36 | as written, `run` never returns on a program of HLT and IGL bytes |
| `VmProperties.HaltTestsNeverReturn` | src/vm.rs:219-234 | as written, the HLT and IGL tests never return from `run` |
| `VmProperties.RunToHaltStopsAtHalt` | src/vm.rs:48-55 | corrected: HLT, IGL or an opcode without an arm ends the run just past that byte |
| `VmProperties.RunToHaltHaltTests` | src/vm.rs:219-234 | corrected: the HLT and IGL tests end with pc 1 |
| `VmProperties.RunToHaltPastEnd` | src/vm.rs:43-45 | corrected: past the end the run stops at once, unchanged |
| `VmProperties.RunToHaltLoadThenHalt` | src/vm.rs:31-60 | corrected: LOAD then HLT runs both and stops at pc 5 with 500 loaded |
| `VmProperties.RunToHaltContinuesAfterBranch` | src/vm.rs:130-145 | corrected: a JEQ/JNEQ step does not stop the run |
| `Parsing.SkipSpaces` | src/assembler/register_parser.rs:7 | `ws!`'s skipping drops a prefix made only of separators and stops at a non-separator |
| `Parsing.SkipSpacesPrefix` | src/assembler/register_parser.rs:7 | separators in front of a non-separator are exactly what is skipped |
| `Parsing.DigitRun` | src/assembler/register_parser.rs:10 | `digit` measures the longest prefix of digits |
| `Parsing.AlphaRun` | src/assembler/opcode_parser.rs:8 | `alpha1` measures the longest prefix of letters |
| `Parsing.DigitRunOf` | src/assembler/register_parser.rs:10 | a run of digits before a non-digit is measured whole |
| `Parsing.AlphaRunOf` | src/assembler/opcode_parser.rs:8 | a run of letters before a non-letter is measured whole |
| `Parsing.Decimal` | src/assembler/operand_parser.rs:15 | the decimal digits of n read back as n |
| `Parsing.SpacedDigits` | src/assembler/operand_parser.rs:10-19 | separators, digits, separators: on success something is consumed and the rest starts with no separator |
| `Parsing.TaggedNumber` | src/assembler/operand_parser.rs:10-19 | `ws!(tag >> digit)`: success needs the tag after the separators, consumes input and never panics |
| `Parsing.SkipSpacesIdempotent` | src/assembler/operand_parser.rs:10 | skipping separators twice is skipping them once |
| `Parsing.TaggedNumberSkipsSpaces` | src/assembler/operand_parser.rs:10 | leading separators do not change the result |
| `Parsing.TaggedNumberNeedsTag` | src/assembler/operand_parser.rs:12 | without the tag the parser fails |
| `Parsing.TaggedNumberNeedsDigit` | src/assembler/operand_parser.rs:13 | a tag not followed by a digit fails |
| `Parsing.TaggedStart` | src/assembler/operand_parser.rs:10-13 | after separators and the tag, the digits decide |
| `Parsing.SpacedDigitsOf` | src/assembler/operand_parser.rs:13 | a maximal run of digits is read as its decimal value |
| `Parsing.TaggedDigits` | src/assembler/operand_parser.rs:10-19 | separators, tag and digits give the digits' value; trailing separators are dropped |
| `Parsing.TaggedNumberRoundTrip` | src/assembler/operand_parser.rs:10-19 | the tag and the decimal rendering of n read back as n |
| `RegisterParser.ParseRegister` | src/assembler/register_parser.rs:5-16 | yields a Register and consumes input, fails exactly when `$` and a digit are missing, panics above 255 |
| `RegisterParser.RegisterSkipsSpaces` | src/assembler/register_parser.rs:7 | leading separators do not change the result |
| `RegisterParser.RegisterRoundTrip` | src/assembler/register_parser.rs:5-16 | `$` and the digits of a byte read back as that register |
| `RegisterParser.RegisterOverflowPanics` | src/assembler/register_parser.rs:12 | a register number above 255 panics |
| `RegisterParser.RegisterZeroTest` | src/assembler/register_parser.rs:23-24 | `$0` is register 0 |
| `RegisterParser.RegisterRejectTests` | src/assembler/register_parser.rs:25-28 | `0` and `$a` fail |
| `OperandParser.ParseIntegerOperand` | src/assembler/operand_parser.rs:8-19 | yields a non-negative IntegerOperand and consumes input, fails exactly when `#` and a digit are missing |
| `OperandParser.IntegerOperandSkipsSpaces` | src/assembler/operand_parser.rs:10 | leading separators do not change the result |
| `OperandParser.IntegerOperandRoundTrip` | src/assembler/operand_parser.rs:8-19 | `#` and the digits of any value up to `i32::MAX` read back as that value |
| `OperandParser.IntegerOperandOverflowPanics` | src/assembler/operand_parser.rs:15 | a value above `i32::MAX` panics |
| `OperandParser.IntegerOperandTest` | src/assembler/operand_parser.rs:28-32 | `#10` is 10 with nothing left |
| `OperandParser.IntegerOperandRejectTests` | src/assembler/operand_parser.rs:34-36 | `10` fails, and so does `#-1` |
| `OpcodeParser.ParseOpcode` | src/assembler/opcode_parser.rs:6-13 | succeeds exactly on a leading letter, consumes the maximal run of letters, always yields an Op, never panics |
| `OpcodeParser.OpcodeNamesWord` | src/assembler/opcode_parser.rs:10 | the opcode is the one the consumed word names |
| `OpcodeParser.MnemonicIsAlpha` | src/assembler/opcode_parser.rs:8 | every name is made of letters |
| `OpcodeParser.OpcodeRoundTrip` | src/assembler/opcode_parser.rs:6-13 | a name followed by a non-letter reads back as its opcode |
| `OpcodeParser.UnknownWordIsIllegal` | src/assembler/opcode_parser.rs:6-13 | a word that names no opcode gives IGL, not a failure |
| `OpcodeParser.OpcodeTests` | src/assembler/opcode_parser.rs:24-28 | `load` is LOAD with nothing left; ` load` and the empty string fail |
| `OpcodeParser.UnknownWordTest` | src/assembler/opcode_parser.rs:29-31 | `aold` gives IGL |
| `InstructionParser.Operands` | src/assembler/instruction_parser.rs:24 | the operands present, at most three, in order |
| `InstructionParser.OperandBytes` | src/assembler/instruction_parser.rs:31-42 | a register is one byte, its number; an integer is two bytes whose high × 256 + low is the value truncated to 16 bits |
| `InstructionParser.OperandsBytes` | src/assembler/instruction_parser.rs:24-26 | the operands' bytes take exactly their total width |
| `InstructionParser.OperandsBytesSome` | src/assembler/instruction_parser.rs:43-46 | operands encode exactly when none of them is an opcode |
| `InstructionParser.Encode` | src/assembler/instruction_parser.rs:17-29 | no opcode in the opcode field gives nothing; the length is 1 + the operands' width |
| `InstructionParser.EncodeSome` | src/assembler/instruction_parser.rs:17-48 | an instruction encodes exactly when its opcode field is an opcode and no operand is |
| `InstructionParser.EncodedOpcode` | src/assembler/instruction_parser.rs:19-22 | the first byte decodes to the instruction's opcode |
| `InstructionParser.ExtractOperand` | src/assembler/instruction_parser.rs:31-48 | `extract_operand` appends the operand's bytes, or stops on an opcode |
| `InstructionParser.OperandsBytesSnoc` | src/assembler/instruction_parser.rs:24-26 | one more operand appends its bytes |
| `InstructionParser.ToBytes` | src/assembler/instruction_parser.rs:17-29 | `to_bytes`'s loop computes `Encode` |
| `InstructionParser.OperandsBytesNone` | src/assembler/instruction_parser.rs:43-46 | once an operand is an opcode, the instruction does not encode |
| `InstructionParser.Alt` | src/assembler/instruction_parser.rs:131 | `alt!` fails only when both fail and otherwise keeps the first result that did not fail |
| `InstructionParser.InstructionOne` | src/assembler/instruction_parser.rs:51-65 | form one builds `opcode $r #n` and consumes input |
| `InstructionParser.InstructionTwo` | src/assembler/instruction_parser.rs:67-79 | form two fails exactly when the opcode parser does and leaves what it leaves |
| `InstructionParser.InstructionThree` | src/assembler/instruction_parser.rs:81-96 | form three builds `opcode $r $r $r` and consumes input |
| `InstructionParser.InstructionFour` | src/assembler/instruction_parser.rs:98-112 | form four builds `opcode $r $r` and consumes input |
| `InstructionParser.InstructionFive` | src/assembler/instruction_parser.rs:114-127 | form five builds `opcode $r` and consumes input |
| `InstructionParser.ParseInstruction` | src/assembler/instruction_parser.rs:129-136 | fails exactly when the input does not start with a letter; otherwise builds one of the five forms |
| `InstructionParser.FormOneFirst` | src/assembler/instruction_parser.rs:131 | form one is tried first |
| `InstructionParser.ConformingEncodes` | src/assembler/instruction_parser.rs:17-29 | every instruction the parsers build encodes, to 1 + operand width bytes |
| `InstructionParser.ParsedInstructionEncodes` | src/assembler/instruction_parser.rs:129-136 | whatever `instruction` builds encodes without exiting |
| `InstructionProperties.OperandParsersSkipSpaces` | src/assembler/register_parser.rs:7 | `ws!` makes leading separators irrelevant to both operand parsers |
| `InstructionProperties.ReadRegister` | src/assembler/register_parser.rs:5-16 | ` $n` reads back as register n |
| `InstructionProperties.ReadInteger` | src/assembler/operand_parser.rs:8-19 | ` #v` reads back as v |
| `InstructionProperties.OperandMismatch` | src/assembler/operand_parser.rs:12 | a register parser fails where no `$` is, an integer parser where no `#` is |
| `InstructionProperties.SpacedRegisterFirst` | src/assembler/register_parser.rs:7-9 | after the separators, a register's text starts with `$` |
| `InstructionProperties.NoOperandAfter` | src/assembler/instruction_parser.rs:51-127 | a delimited tail offers no operand |
| `InstructionProperties.FormOneReads` | src/assembler/instruction_parser.rs:51-65 | form one reads `opcode $r #n` back |
| `InstructionProperties.FormOneRoundTrip` | src/assembler/instruction_parser.rs:129-136 | `instruction` reads `opcode $r #n` back through form one |
| `InstructionProperties.FormOneLine` | src/assembler/instruction_parser.rs:51-65 | the text of any form-one instruction reads back through form one |
| `InstructionProperties.FormTwoRoundTrip` | src/assembler/instruction_parser.rs:129-136 | a bare opcode is read by form two after the others fail, leaving the tail untouched |
| `InstructionProperties.TwoRegisters` | src/assembler/instruction_parser.rs:98-112 | two registers after an opcode: form one fails and form four reads both |
| `InstructionProperties.FormFourRoundTrip` | src/assembler/instruction_parser.rs:129-136 | `opcode $r $r` is read by form four |
| `InstructionProperties.FormThreeRoundTrip` | src/assembler/instruction_parser.rs:129-136 | `opcode $r $r $r` is read by form three |
| `InstructionProperties.FormFiveRoundTrip` | src/assembler/instruction_parser.rs:129-136 | `opcode $r` is read by form five |
| `InstructionProperties.InstructionRoundTrip` | src/assembler/instruction_parser.rs:51-136 | every instruction with a textual form reads back as itself |
| `InstructionProperties.FormOneBytes` | src/assembler/instruction_parser.rs:17-42 | `opcode $r #n` is 4 bytes: opcode, register, the 16-bit value high byte first |
| `InstructionProperties.EncodeRejectsMisplacedOpcodes` | src/assembler/instruction_parser.rs:21 | a non-opcode opcode field, or an opcode in the first operand, does not encode (`InstructionParser.EncodeSome` covers every operand) |
| `InstructionProperties.FormOneTest` | src/assembler/instruction_parser.rs:144-158 | `load $0 #100\n` is LOAD, register 0, 100, nothing left |
| `InstructionProperties.FormTwoTest` | src/assembler/instruction_parser.rs:161-175 | `hlt\n` is HLT, leaving `\n` |
| `ProgramParser.Concat` | src/assembler/program_parser.rs:14 | concatenation keeps both parts, in order, and exists only when both do |
| `ProgramParser.ConcatAssociative` | src/assembler/program_parser.rs:13-15 | extending piece by piece does not depend on grouping |
| `ProgramParser.EncodeAll` | src/assembler/program_parser.rs:11-17 | no instructions give no bytes; each instruction adds at least one |
| `ProgramParser.EncodeAllAppend` | src/assembler/program_parser.rs:11-17 | the bytes of a + b are those of a followed by those of b |
| `ProgramParser.EncodeAllSingle` | src/assembler/program_parser.rs:14 | one instruction gives its own bytes |
| `ProgramParser.EncodeAllSnoc` | src/assembler/program_parser.rs:13-15 | one more instruction appends its bytes |
| `ProgramParser.EncodeAllPrefixNone` | src/assembler/program_parser.rs:13-15 | a prefix that does not encode spoils the whole |
| `ProgramParser.ToBytes` | src/assembler/program_parser.rs:11-17 | `Program::to_bytes`'s loop computes `EncodeAll` |
| `ProgramParser.Instructions` | src/assembler/program_parser.rs:23 | the repetition of form one never fails and leaves a suffix |
| `ProgramParser.InstructionsStep` | src/assembler/program_parser.rs:23 | the list is the first instruction followed by the list after it |
| `ProgramParser.InstructionsFormOne` | src/assembler/program_parser.rs:23 | every instruction read is of form one |
| `ProgramParser.InstructionsStop` | src/assembler/program_parser.rs:23 | reading stops only where form one fails |
| `ProgramParser.ParseProgram` | src/assembler/program_parser.rs:20-30 | fails exactly when form one fails at the start; otherwise at least one form-one instruction, stopping where form one fails |
| `ProgramParser.ParsedProgramEncodes` | src/assembler/program_parser.rs:11-17 | a parsed program encodes to 4 bytes per instruction |
| `ProgramParser.LinesStartWithLetter` | src/assembler/program_parser.rs:23 | a program's text starts with a letter |
| `ProgramParser.LineRoundTrip` | src/assembler/program_parser.rs:23 | a line reads back as its instruction, leaving the next line |
| `ProgramParser.InstructionsCons` | src/assembler/program_parser.rs:23 | one instruction, then the rest of the list |
| `ProgramParser.FirstLine` | src/assembler/program_parser.rs:23 | the first line of a program's text reads back as its first instruction |
| `ProgramParser.LinesRoundTrip` | src/assembler/program_parser.rs:23 | lines of form one read back as exactly those instructions |
| `ProgramParser.ProgramRoundTrip` | src/assembler/program_parser.rs:20-30 | one or more lines parse as the program made of them |
| `ProgramParser.ProgramTest` | src/assembler/program_parser.rs:36-53 | `load $0 #100\n` is one instruction, nothing left, 4 bytes |
| `Repl.Split` | src/repl/mod.rs:119 | `split(" ")` gives at least one piece |
| `Repl.SplitCons` | src/repl/mod.rs:119 | a space starts a new piece, any other character joins the first |
| `Repl.SplitPiecesHaveNoSpace` | src/repl/mod.rs:119 | no piece holds a space |
| `Repl.JoinSplit` | src/repl/mod.rs:119 | joining the pieces with spaces gives the line back |
| `Repl.SplitAppend` | src/repl/mod.rs:119 | a space splits the line into the pieces before and after it |
| `Repl.SplitNoSpace` | src/repl/mod.rs:119 | text without a space is one piece |
| `Repl.SplitJoin` | src/repl/mod.rs:119 | splitting undoes joining pieces without spaces |
| `Repl.HexDigitValue` | src/repl/mod.rs:122 | a hexadecimal digit is worth less than 16 |
| `Repl.HexDigitsOf` | src/repl/mod.rs:122 | `from_str_radix` drops at most one leading character |
| `Repl.HexDigitsOfSign` | src/repl/mod.rs:122 | the dropped character is a leading `+` with more text after it; any other text is kept as is |
| `Repl.ByteFromHex` | src/repl/mod.rs:122 | a piece that reads as a byte is non-empty and spaceless, and every character after the first is a hexadecimal digit |
| `Repl.ByteFromHexValue` | src/repl/mod.rs:122 | a piece that reads as a byte starts with `+` or a hexadecimal digit, is all hexadecimal after the sign, and the byte is the value of those digits |
| `Repl.ByteFromHexDigits` | src/repl/mod.rs:122 | digits worth at most FF read as that byte, with or without `+` |
| `Repl.ByteFromHexOverflow` | src/repl/mod.rs:122 | digits worth more than FF are an error |
| `Repl.ParsePieces` | src/repl/mod.rs:121-132 | all bytes exactly when every piece is one, one byte per piece, in order |
| `Repl.ReadPrefixSnoc` | src/repl/mod.rs:124-126 | pushing the next piece's byte extends what has been read |
| `Repl.ParsePiecesAll` | src/repl/mod.rs:132 | bytes read from every piece, in order, are the result |
| `Repl.ParsePiecesStops` | src/repl/mod.rs:127-129 | one piece that is not a byte makes the result the error |
| `Repl.ParseHex` | src/repl/mod.rs:118-133 | `parse_hex`'s loop computes `HexBytes` |
| `Repl.HexByte` | src/repl/mod.rs:115-116 | a byte as two hexadecimal digits worth that byte |
| `Repl.ByteFromHexByte` | src/repl/mod.rs:122 | a byte's two digits read back as that byte |
| `Repl.HexRoundTrip` | src/repl/mod.rs:118-133 | any non-empty run of bytes written as hexadecimal pairs reads back |
| `Repl.EmptyLineRejected` | src/repl/mod.rs:127-129 | an empty line is an error |
| `Repl.DoubleSpaceRejected` | src/repl/mod.rs:119-129 | two spaces in a row make the line an error |
| `Repl.OverflowRejected` | src/repl/mod.rs:122-129 | a piece above FF makes the line an error |
| `Repl.DocExampleText` | src/repl/mod.rs:116 | `[00, 01, 03, E8]` is written `00 01 03 E8` |
| `Repl.DocExample` | src/repl/mod.rs:115-116 | `00 01 03 E8` gives `[0x00, 0x01, 0x03, 0xE8]` |
| `Pipeline.EncodedOpcodeDecodes` | src/assembler/instruction_parser.rs:19-22 | the VM decodes an encoded instruction's first byte as its opcode |
| `Pipeline.EncodedLoadExecutes` | src/vm.rs:56-60 | an encoded `load $r #v` loads v truncated to 16 bits and moves pc by 4 |
| `Pipeline.LoadLineWritable` | src/assembler/program_parser.rs:23 | `load $r #v` with v ≤ 65535 has a textual line |
| `Pipeline.Assemble` | src/repl/mod.rs:98-108 | the REPL answers "Unable to parse input" exactly when the program parser fails, crashes exactly when the parser panics, and otherwise assembles 4 bytes per parsed instruction |
| `Pipeline.RegisterOverflowCrashes` | src/assembler/register_parser.rs:12 | `load $300 #1` crashes the REPL: the register's `unwrap` panics inside `program`, which is not the `Err` arm |
| `Pipeline.BareOpcodeUnparsable` | src/repl/mod.rs:98-103 | `hlt` is not a form-one instruction, so the REPL answers that it cannot parse it |
| `Pipeline.LoadLineAssembles` | src/repl/mod.rs:40-108 | the trimmed line `load $r #v` (no newline) assembles to that instruction's 4 bytes |
| `Pipeline.AssembledLoadRuns` | src/repl/mod.rs:40-109 | assembling the trimmed line `load $r #v` and stepping a fresh VM leaves v in register r |
| `Pipeline.LoadBytesRun` | src/vm.rs:56-60 | the four bytes of `load $r #v` run on a fresh VM leave v in register r and pc at 4 |
| `Pipeline.RenderedLineParses` | src/assembler/program_parser.rs:20-30 | a form-one instruction's text with nothing after it parses as the one-instruction program, consuming everything |
| `Pipeline.WholeTextOneInstruction` | src/assembler/program_parser.rs:20-30 | text that reads as exactly one form-one instruction is the program of that instruction |
| `Pipeline.EndOfInputEmpty` | src/assembler/program_parser.rs:23 | at the end of the input `many1!`'s loop reads no instruction |
| `Pipeline.ProgramOfInstructions` | src/assembler/program_parser.rs:20-30 | a non-empty list of instructions read from the text is the program read from it, with the same rest |
| `Pipeline.DocExampleHalts` | src/repl/mod.rs:116 | the documented LOAD example starts with HLT's byte and halts after it |

Proof helpers, which state no property of the source and have no row:
`VmProperties.OpAt`, `Width`, `FallsThrough`, `DivMonotone`;
`Repl.HexDigitChar`, `HexValuePair`, `HexText`, `DocExampleBytes`,
`ExtendFirst`; `InstructionProperties.DecimalExamples`, `NewlineDelimits`,
`FormOneTestText`, `FormTwoTestText`, `RegroupOne`, `Regroup`,
`RegroupThree`; `ProgramParser.AllFormOneCons`, `HeadTail`;
`Parsing.SuffixTransitive`, `DigitValue`, `DigitChar`, `Associate`;
`Pipeline.AppendEmpty`, `LoadWordRead`, `RegisterOverflowRead`. The predicates and functions that only name a
concept (well-formedness, operand forms, widths, rendering, the hex and
digit classes, `Line` and `Lines`) carry no contract of their own.

## Left out

- **The REPL shell.** The loop, stdin/stdout, history, the commands and
  `process::exit` are not modelled. Of `src/repl/mod.rs` only `parse_hex`
  is. `Pipeline.Assemble` states what the REPL does with a program line,
  including the crash when the parser panics.
- **Printing.** The `println!` calls in `execute_instruction` are left out,
  and so are the display helpers, which print and use `f64` `sqrt`.
- **The opcode table and the `Token` enum.** `src/instruction.rs` and
  `src/assembler/opcode.rs` are not part of this model. The tables and the
  `Token` shape are taken from how the VM's tests and the parsers use them.
- **Panics.**
  - The panics of a step (register index ≥ 32, a missing operand byte,
    i32 overflow, division by zero, `i32::MIN / -1`, JMPF/JMPB leaving the
    `usize` range, a heap past `isize::MAX`) become the `Panicked`
    outcome of `Vm.Execute`.
  - The `Vm.VM` methods require that the step does not panic.
  - `usize` is taken to be 64 bits wide.
  - A release build would wrap instead of panicking on i32 overflow; that
    behaviour is not modelled.
- **`unwrap` on an oversized number.** It becomes the `Panicked` parse
  result, which `alt!` does not catch.
- Vm.VM.Run: `run` as written may loop forever. The model bounds it by a
  `fuel` count of steps and reports `OutOfFuel` when the bound is reached,
  so a run that never ends is seen only up to that bound. The same holds
  for `Vm.VM.RunUntilHalt`.
- **Heap.** It is a sequence that the ALOC arm replaces; the allocation
  itself is not modelled.
- **`alpha1`.** It accepts Unicode letters; the model accepts ASCII letters
  only.
- Repl.ParseHex: the kind of `ParseIntError` (empty, invalid digit,
  overflow) is not kept, only that an error occurred.
- **Digits and separators.**
  - `digit` is taken as ASCII `0`-`9`.
  - `ws!`'s separators are space, tab, carriage return and newline.

## Findings

| source | as written | input that shows it | evidently intended | confidence | as-written member | corrected member |
|---|---|---|---|---|---|---|
| src/vm.rs:31-36 | `run` keeps looping while the step returns true. A step returns true on HLT, on IGL and past the end, and false after an ordinary instruction. So `run` returns after the first ordinary instruction and never returns once halted | the program `[0, 0, 0, 0]` (the HLT test at src/vm.rs:219-225) or `[200, 0, 0, 0]` (the IGL test) | step until a step halts the machine (end of program, HLT, IGL or an opcode without an arm), so the HLT and IGL tests end with pc 1 | not executed | `VmProperties.HaltTestsNeverReturn` | `VmProperties.RunToHaltHaltTests` |
