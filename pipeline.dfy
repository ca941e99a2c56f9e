/**
 * The assembler and the VM together: bytes the encoder produces are
 * decoded by the VM as the instruction they came from.
 */
module Pipeline {
  import opened Numeric
  import opened Opcodes
  import opened Tokens
  import opened InstructionParser
  import opened InstructionProperties
  import opened ProgramParser
  import Parsing
  import OpcodeParser
  import RegisterParser
  import Vm
  import VmProperties
  import Repl

  /** `load $r #v`. */
  function LoadInstruction(r: uint8, v: int32): AssemblerInstruction {
    AssemblerInstruction(Op(LOAD), Some(Register(r)), Some(IntegerOperand(v)), None)
  }

  /** The program holds the bytes `b` from the machine's pc on. */
  predicate CodeAt(m: Vm.Machine, b: seq<uint8>) {
    m.pc + |b| <= |m.program| && m.program[m.pc..m.pc + |b|] == b
  }

  /** The VM decodes the first encoded byte as the instruction's opcode. */
  lemma EncodedOpcodeDecodes(m: Vm.Machine, ins: AssemblerInstruction)
    requires Encode(ins).Some? && CodeAt(m, Encode(ins).value)
    ensures m.pc < |m.program| && VmProperties.OpAt(m) == ins.opcode.code
  {
    EncodedOpcode(ins);
    assert m.program[m.pc] == Encode(ins).value[0];
  }

  /**
   * An encoded `load $r #v` in front of the pc loads `v` truncated to 16
   * bits into register r and moves the pc past its four bytes.
   */
  lemma EncodedLoadExecutes(m: Vm.Machine, r: uint8, v: int32)
    requires Vm.WellFormed(m) && r < Vm.REGISTER_COUNT
    requires Encode(LoadInstruction(r, v)).Some? && CodeAt(m, Encode(LoadInstruction(r, v)).value)
    ensures Vm.Execute(m) == Vm.Stepped(m.(registers := m.registers[r := AsUint16(v)], pc := m.pc + 4), false)
  {
    var b := Encode(LoadInstruction(r, v)).value;
    FormOneBytes(LOAD, r, v);
    assert m.program[m.pc] == b[0] && m.program[m.pc + 1] == b[1];
    assert m.program[m.pc + 2] == b[2] && m.program[m.pc + 3] == b[3];
    VmProperties.LoadStep(m);
  }

  lemma LoadLineWritable(r: uint8, v: nat)
    requires v <= 0xFFFF
    ensures Writable(LoadInstruction(r, v))
    ensures Lines([LoadInstruction(r, v)]) == Line(LoadInstruction(r, v))
  {
    assert [LoadInstruction(r, v)][1..] == [];
  }

  /**
   * What the REPL makes of a program line: its bytecode, the "Unable to
   * parse input" answer, or a crash when the parser itself panics (an
   * `unwrap` on an operand out of range).
   */
  datatype Assembly = Assembled(bytes: seq<uint8>) | Unparsable | Crashed

  /**
   * What the REPL does with a line that is not a command: parse it as a
   * program and encode it, ignoring any unparsed rest. A parsed program
   * always encodes, so every parsed line gives bytecode.
   */
  function Assemble(line: string): (a: Assembly)
    ensures a.Unparsable? <==> ParseProgram(line).Failed?
    ensures a.Crashed? <==> ParseProgram(line).Panicked?
    ensures a.Assembled? ==> |a.bytes| == 4 * |ParseProgram(line).value.instructions|
  {
    match ParseProgram(line)
    case Parsed(p, _) =>
      ParsedProgramEncodes(p.instructions);
      Assembled(EncodeAll(p.instructions).value)
    case Failed => Unparsable
    case Panicked => Crashed
  }

  /** A register number past 255 makes the parser panic, and the REPL with it. */
  lemma RegisterOverflowCrashes()
    ensures Assemble("load $300 #1").Crashed?
  {
    var line := "load $300 #1";
    LoadWordRead();
    RegisterOverflowRead();
    assert InstructionOne(line).Panicked?;
    assert Instructions(line).Panicked?;
  }

  lemma LoadWordRead()
    ensures OpcodeParser.ParseOpcode("load $300 #1") == Parsing.Parsed(Op(LOAD), " $300 #1")
  {
    assert Mnemonic(LOAD) + " $300 #1" == "load $300 #1";
    OpcodeParser.OpcodeRoundTrip(LOAD, " $300 #1");
  }

  lemma RegisterOverflowRead()
    ensures RegisterParser.ParseRegister(" $300 #1").Panicked?
  {
    assert Parsing.Decimal(3) == "3";
    assert Parsing.Decimal(30) == "30";
    assert Parsing.Decimal(300) == "300";
    assert " " + "$" + Parsing.Decimal(300) + " #1" == " $300 #1";
    RegisterParser.RegisterOverflowPanics(" ", 300, " #1");
  }

  /** A line with no form-one instruction at its start is answered, not crashed on. */
  lemma BareOpcodeUnparsable()
    ensures Assemble("hlt").Unparsable?
  {
  }

  /**
   * The line `load $r #v`, as the REPL passes it on once trimmed (no
   * newline), assembles to the four bytes of that one instruction.
   */
  lemma LoadLineAssembles(r: uint8, v: nat)
    requires v <= 0xFFFF
    ensures Encode(LoadInstruction(r, v)).Some? && |Encode(LoadInstruction(r, v)).value| == 4
    ensures Assemble(Render(LoadInstruction(r, v))) == Assembled(Encode(LoadInstruction(r, v)).value)
  {
    var ins := LoadInstruction(r, v);
    LoadLineWritable(r, v);
    RenderedLineParses(ins);
    EncodeAllSingle(ins);
    FormOneBytes(LOAD, r, v);
  }

  /** A form-one instruction's text, with nothing after it, parses as a one-instruction program. */
  lemma RenderedLineParses(ins: AssemblerInstruction)
    requires Writable(ins)
    ensures ParseProgram(Render(ins)) == Parsing.Parsed(Program([ins]), "")
  {
    var text := Render(ins);
    FormOneLine(ins, "");
    assert text + "" == text;
    WholeTextOneInstruction(text, ins);
  }

  /** Text that is exactly one instruction of form one is a program of that instruction. */
  lemma WholeTextOneInstruction(text: string, ins: AssemblerInstruction)
    requires InstructionOne(text) == Parsing.Parsed(ins, "")
    ensures ParseProgram(text) == Parsing.Parsed(Program([ins]), "")
  {
    EndOfInputEmpty();
    InstructionsCons(text, ins, "", []);
    AppendEmpty([ins]);
    ProgramOfInstructions(text);
  }

  lemma AppendEmpty<T>(s: seq<T>)
    ensures s + [] == s
  {
  }

  /** At the end of the input, `many1!`'s loop reads nothing. */
  lemma EndOfInputEmpty()
    ensures Instructions("") == Parsing.Parsed([], "")
  {
    assert InstructionOne("").Failed?;
  }

  /** A non-empty list of instructions read from `s` is the program read from `s`. */
  lemma ProgramOfInstructions(s: string)
    requires Instructions(s).Parsed? && Instructions(s).value != []
    ensures ParseProgram(s) == Parsing.Parsed(Program(Instructions(s).value), Instructions(s).rest)
  {
  }

  /**
   * Assembling the trimmed line `load $r #v` and running the bytes on a
   * fresh VM leaves `v` in register r, for every register and every value
   * that fits in 16 bits.
   */
  lemma AssembledLoadRuns(r: uint8, v: nat)
    requires r < Vm.REGISTER_COUNT && v <= 0xFFFF
    ensures var b := Assemble(Render(LoadInstruction(r, v)));
      && b.Assembled? && |b.bytes| == 4
      && var o := Vm.Execute(VmProperties.TestVm(b.bytes));
      && o.Stepped? && o.next.registers[r] == v && o.next.pc == 4
  {
    LoadLineAssembles(r, v);
    LoadBytesRun(r, v);
  }

  /** The four bytes of `load $r #v`, run on a fresh VM, leave `v` in register r. */
  lemma LoadBytesRun(r: uint8, v: nat)
    requires r < Vm.REGISTER_COUNT && v <= 0xFFFF
    requires Encode(LoadInstruction(r, v)).Some? && |Encode(LoadInstruction(r, v)).value| == 4
    ensures var o := Vm.Execute(VmProperties.TestVm(Encode(LoadInstruction(r, v)).value));
      o.Stepped? && o.next.registers[r] == v && o.next.pc == 4
  {
    var bytes := Encode(LoadInstruction(r, v)).value;
    var m := VmProperties.TestVm(bytes);
    assert m.program[0..4] == bytes;
    EncodedLoadExecutes(m, r, v);
  }

  /**
   * The line the REPL documents as a LOAD command, `00 01 03 E8`, starts
   * with the byte of HLT: the VM halts after one byte.
   */
  lemma DocExampleHalts()
    ensures FromByte(0x00) == HLT
    ensures var m := VmProperties.TestVm([0x00, 0x01, 0x03, 0xE8]);
      Vm.Execute(m) == Vm.Stepped(m.(pc := 1), true)
  {
    var m := VmProperties.TestVm([0x00, 0x01, 0x03, 0xE8]);
    VmProperties.HaltingAndUnrecognizedSteps(m);
  }
}
