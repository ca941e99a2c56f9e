/**
 * A program: a list of assembler instructions, its bytecode, and the
 * `program` parser, which reads one or more instructions of form one.
 */
module ProgramParser {
  import opened Numeric
  import opened Opcodes
  import opened Parsing
  import opened Tokens
  import opened InstructionParser
  import opened InstructionProperties

  datatype Program = Program(instructions: seq<AssemblerInstruction>)

  // ---------------------------------------------------------------------
  // Encoding
  // ---------------------------------------------------------------------

  /** Two pieces of bytecode side by side; nothing if either piece is missing. */
  function Concat(x: Option<seq<uint8>>, y: Option<seq<uint8>>): (r: Option<seq<uint8>>)
    ensures r.Some? <==> x.Some? && y.Some?
    ensures r.Some? ==> |r.value| == |x.value| + |y.value|
    ensures r.Some? ==> r.value[..|x.value|] == x.value && r.value[|x.value|..] == y.value
  {
    if x.None? || y.None? then None else Some(x.value + y.value)
  }

  lemma ConcatAssociative(x: Option<seq<uint8>>, y: Option<seq<uint8>>, z: Option<seq<uint8>>)
    ensures Concat(x, Concat(y, z)) == Concat(Concat(x, y), z)
  {
    if x.Some? && y.Some? && z.Some? {
      assert x.value + (y.value + z.value) == (x.value + y.value) + z.value;
    }
  }

  /**
   * The bytecode of a list of instructions: each instruction's bytes, in
   * order, with nothing between them; `None` if one of them does not encode.
   */
  function EncodeAll(instrs: seq<AssemblerInstruction>): (r: Option<seq<uint8>>)
    ensures instrs == [] ==> r == Some([])
    ensures r.Some? ==> |r.value| >= |instrs|
  {
    if instrs == [] then Some([]) else Concat(Encode(instrs[0]), EncodeAll(instrs[1..]))
  }

  /**
   * Encoding distributes over concatenation of instruction lists: the
   * bytecode of `a + b` is that of `a` followed by that of `b`, and it
   * exists exactly when both do.
   */
  lemma {:induction false} EncodeAllAppend(a: seq<AssemblerInstruction>, b: seq<AssemblerInstruction>)
    ensures EncodeAll(a + b) == Concat(EncodeAll(a), EncodeAll(b))
  {
    if a == [] {
      assert a + b == b;
      var y := EncodeAll(b);
      if y.Some? {
        assert [] + y.value == y.value;
      }
    } else {
      var ab := a + b;
      assert ab[0] == a[0];
      assert ab[1..] == a[1..] + b;
      EncodeAllAppend(a[1..], b);
      ConcatAssociative(Encode(a[0]), EncodeAll(a[1..]), EncodeAll(b));
    }
  }

  /** The bytecode of a single instruction is that instruction's encoding. */
  lemma EncodeAllSingle(ins: AssemblerInstruction)
    ensures EncodeAll([ins]) == Encode(ins)
  {
    assert [ins][1..] == [];
    if Encode(ins).Some? {
      assert Encode(ins).value + [] == Encode(ins).value;
    }
  }

  /** One more instruction adds its bytes at the end. */
  lemma EncodeAllSnoc(instrs: seq<AssemblerInstruction>, i: nat)
    requires i < |instrs|
    ensures EncodeAll(instrs[..i + 1]) == Concat(EncodeAll(instrs[..i]), Encode(instrs[i]))
  {
    assert instrs[..i + 1] == instrs[..i] + [instrs[i]];
    EncodeAllAppend(instrs[..i], [instrs[i]]);
    EncodeAllSingle(instrs[i]);
  }

  /** A prefix without bytecode leaves the whole list without bytecode. */
  lemma EncodeAllPrefixNone(instrs: seq<AssemblerInstruction>, n: nat)
    requires n <= |instrs| && EncodeAll(instrs[..n]).None?
    ensures EncodeAll(instrs).None?
  {
    assert instrs == instrs[..n] + instrs[n..];
    EncodeAllAppend(instrs[..n], instrs[n..]);
  }

  /** `Program::to_bytes`: extends the byte vector with each instruction's bytes in turn. */
  method ToBytes(p: Program) returns (r: Option<seq<uint8>>)
    ensures r == EncodeAll(p.instructions)
  {
    var bytes: seq<uint8> := [];
    var i := 0;
    while i < |p.instructions|
      invariant 0 <= i <= |p.instructions|
      invariant EncodeAll(p.instructions[..i]) == Some(bytes)
    {
      EncodeAllSnoc(p.instructions, i);
      var next := InstructionParser.ToBytes(p.instructions[i]);
      if next.None? {
        EncodeAllPrefixNone(p.instructions, i + 1);
        return None;
      }
      bytes := bytes + next.value;
      i := i + 1;
    }
    assert p.instructions[..i] == p.instructions;
    return Some(bytes);
  }

  // ---------------------------------------------------------------------
  // Parsing
  // ---------------------------------------------------------------------

  /**
   * `many0!(instruction_one)`: form one over and over until it fails, which
   * ends the list; a panic propagates.
   */
  function Instructions(s: string): (r: ParseResult<seq<AssemblerInstruction>>)
    ensures !r.Failed?
    ensures r.Parsed? ==> IsSuffix(r.rest, s)
    decreases |s|
  {
    var first := InstructionOne(s);
    if first.Failed? then Parsed([], s)
    else if first.Panicked? then Panicked
    else
      var more := Instructions(first.rest);
      if more.Panicked? then Panicked
      else
        SuffixTransitive(more.rest, first.rest, s);
        Parsed([first.value] + more.value, more.rest)
  }

  /** A list that starts with an instruction continues with the list read after it. */
  lemma InstructionsStep(s: string)
    requires InstructionOne(s).Parsed? && Instructions(s).Parsed?
    ensures var first := InstructionOne(s);
      && Instructions(first.rest).Parsed?
      && Instructions(s).value == [first.value] + Instructions(first.rest).value
      && Instructions(s).rest == Instructions(first.rest).rest
  {
  }

  predicate AllFormOne(instrs: seq<AssemblerInstruction>) {
    forall i :: 0 <= i < |instrs| ==> FormOne(instrs[i])
  }

  lemma AllFormOneCons(ins: AssemblerInstruction, more: seq<AssemblerInstruction>)
    requires FormOne(ins) && AllFormOne(more)
    ensures AllFormOne([ins] + more)
  {
    var instrs := [ins] + more;
    forall i | 0 < i < |instrs| ensures FormOne(instrs[i]) {
      assert instrs[i] == more[i - 1];
    }
  }

  /** Every instruction read is of form one. */
  lemma {:induction false} InstructionsFormOne(s: string)
    requires Instructions(s).Parsed?
    ensures AllFormOne(Instructions(s).value)
    decreases |s|
  {
    var first := InstructionOne(s);
    if first.Parsed? {
      InstructionsStep(s);
      InstructionsFormOne(first.rest);
      AllFormOneCons(first.value, Instructions(first.rest).value);
    }
  }

  /** Reading stops only where form one fails, and reads nothing exactly when it fails at once. */
  lemma {:induction false} InstructionsStop(s: string)
    requires Instructions(s).Parsed?
    ensures InstructionOne(Instructions(s).rest).Failed?
    ensures Instructions(s).value == [] <==> InstructionOne(s).Failed?
    decreases |s|
  {
    var first := InstructionOne(s);
    if first.Parsed? {
      InstructionsStop(first.rest);
    }
  }

  /**
   * `program`: `many1!(instruction_one)`. At least one instruction of form
   * one is required; reading stops at the first text that is not one, and
   * that text is left unconsumed.
   */
  function ParseProgram(s: string): (r: ParseResult<Program>)
    ensures r.Failed? <==> InstructionOne(s).Failed?
    ensures r.Parsed? ==> |r.value.instructions| >= 1
    ensures r.Parsed? ==> forall i :: 0 <= i < |r.value.instructions| ==> FormOne(r.value.instructions[i])
    ensures r.Parsed? ==> IsSuffix(r.rest, s) && InstructionOne(r.rest).Failed?
  {
    match Instructions(s)
    case Parsed(instrs, rest) =>
      InstructionsFormOne(s);
      InstructionsStop(s);
      if instrs == [] then Failed else Parsed(Program(instrs), rest)
    case Failed => Failed
    case Panicked => Panicked
  }

  /** A program the parser builds always has bytecode, four bytes per instruction. */
  lemma {:induction false} ParsedProgramEncodes(instrs: seq<AssemblerInstruction>)
    requires forall i :: 0 <= i < |instrs| ==> FormOne(instrs[i])
    ensures EncodeAll(instrs).Some? && |EncodeAll(instrs).value| == 4 * |instrs|
  {
    if instrs != [] {
      var tail := instrs[1..];
      assert forall i :: 0 <= i < |tail| ==> FormOne(tail[i]) by {
        forall i | 0 <= i < |tail| ensures FormOne(tail[i]) {
          assert tail[i] == instrs[i + 1];
        }
      }
      ParsedProgramEncodes(tail);
      var first := instrs[0];
      FormOneBytes(first.opcode.code, first.operand1.value.regNum, first.operand2.value.value);
      assert first == AssemblerInstruction(first.opcode, first.operand1, first.operand2, first.operand3);
    }
  }

  // ---------------------------------------------------------------------
  // Reading a program back
  // ---------------------------------------------------------------------

  /** Instructions of form one with a textual form. */
  predicate Writable(ins: AssemblerInstruction) {
    FormOne(ins) && ins.opcode.code != IGL && ins.operand2.value.value >= 0
  }

  predicate AllWritable(instrs: seq<AssemblerInstruction>) {
    forall i :: 0 <= i < |instrs| ==> Writable(instrs[i])
  }

  /** `opcode $r #n` and a newline. */
  function Line(ins: AssemblerInstruction): string
    requires Writable(ins)
  {
    Mnemonic(ins.opcode.code) + (RegisterText(ins.operand1.value.regNum) + IntegerText(ins.operand2.value.value)) + "\n"
  }

  /** A program's text: its lines, one after the other. */
  function Lines(instrs: seq<AssemblerInstruction>): string
    requires AllWritable(instrs)
  {
    if instrs == [] then "" else Line(instrs[0]) + Lines(instrs[1..])
  }

  lemma LinesStartWithLetter(instrs: seq<AssemblerInstruction>)
    requires AllWritable(instrs)
    ensures var l := Lines(instrs); l == [] || IsAlpha(l[0])
  {
    if instrs != [] {
      var op := instrs[0].opcode.code;
      OpcodeParser.MnemonicIsAlpha(op);
      assert Lines(instrs)[0] == Mnemonic(op)[0];
    }
  }

  /** A line of form one reads back as its instruction, up to the next line. */
  lemma LineRoundTrip(ins: AssemblerInstruction, more: string)
    requires Writable(ins) && (more == [] || IsAlpha(more[0]))
    ensures InstructionOne(Line(ins) + more) == Parsed(ins, more)
  {
    var t := "\n" + more;
    var op, r, v := ins.opcode.code, ins.operand1.value.regNum, ins.operand2.value.value;
    assert Line(ins) + more == Mnemonic(op) + (RegisterText(r) + IntegerText(v)) + t;
    SkipSpacesPrefix("\n", more);
    FormOneRoundTrip(op, r, v, t);
  }

  /** One instruction of form one, then the rest of the list. */
  lemma InstructionsCons(text: string, ins: AssemblerInstruction, more: string, tail: seq<AssemblerInstruction>)
    requires InstructionOne(text) == Parsed(ins, more)
    requires Instructions(more) == Parsed(tail, "")
    ensures Instructions(text) == Parsed([ins] + tail, "")
  {
  }

  /** The first line of a program's text reads back as its first instruction. */
  lemma FirstLine(instrs: seq<AssemblerInstruction>)
    requires AllWritable(instrs) && instrs != []
    ensures AllWritable(instrs[1..])
    ensures InstructionOne(Lines(instrs)) == Parsed(instrs[0], Lines(instrs[1..]))
  {
    var tail := instrs[1..];
    assert AllWritable(tail) by {
      forall i | 0 <= i < |tail| ensures Writable(tail[i]) {
        assert tail[i] == instrs[i + 1];
      }
    }
    LinesStartWithLetter(tail);
    LineRoundTrip(instrs[0], Lines(tail));
  }

  lemma HeadTail<T>(s: seq<T>)
    requires s != []
    ensures [s[0]] + s[1..] == s
  {
  }

  /** Lines of form one read back as exactly those instructions, leaving nothing. */
  lemma {:induction false} LinesRoundTrip(instrs: seq<AssemblerInstruction>)
    requires AllWritable(instrs)
    ensures Instructions(Lines(instrs)) == Parsed(instrs, "")
  {
    if instrs == [] {
      assert InstructionOne("").Failed?;
    } else {
      FirstLine(instrs);
      LinesRoundTrip(instrs[1..]);
      InstructionsCons(Lines(instrs), instrs[0], Lines(instrs[1..]), instrs[1..]);
      HeadTail(instrs);
    }
  }

  /** One or more lines of form one parse as the program made of them. */
  lemma ProgramRoundTrip(instrs: seq<AssemblerInstruction>)
    requires |instrs| >= 1 && AllWritable(instrs)
    ensures ParseProgram(Lines(instrs)) == Parsed(Program(instrs), "")
  {
    LinesRoundTrip(instrs);
  }

  /** `test_parse_program` and `test_program_to_bytes`. */
  lemma ProgramTest()
    ensures var r := ParseProgram("load $0 #100\n");
      && r.Parsed? && r.rest == "" && |r.value.instructions| == 1
      && EncodeAll(r.value.instructions).Some? && |EncodeAll(r.value.instructions).value| == 4
  {
    var ins := AssemblerInstruction(Op(LOAD), Some(Register(0)), Some(IntegerOperand(100)), None);
    FormOneTestText();
    assert Line(ins) == "load $0 #100\n";
    assert [ins][1..] == [];
    assert Lines([ins]) == "load $0 #100\n";
    ProgramRoundTrip([ins]);
    ParsedProgramEncodes([ins]);
  }
}
