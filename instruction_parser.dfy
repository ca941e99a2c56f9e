/**
 * An assembler instruction: its five textual forms, the `instruction`
 * parser that tries them in turn, and its encoding as bytecode.
 */
module InstructionParser {
  import opened Numeric
  import opened Opcodes
  import opened Parsing
  import opened Tokens
  import opened OpcodeParser
  import opened RegisterParser
  import opened OperandParser

  datatype AssemblerInstruction = AssemblerInstruction(
    opcode: Token,
    operand1: Option<Token>,
    operand2: Option<Token>,
    operand3: Option<Token>)

  predicate IsRegister(o: Option<Token>) {
    o.Some? && o.value.Register?
  }

  predicate IsInteger(o: Option<Token>) {
    o.Some? && o.value.IntegerOperand?
  }

  /** `opcode $r #n` */
  predicate FormOne(ins: AssemblerInstruction) {
    ins.opcode.Op? && IsRegister(ins.operand1) && IsInteger(ins.operand2) && ins.operand3.None?
  }

  /** `opcode` */
  predicate FormTwo(ins: AssemblerInstruction) {
    ins.opcode.Op? && ins.operand1.None? && ins.operand2.None? && ins.operand3.None?
  }

  /** `opcode $r $r $r` */
  predicate FormThree(ins: AssemblerInstruction) {
    ins.opcode.Op? && IsRegister(ins.operand1) && IsRegister(ins.operand2) && IsRegister(ins.operand3)
  }

  /** `opcode $r $r` */
  predicate FormFour(ins: AssemblerInstruction) {
    ins.opcode.Op? && IsRegister(ins.operand1) && IsRegister(ins.operand2) && ins.operand3.None?
  }

  /** `opcode $r` */
  predicate FormFive(ins: AssemblerInstruction) {
    ins.opcode.Op? && IsRegister(ins.operand1) && ins.operand2.None? && ins.operand3.None?
  }

  /** The instructions the parsers can build. */
  predicate Conforming(ins: AssemblerInstruction) {
    FormOne(ins) || FormTwo(ins) || FormThree(ins) || FormFour(ins) || FormFive(ins)
  }

  // ---------------------------------------------------------------------
  // Encoding
  // ---------------------------------------------------------------------

  /** The operands present, in order (the `flatten` of the three options). */
  function Operands(ins: AssemblerInstruction): (ts: seq<Token>)
    ensures |ts| <= 3
  {
    (if ins.operand1.Some? then [ins.operand1.value] else [])
    + (if ins.operand2.Some? then [ins.operand2.value] else [])
    + (if ins.operand3.Some? then [ins.operand3.value] else [])
  }

  /**
   * The bytes of one operand: a register is its number, an integer is the
   * value truncated to 16 bits, high byte first, so that the VM's 16-bit
   * read gives the truncated value back.
   */
  function OperandBytes(t: Token): (b: seq<uint8>)
    requires !t.Op?
    ensures t.Register? ==> b == [t.regNum]
    ensures t.IntegerOperand? ==> |b| == 2 && b[0] as int * 256 + b[1] as int == AsUint16(t.value)
  {
    match t
    case Register(n) => [n]
    case IntegerOperand(v) =>
      var c := AsUint16(v);
      [c / 256, c % 256]
  }

  /** How many bytes an operand takes. */
  function OperandWidth(t: Token): nat {
    if t.IntegerOperand? then 2 else 1
  }

  function TotalWidth(ts: seq<Token>): nat {
    if ts == [] then 0 else TotalWidth(ts[..|ts| - 1]) + OperandWidth(ts[|ts| - 1])
  }

  /**
   * The bytes of a run of operands; `None` when one of them is an opcode,
   * on which the encoder exits the process.
   */
  function OperandsBytes(ts: seq<Token>): (r: Option<seq<uint8>>)
    ensures r.Some? ==> |r.value| == TotalWidth(ts)
  {
    if ts == [] then Some([])
    else
      var init := OperandsBytes(ts[..|ts| - 1]);
      var last := ts[|ts| - 1];
      if init.None? || last.Op? then None else Some(init.value + OperandBytes(last))
  }

  /** The operands encode exactly when none of them is an opcode. */
  lemma {:induction false} OperandsBytesSome(ts: seq<Token>)
    ensures OperandsBytes(ts).Some? <==> forall i :: 0 <= i < |ts| ==> !ts[i].Op?
  {
    if ts != [] {
      var init := ts[..|ts| - 1];
      OperandsBytesSome(init);
      assert forall i :: 0 <= i < |init| ==> init[i] == ts[i];
    }
  }

  /**
   * `to_bytes`: the opcode's byte followed by the operands' bytes; `None`
   * when the opcode field holds no opcode (a panic) or an operand field
   * holds one (the process exits).
   */
  function Encode(ins: AssemblerInstruction): (r: Option<seq<uint8>>)
    ensures !ins.opcode.Op? ==> r.None?
    ensures r.Some? ==> |r.value| == 1 + TotalWidth(Operands(ins))
  {
    if !ins.opcode.Op? then None
    else
      match OperandsBytes(Operands(ins))
      case None => None
      case Some(b) => Some([ToByte(ins.opcode.code)] + b)
  }

  /** An instruction encodes exactly when its opcode field holds an opcode and no operand field does. */
  lemma EncodeSome(ins: AssemblerInstruction)
    ensures Encode(ins).Some? <==>
      ins.opcode.Op? && forall i :: 0 <= i < |Operands(ins)| ==> !Operands(ins)[i].Op?
  {
    OperandsBytesSome(Operands(ins));
  }

  /** The first byte of an encoded instruction decodes to its opcode. */
  lemma EncodedOpcode(ins: AssemblerInstruction)
    requires Encode(ins).Some?
    ensures FromByte(Encode(ins).value[0]) == ins.opcode.code
  {
  }

  /**
   * `extract_operand`: appends the bytes of one operand to `results`, or
   * gives `None` (the process exits) when handed an opcode.
   */
  method ExtractOperand(t: Token, results: seq<uint8>) returns (r: Option<seq<uint8>>)
    ensures t.Op? ==> r.None?
    ensures !t.Op? ==> r == Some(results + OperandBytes(t))
  {
    match t {
      case Register(n) =>
        r := Some(results + [n]);
      case IntegerOperand(v) =>
        var converted := AsUint16(v);
        var high := converted / 256;
        var low := converted % 256;
        assert OperandBytes(t) == [high, low];
        r := Some(results + [high, low]);
      case Op(_) =>
        r := None;
    }
  }

  /** One more operand: its bytes go at the end, unless it is an opcode. */
  lemma OperandsBytesSnoc(ts: seq<Token>, i: nat)
    requires i < |ts|
    ensures OperandsBytes(ts[..i + 1]) ==
      if OperandsBytes(ts[..i]).None? || ts[i].Op? then None
      else Some(OperandsBytes(ts[..i]).value + OperandBytes(ts[i]))
  {
    assert ts[..i + 1][..i] == ts[..i];
  }

  /** `to_bytes`, one operand at a time; it computes `Encode`. */
  method ToBytes(ins: AssemblerInstruction) returns (r: Option<seq<uint8>>)
    ensures r == Encode(ins)
  {
    if !ins.opcode.Op? {
      return None;
    }
    var opcode := ToByte(ins.opcode.code);
    var results := [opcode];
    var operands := Operands(ins);
    var i := 0;
    while i < |operands|
      invariant 0 <= i <= |operands|
      invariant OperandsBytes(operands[..i]).Some?
      invariant results == [opcode] + OperandsBytes(operands[..i]).value
    {
      OperandsBytesSnoc(operands, i);
      var next := ExtractOperand(operands[i], results);
      if next.None? {
        OperandsBytesNone(operands, i + 1);
        return None;
      }
      results := next.value;
      i := i + 1;
    }
    assert operands[..i] == operands;
    return Some(results);
  }

  /** Once a prefix of the operands cannot be encoded, neither can the whole. */
  lemma OperandsBytesNone(ts: seq<Token>, n: nat)
    requires n <= |ts| && OperandsBytes(ts[..n]).None?
    ensures OperandsBytes(ts).None?
  {
    OperandsBytesSome(ts[..n]);
    var i :| 0 <= i < n && ts[..n][i].Op?;
    assert ts[i].Op?;
    OperandsBytesSome(ts);
  }

  // ---------------------------------------------------------------------
  // Parsing
  // ---------------------------------------------------------------------

  /** `alt!` on two results: the second is tried only when the first fails. */
  function Alt<T>(first: ParseResult<T>, second: ParseResult<T>): (r: ParseResult<T>)
    ensures r.Failed? <==> first.Failed? && second.Failed?
    ensures !first.Failed? ==> r == first
  {
    if first.Failed? then second else first
  }

  /** `instruction_one`: opcode, register, integer operand. */
  function InstructionOne(s: string): (r: ParseResult<AssemblerInstruction>)
    ensures ParseOpcode(s).Failed? ==> r.Failed?
    ensures r.Parsed? ==> FormOne(r.value) && IsSuffix(r.rest, s) && |r.rest| < |s|
  {
    var o :- ParseOpcode(s);
    var reg :- ParseRegister(o.1);
    var num :- ParseIntegerOperand(reg.1);
    SuffixTransitive(num.1, reg.1, o.1);
    SuffixTransitive(num.1, o.1, s);
    Parsed(AssemblerInstruction(o.0, Some(reg.0), Some(num.0), None), num.1)
  }

  /** `instruction_two`: a bare opcode. */
  function InstructionTwo(s: string): (r: ParseResult<AssemblerInstruction>)
    ensures !r.Panicked?
    ensures r.Failed? <==> ParseOpcode(s).Failed?
    ensures r.Parsed? ==> FormTwo(r.value) && r.rest == ParseOpcode(s).rest
  {
    var o :- ParseOpcode(s);
    Parsed(AssemblerInstruction(o.0, None, None, None), o.1)
  }

  /**
   * `instruction_three`: opcode and three registers, that is, the steps of
   * form four followed by one more register.
   */
  function InstructionThree(s: string): (r: ParseResult<AssemblerInstruction>)
    ensures ParseOpcode(s).Failed? ==> r.Failed?
    ensures r.Parsed? ==> FormThree(r.value) && IsSuffix(r.rest, s) && |r.rest| < |s|
  {
    var four :- InstructionFour(s);
    var r3 :- ParseRegister(four.1);
    SuffixTransitive(r3.1, four.1, s);
    Parsed(four.0.(operand3 := Some(r3.0)), r3.1)
  }

  /** `instruction_four`: opcode and two registers. */
  function InstructionFour(s: string): (r: ParseResult<AssemblerInstruction>)
    ensures ParseOpcode(s).Failed? ==> r.Failed?
    ensures r.Parsed? ==> FormFour(r.value) && IsSuffix(r.rest, s) && |r.rest| < |s|
  {
    var o :- ParseOpcode(s);
    var r1 :- ParseRegister(o.1);
    var r2 :- ParseRegister(r1.1);
    SuffixTransitive(r2.1, r1.1, o.1);
    SuffixTransitive(r2.1, o.1, s);
    Parsed(AssemblerInstruction(o.0, Some(r1.0), Some(r2.0), None), r2.1)
  }

  /** `instruction_five`: opcode and one register. */
  function InstructionFive(s: string): (r: ParseResult<AssemblerInstruction>)
    ensures ParseOpcode(s).Failed? ==> r.Failed?
    ensures r.Parsed? ==> FormFive(r.value) && IsSuffix(r.rest, s) && |r.rest| < |s|
  {
    var o :- ParseOpcode(s);
    var r1 :- ParseRegister(o.1);
    SuffixTransitive(r1.1, o.1, s);
    Parsed(AssemblerInstruction(o.0, Some(r1.0), None, None), r1.1)
  }

  /**
   * `instruction`: forms one, three, four, five and two, in that order; the
   * first that does not fail decides. It fails exactly when the input does
   * not start with a letter.
   */
  function ParseInstruction(s: string): (r: ParseResult<AssemblerInstruction>)
    ensures r.Failed? <==> !(|s| > 0 && IsAlpha(s[0]))
    ensures r.Parsed? ==> Conforming(r.value) && IsSuffix(r.rest, s) && |r.rest| < |s|
  {
    var one := InstructionOne(s);
    var three := InstructionThree(s);
    var four := InstructionFour(s);
    var five := InstructionFive(s);
    var two := InstructionTwo(s);
    assert two.Parsed? ==> IsSuffix(two.rest, s) && |two.rest| < |s|;
    Alt(one, Alt(three, Alt(four, Alt(five, two))))
  }

  /** Form one is tried first: whatever it reads is what `instruction` reads. */
  lemma FormOneFirst(s: string)
    requires InstructionOne(s).Parsed?
    ensures ParseInstruction(s) == InstructionOne(s)
  {
  }

  /** An instruction the parsers can build always encodes, to as many bytes as its operands need. */
  lemma ConformingEncodes(ins: AssemblerInstruction)
    requires Conforming(ins)
    ensures Encode(ins).Some?
    ensures |Encode(ins).value| == 1 + TotalWidth(Operands(ins))
  {
    EncodeSome(ins);
  }

  /** Whatever `instruction` builds, `to_bytes` encodes without aborting. */
  lemma ParsedInstructionEncodes(s: string)
    requires ParseInstruction(s).Parsed?
    ensures Encode(ParseInstruction(s).value).Some?
  {
    ConformingEncodes(ParseInstruction(s).value);
  }
}
