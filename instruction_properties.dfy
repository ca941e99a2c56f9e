/**
 * What the `instruction` parser and the encoder promise together: every
 * instruction written out in assembly text reads back as itself, the forms
 * are tried in their priority order, and the bytes of an instruction have
 * the layout the VM decodes.
 */
module InstructionProperties {
  import opened Numeric
  import opened Opcodes
  import opened Parsing
  import opened Tokens
  import opened OpcodeParser
  import opened RegisterParser
  import opened OperandParser
  import opened InstructionParser

  // ---------------------------------------------------------------------
  // Writing an instruction out as text
  // ---------------------------------------------------------------------

  function RegisterText(n: uint8): string {
    " " + "$" + Decimal(n)
  }

  function IntegerText(v: nat): string {
    " " + "#" + Decimal(v)
  }

  /** Instructions that have a textual form: a known mnemonic, no negative literal. */
  predicate Renderable(ins: AssemblerInstruction) {
    Conforming(ins) && ins.opcode.code != IGL
    && (IsInteger(ins.operand2) ==> ins.operand2.value.value >= 0)
  }

  /** The assembly text of an instruction: the mnemonic, then each operand after a space. */
  function Render(ins: AssemblerInstruction): string
    requires Renderable(ins)
  {
    var m := Mnemonic(ins.opcode.code);
    if FormOne(ins) then
      m + (RegisterText(ins.operand1.value.regNum) + IntegerText(ins.operand2.value.value))
    else if FormThree(ins) then
      m + (RegisterText(ins.operand1.value.regNum)
        + (RegisterText(ins.operand2.value.regNum) + RegisterText(ins.operand3.value.regNum)))
    else if FormFour(ins) then
      m + (RegisterText(ins.operand1.value.regNum) + RegisterText(ins.operand2.value.regNum))
    else if FormFive(ins) then
      m + RegisterText(ins.operand1.value.regNum)
    else
      m
  }

  /**
   * What may follow an instruction's text without being read as part of it:
   * nothing that continues a word or a number, and no further operand.
   */
  predicate Delimits(t: string) {
    (t == [] || (!IsDigit(t[0]) && !IsAlpha(t[0])))
    && var u := SkipSpaces(t); u == [] || (u[0] != '$' && u[0] != '#')
  }

  // ---------------------------------------------------------------------
  // Reading single operands
  // ---------------------------------------------------------------------

  /** `ws!` makes leading separators irrelevant to the operand parsers. */
  lemma OperandParsersSkipSpaces(x: string)
    ensures ParseRegister(SkipSpaces(x)) == ParseRegister(x)
    ensures ParseIntegerOperand(SkipSpaces(x)) == ParseIntegerOperand(x)
  {
    RegisterSkipsSpaces(x);
    IntegerOperandSkipsSpaces(x);
  }

  lemma ReadRegister(n: uint8, tail: string)
    requires tail == [] || !IsDigit(tail[0])
    ensures ParseRegister(RegisterText(n) + tail) == Parsed(Register(n), SkipSpaces(tail))
    ensures ParseRegister(SkipSpaces(RegisterText(n) + tail)) == Parsed(Register(n), SkipSpaces(tail))
  {
    var x := RegisterText(n) + tail;
    assert x == " " + "$" + Decimal(n) + tail;
    RegisterRoundTrip(" ", n, tail);
    OperandParsersSkipSpaces(x);
  }

  lemma ReadInteger(v: nat, tail: string)
    requires v <= INT32_MAX && (tail == [] || !IsDigit(tail[0]))
    ensures ParseIntegerOperand(IntegerText(v) + tail) == Parsed(IntegerOperand(v), SkipSpaces(tail))
    ensures ParseIntegerOperand(SkipSpaces(IntegerText(v) + tail)) == Parsed(IntegerOperand(v), SkipSpaces(tail))
  {
    var x := IntegerText(v) + tail;
    assert x == " " + "#" + Decimal(v) + tail;
    IntegerOperandRoundTrip(" ", v, tail);
    OperandParsersSkipSpaces(x);
  }

  /** An integer operand is not where a register is expected, and vice versa. */
  lemma OperandMismatch(x: string)
    ensures (var u := SkipSpaces(x); u == [] || u[0] != '$') ==> ParseRegister(x).Failed?
    ensures (var u := SkipSpaces(x); u == [] || u[0] != '#') ==> ParseIntegerOperand(x).Failed?
  {
  }

  /** The text after a register or integer operand starts with the next operand's `$`. */
  lemma SpacedRegisterFirst(n: uint8, tail: string)
    ensures var u := SkipSpaces(RegisterText(n) + tail); |u| > 0 && u[0] == '$'
  {
    var x := RegisterText(n) + tail;
    assert x[0] == ' ' && x[1..] == "$" + Decimal(n) + tail;
  }

  /** A separator-delimited tail offers neither a register nor an integer operand. */
  lemma NoOperandAfter(t: string)
    requires Delimits(t)
    ensures ParseRegister(t).Failed? && ParseRegister(SkipSpaces(t)).Failed?
    ensures ParseIntegerOperand(t).Failed? && ParseIntegerOperand(SkipSpaces(t)).Failed?
  {
    OperandMismatch(t);
    OperandParsersSkipSpaces(t);
  }

  // ---------------------------------------------------------------------
  // Reading whole instructions back
  // ---------------------------------------------------------------------

  // Moving the text that follows an instruction next to its last operand.

  lemma RegroupOne(w: string, x: string, t: string)
    ensures w + x + t == w + (x + t)
  {
  }

  lemma Regroup(w: string, x: string, y: string, t: string)
    ensures w + (x + y) + t == w + (x + (y + t))
  {
  }

  lemma RegroupThree(w: string, x: string, y: string, z: string, t: string)
    ensures w + (x + (y + z)) + t == w + (x + (y + (z + t)))
  {
  }

  /** `opcode $r #n` as form one reads it. */
  lemma FormOneReads(op: Opcode, r: uint8, v: nat, t: string)
    requires op != IGL && v <= INT32_MAX && Delimits(t)
    ensures var ins := AssemblerInstruction(Op(op), Some(Register(r)), Some(IntegerOperand(v)), None);
      InstructionOne(Mnemonic(op) + (RegisterText(r) + IntegerText(v)) + t) == Parsed(ins, SkipSpaces(t))
  {
    var a := IntegerText(v) + t;
    var b := RegisterText(r) + a;
    Regroup(Mnemonic(op), RegisterText(r), IntegerText(v), t);
    assert b[0] == ' ';
    OpcodeRoundTrip(op, b);
    assert a[0] == ' ';
    ReadRegister(r, a);
    ReadInteger(v, t);
  }

  /** `opcode $r #n`, read by form one, which `instruction` tries first. */
  lemma FormOneRoundTrip(op: Opcode, r: uint8, v: nat, t: string)
    requires op != IGL && v <= INT32_MAX && Delimits(t)
    ensures var ins := AssemblerInstruction(Op(op), Some(Register(r)), Some(IntegerOperand(v)), None);
      && InstructionOne(Mnemonic(op) + (RegisterText(r) + IntegerText(v)) + t) == Parsed(ins, SkipSpaces(t))
      && ParseInstruction(Mnemonic(op) + (RegisterText(r) + IntegerText(v)) + t) == Parsed(ins, SkipSpaces(t))
  {
    FormOneReads(op, r, v, t);
    FormOneFirst(Mnemonic(op) + (RegisterText(r) + IntegerText(v)) + t);
  }

  /** The text of a form-one instruction reads back through form one. */
  lemma FormOneLine(ins: AssemblerInstruction, t: string)
    requires FormOne(ins) && Renderable(ins) && Delimits(t)
    ensures InstructionOne(Render(ins) + t) == Parsed(ins, SkipSpaces(t))
  {
    var op, r, v := ins.opcode.code, ins.operand1.value.regNum, ins.operand2.value.value;
    FormOneRoundTrip(op, r, v, t);
  }

  /** `opcode`, read by form two once every other form has failed. */
  lemma {:induction false} FormTwoRoundTrip(op: Opcode, t: string)
    requires op != IGL && Delimits(t)
    ensures var ins := AssemblerInstruction(Op(op), None, None, None);
      && InstructionTwo(Mnemonic(op) + t) == Parsed(ins, t)
      && ParseInstruction(Mnemonic(op) + t) == Parsed(ins, t)
  {
    OpcodeRoundTrip(op, t);
    NoOperandAfter(t);
  }

  /** Form four reads two registers, whatever follows them. */
  lemma {:induction false} TwoRegisters(op: Opcode, r1: uint8, r2: uint8, tail: string)
    requires op != IGL && (tail == [] || !IsDigit(tail[0]))
    ensures var s := Mnemonic(op) + (RegisterText(r1) + (RegisterText(r2) + tail));
      && InstructionOne(s).Failed?
      && InstructionFour(s)
        == Parsed(AssemblerInstruction(Op(op), Some(Register(r1)), Some(Register(r2)), None), SkipSpaces(tail))
  {
    var a := RegisterText(r2) + tail;
    var b := RegisterText(r1) + a;
    assert b[0] == ' ' && a[0] == ' ';
    OpcodeRoundTrip(op, b);
    ReadRegister(r1, a);
    SpacedRegisterFirst(r2, tail);
    OperandMismatch(SkipSpaces(a));
    ReadRegister(r2, tail);
  }

  /** `opcode $r $r`, read by form four after forms one and three fail. */
  lemma {:induction false} FormFourRoundTrip(op: Opcode, r1: uint8, r2: uint8, t: string)
    requires op != IGL && Delimits(t)
    ensures var ins := AssemblerInstruction(Op(op), Some(Register(r1)), Some(Register(r2)), None);
      ParseInstruction(Mnemonic(op) + (RegisterText(r1) + RegisterText(r2)) + t) == Parsed(ins, SkipSpaces(t))
  {
    Regroup(Mnemonic(op), RegisterText(r1), RegisterText(r2), t);
    TwoRegisters(op, r1, r2, t);
    NoOperandAfter(t);
  }

  /** `opcode $r $r $r`, read by form three after form one fails. */
  lemma {:induction false} FormThreeRoundTrip(op: Opcode, r1: uint8, r2: uint8, r3: uint8, t: string)
    requires op != IGL && Delimits(t)
    ensures var ins := AssemblerInstruction(Op(op), Some(Register(r1)), Some(Register(r2)), Some(Register(r3)));
      ParseInstruction(Mnemonic(op) + (RegisterText(r1) + (RegisterText(r2) + RegisterText(r3))) + t)
        == Parsed(ins, SkipSpaces(t))
  {
    var a3 := RegisterText(r3) + t;
    RegroupThree(Mnemonic(op), RegisterText(r1), RegisterText(r2), RegisterText(r3), t);
    assert a3[0] == ' ';
    TwoRegisters(op, r1, r2, a3);
    ReadRegister(r3, t);
  }

  /** `opcode $r`, read by form five after forms one, three and four fail. */
  lemma {:induction false} FormFiveRoundTrip(op: Opcode, r: uint8, t: string)
    requires op != IGL && Delimits(t)
    ensures var ins := AssemblerInstruction(Op(op), Some(Register(r)), None, None);
      ParseInstruction(Mnemonic(op) + RegisterText(r) + t) == Parsed(ins, SkipSpaces(t))
  {
    var b := RegisterText(r) + t;
    RegroupOne(Mnemonic(op), RegisterText(r), t);
    assert b[0] == ' ';
    OpcodeRoundTrip(op, b);
    ReadRegister(r, t);
    NoOperandAfter(t);
  }

  /**
   * Every instruction that has a textual form reads back as itself: the
   * parser stops right after its last operand and the separators after it,
   * or right after the mnemonic when there is no operand.
   */
  lemma InstructionRoundTrip(ins: AssemblerInstruction, t: string)
    requires Renderable(ins) && Delimits(t)
    ensures ParseInstruction(Render(ins) + t) == Parsed(ins, if FormTwo(ins) then t else SkipSpaces(t))
  {
    var op := ins.opcode.code;
    if FormOne(ins) {
      FormOneRoundTrip(op, ins.operand1.value.regNum, ins.operand2.value.value, t);
    } else if FormThree(ins) {
      FormThreeRoundTrip(op, ins.operand1.value.regNum, ins.operand2.value.regNum, ins.operand3.value.regNum, t);
    } else if FormFour(ins) {
      FormFourRoundTrip(op, ins.operand1.value.regNum, ins.operand2.value.regNum, t);
    } else if FormFive(ins) {
      FormFiveRoundTrip(op, ins.operand1.value.regNum, t);
    } else {
      FormTwoRoundTrip(op, t);
    }
  }

  // ---------------------------------------------------------------------
  // Bytes
  // ---------------------------------------------------------------------

  /**
   * The bytes of `opcode $r #n`: the opcode's byte, the register number and
   * the value truncated to 16 bits, high byte first.
   */
  lemma FormOneBytes(op: Opcode, r: uint8, v: int32)
    ensures var b := Encode(AssemblerInstruction(Op(op), Some(Register(r)), Some(IntegerOperand(v)), None));
      && b.Some? && |b.value| == 4
      && FromByte(b.value[0]) == op && b.value[1] == r
      && b.value[2] as int * 256 + b.value[3] as int == AsUint16(v)
  {
    var ins := AssemblerInstruction(Op(op), Some(Register(r)), Some(IntegerOperand(v)), None);
    var ts := Operands(ins);
    assert ts == [Register(r), IntegerOperand(v)];
    assert ts[..1] == [Register(r)];
    assert ts[..1][..0] == [];
    assert OperandsBytes(ts[..1]) == Some([] + [r]);
    assert [] + [r] == [r];
    assert ts[..|ts| - 1] == ts[..1] && ts[|ts| - 1] == IntegerOperand(v);
    var tail := OperandBytes(IntegerOperand(v));
    assert OperandsBytes(ts) == Some([r] + tail);
    assert Encode(ins) == Some([ToByte(op)] + ([r] + tail));
    EncodedOpcode(ins);
  }

  /** An instruction with no opcode in its opcode field, or one in an operand field, does not encode. */
  lemma EncodeRejectsMisplacedOpcodes(ins: AssemblerInstruction, code: Opcode)
    ensures !ins.opcode.Op? ==> Encode(ins).None?
    ensures ins.operand1 == Some(Op(code)) ==> Encode(ins).None?
  {
    EncodeSome(ins);
    if ins.operand1 == Some(Op(code)) {
      assert Operands(ins)[0] == Op(code);
    }
  }

  lemma DecimalExamples()
    ensures Decimal(0) == "0" && Decimal(100) == "100"
  {
    assert Decimal(1) == "1";
    assert Decimal(10) == Decimal(1) + [DigitChar(0)] == "10";
  }

  lemma NewlineDelimits()
    ensures Delimits("\n") && SkipSpaces("\n") == ""
  {
    assert SkipSpaces("\n") == "";
  }

  lemma FormOneTestText()
    ensures Mnemonic(LOAD) + (RegisterText(0) + IntegerText(100)) + "\n" == "load $0 #100\n"
  {
    DecimalExamples();
    assert RegisterText(0) == " $0";
    assert IntegerText(100) == " #100";
  }

  /** `test_parse_instruction_form_one`: the trailing newline is consumed. */
  lemma FormOneTest()
    ensures InstructionOne("load $0 #100\n")
      == Parsed(AssemblerInstruction(Op(LOAD), Some(Register(0)), Some(IntegerOperand(100)), None), "")
  {
    NewlineDelimits();
    FormOneRoundTrip(LOAD, 0, 100, "\n");
    FormOneTestText();
  }

  lemma FormTwoTestText()
    ensures Mnemonic(HLT) + "\n" == "hlt\n"
  {
  }

  /** `test_parse_instruction_form_two`: the opcode parser leaves the newline. */
  lemma FormTwoTest()
    ensures InstructionTwo("hlt\n") == Parsed(AssemblerInstruction(Op(HLT), None, None, None), "\n")
  {
    NewlineDelimits();
    FormTwoRoundTrip(HLT, "\n");
    FormTwoTestText();
  }
}
