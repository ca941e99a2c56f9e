/**
 * The opcode table: a total mapping from bytes and from mnemonics to
 * operations, with IGL as the catch-all for anything unknown.
 *
 * The table itself lives in src/instruction.rs, which is not part of this
 * model. The byte values of HLT, LOAD, JMP .. ALOC and the IGL fallback are
 * the ones the VM's tests rely on; ADD .. DIV take 2 .. 5 (the remaining
 * slots of the declaration order), NOP 18 and IGL 19. Properties stated
 * about the VM go through `FromByte` and `ToByte` and never name the
 * values 2 .. 5, 18 or 19.
 */
module Opcodes {
  import opened Numeric

  datatype Opcode =
    | HLT | LOAD | ADD | SUB | MUL | DIV
    | JMP | JMPF | JMPB
    | EQ | NEQ | GT | LT | GTQ | LTQ
    | JEQ | JNEQ | ALOC | NOP | IGL

  /** `Opcode::from(u8)`: total, unknown bytes give IGL. */
  function FromByte(b: uint8): Opcode {
    match b
    case 0 => HLT
    case 1 => LOAD
    case 2 => ADD
    case 3 => SUB
    case 4 => MUL
    case 5 => DIV
    case 6 => JMP
    case 7 => JMPF
    case 8 => JMPB
    case 9 => EQ
    case 10 => NEQ
    case 11 => GT
    case 12 => LT
    case 13 => GTQ
    case 14 => LTQ
    case 15 => JEQ
    case 16 => JNEQ
    case 17 => ALOC
    case 18 => NOP
    case _ => IGL
  }

  /** `code as u8`: the byte an opcode is encoded as; FromByte inverts it. */
  function ToByte(op: Opcode): (b: uint8)
    ensures FromByte(b) == op
  {
    match op
    case HLT => 0
    case LOAD => 1
    case ADD => 2
    case SUB => 3
    case MUL => 4
    case DIV => 5
    case JMP => 6
    case JMPF => 7
    case JMPB => 8
    case EQ => 9
    case NEQ => 10
    case GT => 11
    case LT => 12
    case GTQ => 13
    case LTQ => 14
    case JEQ => 15
    case JNEQ => 16
    case ALOC => 17
    case NOP => 18
    case IGL => 19
  }

  /** Every byte that does not decode to IGL is the encoding of what it decodes to. */
  lemma ByteRoundTrip(b: uint8)
    ensures FromByte(b) != IGL ==> ToByte(FromByte(b)) == b
  {
  }

  /** The byte values the VM's tests pin down. */
  lemma PinnedBytes()
    ensures FromByte(0) == HLT && FromByte(1) == LOAD
    ensures FromByte(6) == JMP && FromByte(7) == JMPF && FromByte(8) == JMPB
    ensures FromByte(9) == EQ && FromByte(10) == NEQ && FromByte(11) == GT
    ensures FromByte(12) == LT && FromByte(13) == GTQ && FromByte(14) == LTQ
    ensures FromByte(15) == JEQ && FromByte(16) == JNEQ && FromByte(17) == ALOC
    ensures FromByte(200) == IGL
  {
  }

  /** The mnemonic of every opcode but IGL (which has none). */
  function Mnemonic(op: Opcode): (s: string)
    requires op != IGL
    ensures |s| > 0
  {
    match op
    case HLT => "hlt"
    case LOAD => "load"
    case ADD => "add"
    case SUB => "sub"
    case MUL => "mul"
    case DIV => "div"
    case JMP => "jmp"
    case JMPF => "jmpf"
    case JMPB => "jmpb"
    case EQ => "eq"
    case NEQ => "neq"
    case GT => "gt"
    case LT => "lt"
    case GTQ => "gtq"
    case LTQ => "ltq"
    case JEQ => "jeq"
    case JNEQ => "jneq"
    case ALOC => "aloc"
    case NOP => "nop"
  }

  /** `Opcode::from(&str)`: case-sensitive, total, unknown words give IGL. */
  function FromMnemonic(s: string): (op: Opcode)
    ensures op != IGL ==> Mnemonic(op) == s
  {
    match s
    case "hlt" => HLT
    case "load" => LOAD
    case "add" => ADD
    case "sub" => SUB
    case "mul" => MUL
    case "div" => DIV
    case "jmp" => JMP
    case "jmpf" => JMPF
    case "jmpb" => JMPB
    case "eq" => EQ
    case "neq" => NEQ
    case "gt" => GT
    case "lt" => LT
    case "gtq" => GTQ
    case "ltq" => LTQ
    case "jeq" => JEQ
    case "jneq" => JNEQ
    case "aloc" => ALOC
    case "nop" => NOP
    case _ => IGL
  }

  /** Reading back the mnemonic of an opcode gives that opcode. */
  lemma MnemonicRoundTrip(op: Opcode)
    requires op != IGL
    ensures FromMnemonic(Mnemonic(op)) == op
  {
  }
}
