/**
 * The tokens the assembler's parsers produce. The `Token` enum is declared
 * in src/assembler/opcode.rs, which is not part of this model; its shape is
 * the one the parsers construct.
 */
module Tokens {
  import opened Numeric
  import opened Opcodes

  datatype Option<T> = None | Some(value: T)

  datatype Token =
    | Op(code: Opcode)
    | Register(regNum: uint8)
    | IntegerOperand(value: int32)
}
