/** The `integer_operand` parser: `#` and a non-negative decimal number. */
module OperandParser {
  import opened Numeric
  import opened Parsing
  import opened Tokens

  /** The largest value `str::parse::<i32>` accepts. */
  const INT32_MAX: nat := 0x7FFF_FFFF

  /**
   * `integer_operand`: `ws!(tag!("#") >> digit)`, the digits parsed as an
   * `i32` with `unwrap`. No sign is accepted, so the value is never negative,
   * and a number above `i32::MAX` panics.
   */
  function ParseIntegerOperand(s: string): (r: ParseResult<Token>)
    ensures r.Parsed? ==> r.value.IntegerOperand? && r.value.value >= 0
    ensures r.Parsed? ==> IsSuffix(r.rest, s) && |r.rest| < |s|
    ensures r.Parsed? ==> r.rest == [] || !IsSpace(r.rest[0])
    ensures r.Failed? <==> TaggedNumber(s, '#').Failed?
  {
    match TaggedNumber(s, '#')
    case Parsed(n, rest) => if n <= INT32_MAX then Parsed(IntegerOperand(n), rest) else Panicked
    case Failed => Failed
    case Panicked => Panicked
  }

  /** `ws!` makes leading separators irrelevant. */
  lemma IntegerOperandSkipsSpaces(x: string)
    ensures ParseIntegerOperand(SkipSpaces(x)) == ParseIntegerOperand(x)
  {
    TaggedNumberSkipsSpaces(x, '#');
  }

  /** `#` then the decimal digits of a non-negative `i32` read back as that value. */
  lemma IntegerOperandRoundTrip(ws: string, n: nat, t: string)
    requires AllSpaces(ws) && (t == [] || !IsDigit(t[0])) && n <= INT32_MAX
    ensures ParseIntegerOperand(ws + "#" + Decimal(n) + t) == Parsed(IntegerOperand(n), SkipSpaces(t))
  {
    TaggedNumberRoundTrip(ws, '#', n, t);
  }

  /** A number beyond `i32::MAX` panics. */
  lemma IntegerOperandOverflowPanics(ws: string, n: nat, t: string)
    requires AllSpaces(ws) && (t == [] || !IsDigit(t[0])) && n > INT32_MAX
    ensures ParseIntegerOperand(ws + "#" + Decimal(n) + t).Panicked?
  {
    TaggedNumberRoundTrip(ws, '#', n, t);
  }

  /** The case of `test_parse_integer_operand` that succeeds. */
  lemma IntegerOperandTest()
    ensures ParseIntegerOperand("#10") == Parsed(IntegerOperand(10), "")
  {
    assert DecimalValue("10") == 10 by {
      assert "10"[..1] == "1";
      assert "1"[..0] == "";
    }
    assert "" + ['#'] + "10" + "" == "#10";
    TaggedDigits("", '#', "10", "");
  }

  /** Without `#` it fails, and a minus sign is no digit. */
  lemma IntegerOperandRejectTests()
    ensures ParseIntegerOperand("10").Failed?
    ensures ParseIntegerOperand("#-1").Failed?
  {
    TaggedNumberNeedsTag("10", '#');
    TaggedNumberNeedsDigit("", '#', "-1");
    assert "" + ['#'] + "-1" == "#-1";
  }
}
