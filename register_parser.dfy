/** The `register` parser: `$` and a register number. */
module RegisterParser {
  import opened Numeric
  import opened Parsing
  import opened Tokens

  /**
   * `register`: `ws!(tag!("$") >> digit)`, the digits parsed as a `u8`
   * with `unwrap`, so a number above 255 panics.
   */
  function ParseRegister(s: string): (r: ParseResult<Token>)
    ensures r.Parsed? ==> r.value.Register? && IsSuffix(r.rest, s) && |r.rest| < |s|
    ensures r.Parsed? ==> r.rest == [] || !IsSpace(r.rest[0])
    ensures r.Failed? <==> TaggedNumber(s, '$').Failed?
  {
    match TaggedNumber(s, '$')
    case Parsed(n, rest) => if n < 0x100 then Parsed(Register(n), rest) else Panicked
    case Failed => Failed
    case Panicked => Panicked
  }

  /** `ws!` makes leading separators irrelevant. */
  lemma RegisterSkipsSpaces(x: string)
    ensures ParseRegister(SkipSpaces(x)) == ParseRegister(x)
  {
    TaggedNumberSkipsSpaces(x, '$');
  }

  /** `$` then the decimal digits of a register number read back as that register. */
  lemma RegisterRoundTrip(ws: string, n: uint8, t: string)
    requires AllSpaces(ws) && (t == [] || !IsDigit(t[0]))
    ensures ParseRegister(ws + "$" + Decimal(n) + t) == Parsed(Register(n), SkipSpaces(t))
  {
    TaggedNumberRoundTrip(ws, '$', n, t);
  }

  /** A register number that does not fit in a byte panics. */
  lemma RegisterOverflowPanics(ws: string, n: nat, t: string)
    requires AllSpaces(ws) && (t == [] || !IsDigit(t[0])) && n > 0xFF
    ensures ParseRegister(ws + "$" + Decimal(n) + t).Panicked?
  {
    TaggedNumberRoundTrip(ws, '$', n, t);
  }

  /** The cases of `test_parse_register`: `$0` is register 0. */
  lemma RegisterZeroTest()
    ensures ParseRegister("$0") == Parsed(Register(0), "")
  {
    assert DecimalValue("0") == 0 by {
      assert "0"[..0] == "";
    }
    assert "" + ['$'] + "0" + "" == "$0";
    TaggedDigits("", '$', "0", "");
  }

  /** The cases of `test_parse_register`: without `$`, or without digits, it fails. */
  lemma RegisterRejectTests()
    ensures ParseRegister("0").Failed?
    ensures ParseRegister("$a").Failed?
  {
    assert SkipSpaces("0") == "0";
    TaggedNumberNeedsTag("0", '$');
    assert "" + ['$'] + "a" == "$a";
    TaggedNumberNeedsDigit("", '$', "a");
  }
}
