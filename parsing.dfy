/**
 * What the assembler's grammars are built from: the result of a parser,
 * character classes, whitespace skipping, maximal runs of letters or
 * digits, and decimal numbers.
 */
module Parsing {

  /**
   * A parser either yields a value and the input it did not consume, fails
   * (so that an alternative may be tried), or panics (an `unwrap` on a
   * number too large for its type), which no alternative catches.
   */
  datatype ParseResult<+T> = Parsed(value: T, rest: string) | Failed | Panicked {
    predicate IsFailure() {
      !Parsed?
    }

    function PropagateFailure<U>(): ParseResult<U>
      requires IsFailure()
    {
      if Failed? then Failed else Panicked
    }

    function Extract(): (T, string)
      requires Parsed?
    {
      (value, rest)
    }
  }

  /** `r` is what remains of `s` after a prefix has been consumed. */
  predicate IsSuffix(r: string, s: string) {
    |r| <= |s| && s[|s| - |r|..] == r
  }

  lemma SuffixTransitive(a: string, b: string, c: string)
    requires IsSuffix(a, b) && IsSuffix(b, c)
    ensures IsSuffix(a, c)
  {
    assert c[|c| - |a|..] == c[|c| - |b|..][|b| - |a|..];
  }

  /** The separator characters nom's `ws!` skips. */
  predicate IsSpace(c: char) {
    c == ' ' || c == '\t' || c == '\r' || c == '\n'
  }

  predicate IsDigit(c: char) {
    '0' <= c <= '9'
  }

  /** Letters accepted by `alpha1` (ASCII letters in this model). */
  predicate IsAlpha(c: char) {
    ('a' <= c <= 'z') || ('A' <= c <= 'Z')
  }

  predicate AllSpaces(s: string) {
    forall i :: 0 <= i < |s| ==> IsSpace(s[i])
  }

  predicate AllDigits(s: string) {
    forall i :: 0 <= i < |s| ==> IsDigit(s[i])
  }

  predicate AllAlpha(s: string) {
    forall i :: 0 <= i < |s| ==> IsAlpha(s[i])
  }

  /** `sp`: drops every leading separator. */
  function SkipSpaces(s: string): (r: string)
    ensures IsSuffix(r, s)
    ensures AllSpaces(s[..|s| - |r|])
    ensures r == [] || !IsSpace(r[0])
  {
    if |s| > 0 && IsSpace(s[0]) then
      var r := SkipSpaces(s[1..]);
      assert s[..|s| - |r|] == [s[0]] + s[1..][..|s| - 1 - |r|];
      r
    else s
  }

  /** Separators in front of a non-separator are exactly what `SkipSpaces` drops. */
  lemma {:induction false} SkipSpacesPrefix(ws: string, t: string)
    requires AllSpaces(ws) && (t == [] || !IsSpace(t[0]))
    ensures SkipSpaces(ws + t) == t
  {
    if ws != [] {
      assert (ws + t)[1..] == ws[1..] + t;
      SkipSpacesPrefix(ws[1..], t);
    }
  }

  /** Length of the longest prefix of digits (`digit`). */
  function DigitRun(s: string): (n: nat)
    ensures n <= |s| && AllDigits(s[..n])
    ensures n == |s| || !IsDigit(s[n])
  {
    if |s| > 0 && IsDigit(s[0]) then
      var n := 1 + DigitRun(s[1..]);
      assert s[..n] == [s[0]] + s[1..][..n - 1];
      n
    else 0
  }

  /** Length of the longest prefix of letters (`alpha1`). */
  function AlphaRun(s: string): (n: nat)
    ensures n <= |s| && AllAlpha(s[..n])
    ensures n == |s| || !IsAlpha(s[n])
  {
    if |s| > 0 && IsAlpha(s[0]) then
      var n := 1 + AlphaRun(s[1..]);
      assert s[..n] == [s[0]] + s[1..][..n - 1];
      n
    else 0
  }

  /** A run of digits followed by a non-digit is exactly what `DigitRun` measures. */
  lemma {:induction false} DigitRunOf(d: string, t: string)
    requires AllDigits(d) && (t == [] || !IsDigit(t[0]))
    ensures DigitRun(d + t) == |d|
  {
    if d != [] {
      assert (d + t)[1..] == d[1..] + t;
      DigitRunOf(d[1..], t);
    }
  }

  /** A run of letters followed by a non-letter is exactly what `AlphaRun` measures. */
  lemma {:induction false} AlphaRunOf(w: string, t: string)
    requires AllAlpha(w) && (t == [] || !IsAlpha(t[0]))
    ensures AlphaRun(w + t) == |w|
  {
    if w != [] {
      assert (w + t)[1..] == w[1..] + t;
      AlphaRunOf(w[1..], t);
    }
  }

  function DigitValue(c: char): (v: nat)
    requires IsDigit(c)
    ensures v < 10
  {
    c as int - '0' as int
  }

  function DigitChar(v: nat): (c: char)
    requires v < 10
    ensures IsDigit(c) && DigitValue(c) == v
  {
    ('0' as int + v) as char
  }

  /** The value of a string of decimal digits (`str::parse` on digits only). */
  function DecimalValue(d: string): nat
    requires AllDigits(d)
  {
    if d == [] then 0 else DecimalValue(d[..|d| - 1]) * 10 + DigitValue(d[|d| - 1])
  }

  /** The shortest decimal rendering of `n`; reading it back gives `n`. */
  function Decimal(n: nat): (d: string)
    ensures |d| > 0 && AllDigits(d)
    ensures DecimalValue(d) == n
  {
    if n < 10 then [DigitChar(n)]
    else
      var d := Decimal(n / 10) + [DigitChar(n % 10)];
      assert d[..|d| - 1] == Decimal(n / 10);
      d
  }

  /**
   * Separators, one or more digits, then trailing separators: what follows
   * the tag in `TaggedNumber`.
   */
  function SpacedDigits(u: string): (r: ParseResult<nat>)
    ensures !r.Panicked?
    ensures r.Parsed? ==> IsSuffix(r.rest, u) && |r.rest| < |u|
    ensures r.Parsed? ==> r.rest == [] || !IsSpace(r.rest[0])
  {
    var v := SkipSpaces(u);
    var n := DigitRun(v);
    if n == 0 then Failed
    else
      var rest := SkipSpaces(v[n..]);
      SuffixTransitive(rest, v[n..], v);
      SuffixTransitive(rest, v, u);
      Parsed(DecimalValue(v[..n]), rest)
  }

  /**
   * `ws!(do_parse!(tag!(t) >> digit))`: separators, the tag character,
   * separators, one or more digits, then trailing separators. The value is
   * the decimal number the digits spell; narrowing it is left to the caller.
   */
  function TaggedNumber(s: string, tag: char): (r: ParseResult<nat>)
    ensures !r.Panicked?
    ensures r.Parsed? ==> IsSuffix(r.rest, s) && |r.rest| < |s|
    ensures r.Parsed? ==> r.rest == [] || !IsSpace(r.rest[0])
    ensures r.Parsed? ==> var t := SkipSpaces(s); |t| > 0 && t[0] == tag
  {
    var t := SkipSpaces(s);
    if |t| == 0 || t[0] != tag then Failed
    else
      var r := SpacedDigits(t[1..]);
      if r.Parsed? then
        SuffixTransitive(r.rest, t[1..], t);
        SuffixTransitive(r.rest, t, s);
        r
      else r
  }

  lemma SkipSpacesIdempotent(x: string)
    ensures SkipSpaces(SkipSpaces(x)) == SkipSpaces(x)
  {
    var u := SkipSpaces(x);
    assert u == [] || !IsSpace(u[0]);
  }

  /** Separators in front of the tag make no difference. */
  lemma TaggedNumberSkipsSpaces(x: string, tag: char)
    ensures TaggedNumber(SkipSpaces(x), tag) == TaggedNumber(x, tag)
  {
    SkipSpacesIdempotent(x);
  }

  /** Without the tag after the leading separators, the parser fails. */
  lemma TaggedNumberNeedsTag(s: string, tag: char)
    requires var t := SkipSpaces(s); t == [] || t[0] != tag
    ensures TaggedNumber(s, tag).Failed?
  {
  }

  /** A tag not followed (after separators) by a digit fails. */
  lemma TaggedNumberNeedsDigit(ws: string, tag: char, t: string)
    requires AllSpaces(ws) && !IsSpace(tag)
    requires t == [] || (!IsSpace(t[0]) && !IsDigit(t[0]))
    ensures TaggedNumber(ws + [tag] + t, tag).Failed?
  {
    TaggedStart(ws, tag, t);
    assert SkipSpaces(t) == t;
    assert DigitRun(t) == 0;
  }

  /** After separators, the tag is where the parser looks. */
  lemma TaggedStart(ws: string, tag: char, u: string)
    requires AllSpaces(ws) && !IsSpace(tag)
    ensures TaggedNumber(ws + [tag] + u, tag) == SpacedDigits(u)
  {
    var body := [tag] + u;
    assert ws + [tag] + u == ws + body;
    SkipSpacesPrefix(ws, body);
    assert body[1..] == u;
  }

  /** A maximal run of digits, not preceded by separators, is read whole. */
  lemma SpacedDigitsOf(d: string, t: string)
    requires |d| > 0 && AllDigits(d) && (t == [] || !IsDigit(t[0]))
    ensures SpacedDigits(d + t) == Parsed(DecimalValue(d), SkipSpaces(t))
  {
    var dt := d + t;
    assert SkipSpaces(dt) == dt by {
      assert !IsSpace(dt[0]);
    }
    DigitRunOf(d, t);
    assert dt[..|d|] == d && dt[|d|..] == t;
  }

  /**
   * Separators, the tag and a maximal run of digits: the parser reads the
   * digits' value and drops the separators after them.
   */
  lemma TaggedDigits(ws: string, tag: char, d: string, t: string)
    requires AllSpaces(ws) && !IsSpace(tag)
    requires |d| > 0 && AllDigits(d) && (t == [] || !IsDigit(t[0]))
    ensures TaggedNumber(ws + [tag] + d + t, tag) == Parsed(DecimalValue(d), SkipSpaces(t))
  {
    Associate(ws + [tag], d, t);
    TaggedStart(ws, tag, d + t);
    assert TaggedNumber(ws + [tag] + (d + t), tag) == SpacedDigits(d + t);
    SpacedDigitsOf(d, t);
  }

  lemma Associate(a: string, b: string, c: string)
    ensures a + b + c == a + (b + c)
  {
  }

  /**
   * Reading back a rendered number: separators, the tag, the decimal digits
   * of `n` and anything that does not continue the number.
   */
  lemma TaggedNumberRoundTrip(ws: string, tag: char, n: nat, t: string)
    requires AllSpaces(ws) && !IsSpace(tag)
    requires t == [] || !IsDigit(t[0])
    ensures TaggedNumber(ws + [tag] + Decimal(n) + t, tag) == Parsed(n, SkipSpaces(t))
  {
    TaggedDigits(ws, tag, Decimal(n), t);
  }
}
