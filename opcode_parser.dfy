/** The `opcode` parser: a maximal run of letters, looked up as a mnemonic. */
module OpcodeParser {
  import opened Opcodes
  import opened Parsing
  import opened Tokens

  /**
   * `opcode`: `alpha1` then `Opcode::from`. It skips no separators, fails
   * exactly when the input does not start with a letter, consumes every
   * leading letter and turns an unknown word into IGL.
   */
  function ParseOpcode(s: string): (r: ParseResult<Token>)
    ensures !r.Panicked?
    ensures r.Parsed? <==> |s| > 0 && IsAlpha(s[0])
    ensures r.Parsed? ==> IsSuffix(r.rest, s) && |r.rest| < |s|
    ensures r.Parsed? ==> AllAlpha(s[..|s| - |r.rest|]) && (r.rest == [] || !IsAlpha(r.rest[0]))
    ensures r.Parsed? ==> r.value.Op?
  {
    var n := AlphaRun(s);
    if n == 0 then Failed
    else
      assert s[|s| - |s[n..]|..] == s[n..];
      Parsed(Op(FromMnemonic(s[..n])), s[n..])
  }

  /** The opcode is the one the consumed word names. */
  lemma OpcodeNamesWord(s: string)
    requires ParseOpcode(s).Parsed?
    ensures var r := ParseOpcode(s); r.value == Op(FromMnemonic(s[..|s| - |r.rest|]))
  {
  }

  lemma MnemonicIsAlpha(op: Opcode)
    requires op != IGL
    ensures AllAlpha(Mnemonic(op))
  {
  }

  /** Every mnemonic reads back as its opcode when no letter follows it. */
  lemma OpcodeRoundTrip(op: Opcode, t: string)
    requires op != IGL
    requires t == [] || !IsAlpha(t[0])
    ensures ParseOpcode(Mnemonic(op) + t) == Parsed(Op(op), t)
  {
    var w := Mnemonic(op);
    MnemonicIsAlpha(op);
    AlphaRunOf(w, t);
    assert (w + t)[..|w|] == w && (w + t)[|w|..] == t;
    MnemonicRoundTrip(op);
  }

  /** Any word of letters is accepted; one that is no mnemonic gives IGL. */
  lemma UnknownWordIsIllegal(w: string, t: string)
    requires |w| > 0 && AllAlpha(w) && (t == [] || !IsAlpha(t[0]))
    requires forall op :: op != IGL ==> Mnemonic(op) != w
    ensures ParseOpcode(w + t) == Parsed(Op(IGL), t)
  {
    AlphaRunOf(w, t);
    assert (w + t)[..|w|] == w && (w + t)[|w|..] == t;
  }

  /** The cases of `test_opcode`, and leading separators not being skipped. */
  lemma OpcodeTests()
    ensures ParseOpcode("load") == Parsed(Op(LOAD), "")
    ensures ParseOpcode(" load").Failed?
    ensures ParseOpcode("").Failed?
  {
    OpcodeRoundTrip(LOAD, "");
    assert "load" + "" == "load";
  }

  /** The `aold` case of `test_opcode`: a word that is no mnemonic gives IGL. */
  lemma UnknownWordTest()
    ensures ParseOpcode("aold") == Parsed(Op(IGL), "")
  {
    AlphaRunOf("aold", "");
    assert "aold" + "" == "aold" && "aold"[..4] == "aold";
    assert FromMnemonic("aold") == IGL;
  }
}
