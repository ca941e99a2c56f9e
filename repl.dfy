/**
 * The REPL's `parse_hex`: a line of hexadecimal bytes separated by single
 * spaces becomes the bytes themselves, or an error at the first piece that
 * is not a byte.
 */
module Repl {
  import opened Numeric
  import opened Tokens
  import opened Parsing

  /** `Result<Vec<u8>, ParseIntError>`; the error's kind is not kept. */
  datatype HexResult = Bytes(value: seq<uint8>) | ParseIntError

  // ---------------------------------------------------------------------
  // `str::split(" ")`
  // ---------------------------------------------------------------------

  /** Pieces put back together with one space between neighbours. */
  function Join(pieces: seq<string>): string
    requires |pieces| >= 1
  {
    if |pieces| == 1 then pieces[0] else pieces[0] + " " + Join(pieces[1..])
  }

  /**
   * `s.split(" ")`: the text between consecutive spaces, so an empty line
   * gives one empty piece and two spaces in a row give an empty piece
   * between them.
   */
  function Split(s: string): (pieces: seq<string>)
    ensures |pieces| >= 1
  {
    if s == [] then [""]
    else
      var tail := Split(s[1..]);
      if s[0] == ' ' then [""] + tail else [[s[0]] + tail[0]] + tail[1..]
  }

  /** A space starts a new piece; any other character joins the first piece. */
  lemma SplitCons(c: char, rest: string)
    ensures Split([c] + rest) ==
      if c == ' ' then [""] + Split(rest) else [[c] + Split(rest)[0]] + Split(rest)[1..]
  {
    assert ([c] + rest)[1..] == rest;
  }

  /** No piece holds a space. */
  lemma {:induction false} SplitPiecesHaveNoSpace(s: string)
    ensures forall i :: 0 <= i < |Split(s)| ==> ' ' !in Split(s)[i]
  {
    if s != [] {
      assert s == [s[0]] + s[1..];
      SplitCons(s[0], s[1..]);
      SplitPiecesHaveNoSpace(s[1..]);
      var tail := Split(s[1..]);
      var pieces := Split(s);
      forall i | 0 <= i < |pieces| ensures ' ' !in pieces[i] {
        if s[0] == ' ' {
          if i > 0 {
            assert pieces[i] == tail[i - 1];
          }
        } else if i > 0 {
          assert pieces[i] == tail[i];
        } else {
          assert pieces[0] == [s[0]] + tail[0];
        }
      }
    }
  }

  /** Joining the pieces gives back the text that was split. */
  lemma {:induction false} JoinSplit(s: string)
    ensures Join(Split(s)) == s
  {
    if s != [] {
      assert s == [s[0]] + s[1..];
      SplitCons(s[0], s[1..]);
      JoinSplit(s[1..]);
      var tail := Split(s[1..]);
      if s[0] == ' ' {
        assert ([""] + tail)[1..] == tail;
      } else {
        var pieces := [[s[0]] + tail[0]] + tail[1..];
        assert pieces[1..] == tail[1..];
      }
    }
  }

  /** Extending the first piece commutes with appending more pieces. */
  lemma ExtendFirst(c: char, front: seq<string>, back: seq<string>)
    requires |front| >= 1
    ensures [[c] + (front + back)[0]] + (front + back)[1..] == ([[c] + front[0]] + front[1..]) + back
  {
    assert (front + back)[0] == front[0] && (front + back)[1..] == front[1..] + back;
  }

  /** A space splits the text into what is before it and what is after it. */
  lemma {:induction false} SplitAppend(x: string, y: string)
    ensures Split(x + " " + y) == Split(x) + Split(y)
  {
    if x == [] {
      assert x + " " + y == [' '] + y;
      SplitCons(' ', y);
    } else {
      var c, more := x[0], x[1..] + " " + y;
      assert x + " " + y == [c] + more && x == [c] + x[1..];
      SplitCons(c, more);
      SplitCons(c, x[1..]);
      SplitAppend(x[1..], y);
      if c != ' ' {
        ExtendFirst(c, Split(x[1..]), Split(y));
      }
    }
  }

  /** Text without a space is a single piece. */
  lemma {:induction false} SplitNoSpace(p: string)
    requires ' ' !in p
    ensures Split(p) == [p]
  {
    if p != [] {
      assert ' ' !in p[1..] by {
        assert forall c :: c in p[1..] ==> c in p;
      }
      assert p == [p[0]] + p[1..];
      SplitCons(p[0], p[1..]);
      SplitNoSpace(p[1..]);
    }
  }

  /** Splitting undoes joining pieces that hold no space. */
  lemma {:induction false} SplitJoin(pieces: seq<string>)
    requires |pieces| >= 1 && forall i :: 0 <= i < |pieces| ==> ' ' !in pieces[i]
    ensures Split(Join(pieces)) == pieces
  {
    SplitNoSpace(pieces[0]);
    if |pieces| > 1 {
      SplitJoin(pieces[1..]);
      SplitAppend(pieces[0], Join(pieces[1..]));
      assert [pieces[0]] + pieces[1..] == pieces;
    }
  }

  // ---------------------------------------------------------------------
  // `u8::from_str_radix(piece, 16)`
  // ---------------------------------------------------------------------

  /** What `char::to_digit(16)` accepts: ASCII digits and letters a-f in either case. */
  predicate IsHexDigit(c: char) {
    ('0' <= c <= '9') || ('a' <= c <= 'f') || ('A' <= c <= 'F')
  }

  predicate AllHex(d: string) {
    forall i :: 0 <= i < |d| ==> IsHexDigit(d[i])
  }

  function HexDigitValue(c: char): (v: nat)
    requires IsHexDigit(c)
    ensures v < 16
  {
    if '0' <= c <= '9' then c as int - '0' as int
    else if 'a' <= c <= 'f' then c as int - 'a' as int + 10
    else c as int - 'A' as int + 10
  }

  /** The value of a string of hexadecimal digits, most significant first. */
  function HexValue(d: string): nat
    requires AllHex(d)
  {
    if d == [] then 0 else HexValue(d[..|d| - 1]) * 16 + HexDigitValue(d[|d| - 1])
  }

  /** The digits `from_str_radix` reads: one leading `+` is dropped unless it is all there is. */
  function HexDigitsOf(p: string): (d: string)
    ensures IsSuffix(d, p) && |p| - |d| <= 1
  {
    if |p| > 1 && p[0] == '+' then p[1..] else p
  }

  /** The sign is dropped exactly when it is a `+` with more text after it. */
  lemma HexDigitsOfSign(p: string)
    ensures |p| > 1 && p[0] == '+' ==> HexDigitsOf(p) == p[1..]
    ensures !(|p| > 1 && p[0] == '+') ==> HexDigitsOf(p) == p
  {
  }

  /**
   * `u8::from_str_radix(p, 16)`: an optional `+`, then at least one
   * hexadecimal digit, and a value that fits in a byte (leading zeros are
   * allowed). Anything else is an error.
   */
  function ByteFromHex(p: string): (r: Option<uint8>)
    ensures r.Some? ==> |p| > 0 && ' ' !in p
    ensures r.Some? ==> forall i :: 0 < i < |p| ==> IsHexDigit(p[i])
  {
    var d := HexDigitsOf(p);
    if d == [] || !AllHex(d) then None
    else if HexValue(d) > 0xFF then None
    else
      assert forall i :: 0 < i < |p| ==> p[i] == d[i - (|p| - |d|)];
      assert ' ' !in p by {
        assert !IsHexDigit(' ') && ' ' != '+';
        forall i | 0 <= i < |p| ensures p[i] != ' ' {
          if |p| == |d| {
            assert p[i] == d[i];
          } else if i > 0 {
            assert p[i] == d[i - 1];
          }
        }
      }
      Some(HexValue(d))
  }

  /**
   * What a piece that reads as a byte looks like: a hexadecimal digit or a
   * `+` first, hexadecimal digits after the sign, and the byte is their value.
   */
  lemma ByteFromHexValue(p: string)
    requires ByteFromHex(p).Some?
    ensures p[0] == '+' || IsHexDigit(p[0])
    ensures AllHex(HexDigitsOf(p)) && ByteFromHex(p).value == HexValue(HexDigitsOf(p))
  {
  }

  /** Hexadecimal digits worth at most a byte are read as that byte, with or without a `+`. */
  lemma ByteFromHexDigits(d: string)
    requires |d| > 0 && AllHex(d) && HexValue(d) <= 0xFF
    ensures ByteFromHex(d) == Some(HexValue(d))
    ensures ByteFromHex("+" + d) == Some(HexValue(d))
  {
    assert d[0] != '+';
    assert ("+" + d)[1..] == d;
  }

  /** Digits worth more than a byte are an error. */
  lemma ByteFromHexOverflow(d: string)
    requires |d| > 0 && AllHex(d) && HexValue(d) > 0xFF
    ensures ByteFromHex(d).None? && ByteFromHex("+" + d).None?
  {
    assert d[0] != '+';
    assert ("+" + d)[1..] == d;
  }

  // ---------------------------------------------------------------------
  // `parse_hex`
  // ---------------------------------------------------------------------

  /** Each piece in turn: all bytes if every piece is one, else the error. */
  function ParsePieces(pieces: seq<string>): (r: HexResult)
    ensures r.Bytes? <==> forall i :: 0 <= i < |pieces| ==> ByteFromHex(pieces[i]).Some?
    ensures r.Bytes? ==> |r.value| == |pieces|
    ensures r.Bytes? ==> forall i :: 0 <= i < |pieces| ==> ByteFromHex(pieces[i]) == Some(r.value[i])
  {
    if pieces == [] then Bytes([])
    else
      var first := ByteFromHex(pieces[0]);
      var tail := ParsePieces(pieces[1..]);
      assert forall j :: 0 <= j < |pieces| - 1 ==> pieces[1..][j] == pieces[j + 1];
      if first.None? || tail.ParseIntError? then ParseIntError
      else Bytes([first.value] + tail.value)
  }

  /** `bytes` are what the first `|bytes|` pieces read as. */
  predicate ReadPrefix(pieces: seq<string>, bytes: seq<uint8>) {
    |bytes| <= |pieces| && forall j :: 0 <= j < |bytes| ==> ByteFromHex(pieces[j]) == Some(bytes[j])
  }

  lemma ReadPrefixSnoc(pieces: seq<string>, bytes: seq<uint8>, b: uint8)
    requires ReadPrefix(pieces, bytes) && |bytes| < |pieces| && ByteFromHex(pieces[|bytes|]) == Some(b)
    ensures ReadPrefix(pieces, bytes + [b])
  {
    var next := bytes + [b];
    forall j | 0 <= j < |next| ensures ByteFromHex(pieces[j]) == Some(next[j]) {
      if j < |bytes| {
        assert next[j] == bytes[j];
      }
    }
  }

  /** Bytes read from every piece, in order, are the result. */
  lemma ParsePiecesAll(pieces: seq<string>, bytes: seq<uint8>)
    requires |bytes| == |pieces| && ReadPrefix(pieces, bytes)
    ensures ParsePieces(pieces) == Bytes(bytes)
  {
    var r := ParsePieces(pieces);
    assert r.Bytes?;
    assert forall j :: 0 <= j < |pieces| ==> r.value[j] == bytes[j];
  }

  /** One piece that is not a byte makes the result the error. */
  lemma ParsePiecesStops(pieces: seq<string>, k: nat)
    requires k < |pieces| && ByteFromHex(pieces[k]).None?
    ensures ParsePieces(pieces) == ParseIntError
  {
  }

  /** What `parse_hex` returns for the line `s`. */
  function HexBytes(s: string): HexResult {
    ParsePieces(Split(s))
  }

  /**
   * `parse_hex`: splits the line on single spaces, reads each piece as a
   * hexadecimal byte and collects the bytes, returning the error of the
   * first piece that is not one.
   */
  method ParseHex(i: string) returns (r: HexResult)
    ensures r == HexBytes(i)
  {
    var split := Split(i);
    var results: seq<uint8> := [];
    var k := 0;
    while k < |split|
      invariant 0 <= k <= |split|
      invariant |results| == k && ReadPrefix(split, results)
    {
      var byte := ByteFromHex(split[k]);
      if byte.None? {
        ParsePiecesStops(split, k);
        return ParseIntError;
      }
      ReadPrefixSnoc(split, results, byte.value);
      results := results + [byte.value];
      k := k + 1;
    }
    ParsePiecesAll(split, results);
    return Bytes(results);
  }

  // ---------------------------------------------------------------------
  // Properties
  // ---------------------------------------------------------------------

  /** An upper-case hexadecimal digit. */
  function HexDigitChar(v: nat): (c: char)
    requires v < 16
    ensures IsHexDigit(c) && HexDigitValue(c) == v
  {
    if v < 10 then ('0' as int + v) as char else ('A' as int + v - 10) as char
  }

  lemma HexValuePair(a: char, b: char)
    requires IsHexDigit(a) && IsHexDigit(b)
    ensures AllHex([a, b]) && HexValue([a, b]) == HexDigitValue(a) * 16 + HexDigitValue(b)
  {
    assert AllHex([a]) && AllHex([a, b]);
    assert [a][..0] == [];
    assert HexValue([a]) == HexDigitValue(a);
    assert [a, b][..1] == [a];
  }

  /** A byte as two upper-case hexadecimal digits, as in `E8`. */
  function HexByte(b: uint8): (p: string)
    ensures |p| == 2 && AllHex(p) && HexValue(p) == b
  {
    var p := [HexDigitChar(b / 16), HexDigitChar(b % 16)];
    HexValuePair(p[0], p[1]);
    p
  }

  /** Bytes written as hexadecimal pairs separated by single spaces. */
  function HexText(bytes: seq<uint8>): string
    requires |bytes| >= 1
  {
    Join(seq(|bytes|, i requires 0 <= i < |bytes| => HexByte(bytes[i])))
  }

  lemma ByteFromHexByte(b: uint8)
    ensures ByteFromHex(HexByte(b)) == Some(b) && ' ' !in HexByte(b)
  {
    ByteFromHexDigits(HexByte(b));
  }

  /** `parse_hex` reads back any non-empty run of bytes written as hexadecimal pairs. */
  lemma HexRoundTrip(bytes: seq<uint8>)
    requires |bytes| >= 1
    ensures HexBytes(HexText(bytes)) == Bytes(bytes)
  {
    var pieces := seq(|bytes|, i requires 0 <= i < |bytes| => HexByte(bytes[i]));
    forall i | 0 <= i < |pieces| ensures ' ' !in pieces[i] && ByteFromHex(pieces[i]) == Some(bytes[i]) {
      ByteFromHexByte(bytes[i]);
    }
    SplitJoin(pieces);
    ParsePiecesAll(pieces, bytes);
  }

  /** An empty line is one empty piece, which is not a byte. */
  lemma EmptyLineRejected()
    ensures HexBytes("") == ParseIntError
  {
    assert ByteFromHex("").None?;
  }

  /** Two spaces in a row leave an empty piece between them, which is not a byte. */
  lemma DoubleSpaceRejected(x: string, y: string)
    ensures HexBytes(x + "  " + y) == ParseIntError
  {
    assert x + "  " + y == x + " " + ("" + " " + y);
    SplitAppend(x, "" + " " + y);
    SplitAppend("", y);
    var pieces := Split(x + "  " + y);
    assert pieces[|Split(x)|] == "";
    assert ByteFromHex("").None?;
  }

  /** A piece worth more than a byte makes the whole line an error. */
  lemma OverflowRejected(x: string, d: string, y: string)
    requires |d| > 0 && AllHex(d) && HexValue(d) > 0xFF
    ensures HexBytes(x + " " + d + " " + y) == ParseIntError
  {
    ByteFromHexOverflow(d);
    SplitAppend(x + " " + d, y);
    SplitAppend(x, d);
    assert ' ' !in d by {
      assert !IsHexDigit(' ');
    }
    SplitNoSpace(d);
    var pieces := Split(x + " " + d + " " + y);
    assert pieces[|Split(x)|] == d;
  }

  lemma DocExampleBytes()
    ensures HexByte(0x00) == "00" && HexByte(0x01) == "01" && HexByte(0x03) == "03"
    ensures HexByte(0xE8) == "E8"
  {
  }

  lemma DocExampleText()
    ensures HexText([0x00, 0x01, 0x03, 0xE8]) == "00 01 03 E8"
  {
    var pieces := seq(4, i requires 0 <= i < 4 => HexByte([0x00, 0x01, 0x03, 0xE8][i]));
    DocExampleBytes();
    assert pieces == ["00", "01", "03", "E8"];
    assert Join(["E8"]) == "E8";
    assert Join(["03", "E8"]) == "03 E8";
    assert Join(["01", "03", "E8"]) == "01 03 E8";
  }

  /** The documented example: `00 01 03 E8`. */
  lemma DocExample()
    ensures HexBytes("00 01 03 E8") == Bytes([0x00, 0x01, 0x03, 0xE8])
  {
    DocExampleText();
    HexRoundTrip([0x00, 0x01, 0x03, 0xE8]);
  }
}
