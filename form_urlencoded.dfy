/**
 * The application/x-www-form-urlencoded parser of section 5.1 of the WHATWG URL Standard, as
 * `new URLSearchParams(init)` runs it, and `URLSearchParams.prototype.get`.
 */
module FormUrlencoded {
  import opened Wrappers
  import opened Strings

  /** One name-value pair of the parsed list. */
  datatype Pair = Pair(name: string, value: string)

  predicate IsHexDigit(c: char) {
    '0' <= c <= '9' || 'A' <= c <= 'F' || 'a' <= c <= 'f'
  }

  function HexValue(c: char): (n: nat)
    requires IsHexDigit(c)
    ensures n < 16
  {
    if '0' <= c <= '9' then c as int - '0' as int
    else if 'A' <= c <= 'F' then c as int - 'A' as int + 10
    else c as int - 'a' as int + 10
  }

  /** `s` starts with a percent-escape `%HH` of an ASCII byte (below 0x80). */
  predicate StartsWithAsciiEscape(s: string) {
    |s| >= 3 && s[0] == '%' && IsHexDigit(s[1]) && IsHexDigit(s[2]) && HexValue(s[1]) < 8
  }

  /**
   * Decoding of one name or value: every `+` becomes a space, and every percent-escape of an
   * ASCII byte becomes that character; everything else is kept.
   */
  function Decode(s: string): (r: string)
    ensures |r| <= |s|
    ensures '%' !in s && '+' !in s ==> r == s
    decreases |s|
  {
    if |s| == 0 then ""
    else if s[0] == '+' then " " + Decode(s[1..])
    else if StartsWithAsciiEscape(s) then
      [(HexValue(s[1]) * 16 + HexValue(s[2])) as char] + Decode(s[3..])
    else
      assert s == [s[0]] + s[1..];
      [s[0]] + Decode(s[1..])
  }

  /**
   * One non-empty `&`-separated piece: the name runs up to the first `=`, the value is the rest
   * after it; a piece without `=` is a name with an empty value.
   */
  function ParsePair(piece: string): (p: Pair)
    ensures '=' !in piece ==> p == Pair(Decode(piece), "")
    ensures '=' in piece ==>
      exists i :: 0 <= i < |piece| && piece[i] == '=' && '=' !in piece[..i] &&
                  p == Pair(Decode(piece[..i]), Decode(piece[i + 1..]))
  {
    match IndexOf(piece, '=')
    case None => Pair(Decode(piece), "")
    case Some(i) => Pair(Decode(piece[..i]), Decode(piece[i + 1..]))
  }

  /** The pairs of the pieces in order, empty pieces skipped. */
  function ParsePieces(pieces: seq<string>): (r: seq<Pair>)
    ensures |r| <= |pieces|
    ensures (forall i :: 0 <= i < |pieces| ==> pieces[i] == "") ==> r == []
    decreases |pieces|
  {
    if |pieces| == 0 then []
    else if pieces[0] == "" then ParsePieces(pieces[1..])
    else [ParsePair(pieces[0])] + ParsePieces(pieces[1..])
  }

  /** The urlencoded parser: split on `&`, then parse each non-empty piece. */
  function Parse(input: string): (r: seq<Pair>)
    ensures input == "" ==> r == []
    ensures |r| <= |Split(input, '&')|
  {
    ParsePieces(Split(input, '&'))
  }

  /** `new URLSearchParams(init)` for a string `init`: one leading `?` is dropped first. */
  function SearchParams(init: string): (r: seq<Pair>)
    ensures |init| > 0 && init[0] == '?' ==> r == Parse(init[1..])
    ensures (|init| == 0 || init[0] != '?') ==> r == Parse(init)
  {
    Parse(if |init| > 0 && init[0] == '?' then init[1..] else init)
  }

  /** `params.get(name)`: the value of the first pair with that name, or `null`. */
  function Get(pairs: seq<Pair>, name: string): (r: Option<string>)
    ensures r.None? <==> forall i :: 0 <= i < |pairs| ==> pairs[i].name != name
    ensures r.Some? ==> exists i :: 0 <= i < |pairs| && pairs[i] == Pair(name, r.value) &&
                          forall j :: 0 <= j < i ==> pairs[j].name != name
    decreases |pairs|
  {
    if |pairs| == 0 then None
    else if pairs[0].name == name then Some(pairs[0].value)
    else
      var r := Get(pairs[1..], name);
      if r.Some? then
        var k :| 0 <= k < |pairs| - 1 && pairs[1..][k] == Pair(name, r.value) &&
                 forall j :: 0 <= j < k ==> pairs[1..][j].name != name;
        assert pairs[k + 1] == Pair(name, r.value);
        r
      else r
  }

  /** A `+` decodes to a space. */
  lemma DecodePlus(rest: string)
    ensures Decode("+" + rest) == " " + Decode(rest)
  {
    assert ("+" + rest)[1..] == rest;
  }

  /** `%HH` with a value below 0x80, in either case of hex digit, decodes to that character. */
  lemma DecodeAsciiEscape(h1: char, h2: char, rest: string)
    requires IsHexDigit(h1) && IsHexDigit(h2) && HexValue(h1) < 8
    ensures Decode(['%', h1, h2] + rest) == [(HexValue(h1) * 16 + HexValue(h2)) as char] + Decode(rest)
  {
    var s := ['%', h1, h2] + rest;
    assert StartsWithAsciiEscape(s);
    assert s[3..] == rest;
  }

  /** Any other character, including a `%` that starts no ASCII escape, is kept as it is. */
  lemma DecodeKeeps(c: char, rest: string)
    requires c != '+' && !StartsWithAsciiEscape([c] + rest)
    ensures Decode([c] + rest) == [c] + Decode(rest)
  {
    assert ([c] + rest)[1..] == rest;
  }

  /** An empty piece, wherever it is, contributes nothing. */
  lemma {:induction false} ParsePiecesSkipsEmpty(pieces: seq<string>, i: int)
    requires 0 <= i < |pieces| && pieces[i] == ""
    ensures ParsePieces(pieces) == ParsePieces(pieces[..i] + pieces[i + 1..])
    decreases i
  {
    if i > 0 {
      ParsePiecesSkipsEmpty(pieces[1..], i - 1);
      assert pieces[1..][..i - 1] + pieces[1..][i..] == (pieces[..i] + pieces[i + 1..])[1..];
    } else {
      assert pieces[..i] + pieces[i + 1..] == pieces[1..];
    }
  }

  /** A piece `name=value` whose name has no `=` parses to the decoded name and value. */
  lemma ParsePairAt(name: string, value: string)
    requires '=' !in name
    ensures ParsePair(name + "=" + value) == Pair(Decode(name), Decode(value))
  {
    var piece := name + "=" + value;
    assert piece[..|name|] == name && piece[|name|] == '=';
    assert piece[|name| + 1..] == value;
    assert '=' in piece[..|name| + 1];
  }

  /** A piece `name=value` with nothing to decode parses to exactly that name and value. */
  lemma PlainPair(name: string, value: string)
    requires '=' !in name && '%' !in name && '+' !in name && '%' !in value && '+' !in value
    ensures ParsePair(name + "=" + value) == Pair(name, value)
  {
    ParsePairAt(name, value);
  }

  /** Non-empty pieces without `&`, joined with `&`, parse to one pair per piece. */
  lemma {:induction false} ParseJoin(pieces: seq<string>)
    requires |pieces| >= 1
    requires forall i :: 0 <= i < |pieces| ==> pieces[i] != "" && '&' !in pieces[i]
    ensures var r := Parse(Join(pieces, '&'));
      |r| == |pieces| && forall i :: 0 <= i < |pieces| ==> r[i] == ParsePair(pieces[i])
  {
    SplitJoin(pieces, '&');
    ParsePiecesAllNonEmpty(pieces);
  }

  lemma {:induction false} ParsePiecesAllNonEmpty(pieces: seq<string>)
    requires forall i :: 0 <= i < |pieces| ==> pieces[i] != ""
    ensures var r := ParsePieces(pieces);
      |r| == |pieces| && forall i :: 0 <= i < |pieces| ==> r[i] == ParsePair(pieces[i])
    decreases |pieces|
  {
    if |pieces| > 0 {
      ParsePiecesAllNonEmpty(pieces[1..]);
    }
  }
}
