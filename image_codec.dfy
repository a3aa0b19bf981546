/**
 * The serialised form of an image list, as `JSON.stringify` writes a list of strings and
 * `JSON.parse` reads it back: `["a","b"]`, with `"` and `\` escaped by a backslash.
 */
module ImageCodec {
  import opened Common

  /** Puts a backslash before every `"` and `\`. */
  function Escape(s: string): string
  {
    if s == [] then []
    else (if s[0] == '"' || s[0] == '\\' then ['\\', s[0]] else [s[0]]) + Escape(s[1..])
  }

  /** A string literal: the escaped text between double quotes. */
  function Quote(s: string): string
  {
    "\"" + Escape(s) + "\""
  }

  /** The elements of a non-empty list, comma-separated, followed by the closing bracket. */
  function EncodeItems(xs: seq<string>): string
    requires |xs| > 0
    decreases |xs|
  {
    Quote(xs[0]) + (if |xs| == 1 then "]" else "," + EncodeItems(xs[1..]))
  }

  /** `JSON.stringify(xs)` for a list of strings. */
  function Serialize(xs: seq<string>): string
  {
    if xs == [] then "[]" else "[" + EncodeItems(xs)
  }

  /**
   * Reads the body of a string literal (after its opening quote) up to the closing quote.
   * Gives the decoded text and what follows the quote, or None when the literal is not closed
   * or holds an escape other than `\"` and `\\`.
   */
  function ReadString(s: string): (r: Option<(string, string)>)
    ensures r.Some? ==> |r.value.1| < |s|
    decreases |s|
  {
    if s == [] then None
    else if s[0] == '"' then Some(([], s[1..]))
    else if s[0] == '\\' then
      if |s| < 2 || !(s[1] == '"' || s[1] == '\\') then None
      else match ReadString(s[2..])
        case None => None
        case Some(p) => Some(([s[1]] + p.0, p.1))
    else match ReadString(s[1..])
      case None => None
      case Some(p) => Some(([s[0]] + p.0, p.1))
  }

  /** Reads `"…","…"]`: one or more literals separated by commas, then the closing bracket. */
  function ReadItems(s: string): Option<seq<string>>
    decreases |s|
  {
    if s == [] || s[0] != '"' then None
    else match ReadString(s[1..])
      case None => None
      case Some(p) =>
        if p.1 == "]" then Some([p.0])
        else if p.1 != [] && p.1[0] == ',' then
          match ReadItems(p.1[1..])
          case None => None
          case Some(rest) => Some([p.0] + rest)
        else None
  }

  /** `JSON.parse` of a list of strings: None where it would throw. */
  function Parse(s: string): Option<seq<string>>
  {
    if s == "[]" then Some([])
    else if s != [] && s[0] == '[' then ReadItems(s[1..])
    else None
  }

  /** An escaped text followed by a quote reads back as the text, leaving what follows. */
  lemma {:induction false} ReadEscaped(x: string, rest: string)
    ensures ReadString(Escape(x) + "\"" + rest) == Some((x, rest))
    decreases |x|
  {
    if x == [] {
      assert Escape(x) + "\"" + rest == "\"" + rest;
    } else {
      ReadEscaped(x[1..], rest);
      var t := Escape(x[1..]) + "\"" + rest;
      assert [x[0]] + x[1..] == x;
      if x[0] == '"' || x[0] == '\\' {
        assert Escape(x) + "\"" + rest == ['\\', x[0]] + t;
        assert (['\\', x[0]] + t)[2..] == t;
      } else {
        assert Escape(x) + "\"" + rest == [x[0]] + t;
        assert ([x[0]] + t)[1..] == t;
      }
    }
  }

  /** The encoded elements of a non-empty list read back as that list. */
  lemma {:induction false} ReadEncoded(xs: seq<string>)
    requires |xs| > 0
    ensures ReadItems(EncodeItems(xs)) == Some(xs)
    decreases |xs|
  {
    var tail := if |xs| == 1 then "]" else "," + EncodeItems(xs[1..]);
    var e := EncodeItems(xs);
    assert e == "\"" + (Escape(xs[0]) + "\"" + tail);
    assert e[1..] == Escape(xs[0]) + "\"" + tail;
    assert e[0] == '"';
    ReadEscaped(xs[0], tail);
    if |xs| > 1 {
      ReadEncoded(xs[1..]);
      assert tail[0] == ',' && tail != "]";
      assert tail[1..] == EncodeItems(xs[1..]);
      assert [xs[0]] + xs[1..] == xs;
    } else {
      assert xs == [xs[0]];
    }
  }

  /** Serialising and parsing reproduces every list exactly, order and empty list included. */
  lemma RoundTrip(xs: seq<string>)
    ensures Parse(Serialize(xs)) == Some(xs)
  {
    if xs != [] {
      var e := EncodeItems(xs);
      assert e[0] == '"';
      var s := "[" + e;
      assert s[1..] == e;
      assert s != "[]";
      ReadEncoded(xs);
    }
  }

  /** Different lists serialise differently. */
  lemma SerializeInjective(xs: seq<string>, ys: seq<string>)
    requires Serialize(xs) == Serialize(ys)
    ensures xs == ys
  {
    RoundTrip(xs);
    RoundTrip(ys);
  }
}
