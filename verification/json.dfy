/** The part of `JSON.stringify` the attribute serialiser relies on: arrays of
    strings, written without whitespace, with the string escapes of section
    24.5.2.2 (QuoteJSONString) of ECMA-262. `Decode*` is an independent
    reference decoder for that output, used to state the round trip. */
module Json {
  import opened Wrappers

  /** Lower-case hexadecimal digit, as QuoteJSONString writes `\u00XX`. */
  function HexDigit(n: nat): char
    requires n < 16
  {
    if n < 10 then ('0' as int + n) as char else ('a' as int + n - 10) as char
  }

  function HexValue(c: char): (r: Option<nat>)
    ensures r.Some? ==> r.value < 16
  {
    if '0' <= c <= '9' then Some(c as int - '0' as int)
    else if 'a' <= c <= 'f' then Some(c as int - 'a' as int + 10)
    else if 'A' <= c <= 'F' then Some(c as int - 'A' as int + 10)
    else None
  }

  /** The escape JSON.stringify writes for one character of a string. */
  function EscapeChar(c: char): (r: string)
    ensures |r| > 0
  {
    if c == '"' then "\\\""
    else if c == '\\' then "\\\\"
    else if c as int == 8 then "\\b"
    else if c == '\t' then "\\t"
    else if c == '\n' then "\\n"
    else if c as int == 12 then "\\f"
    else if c == '\r' then "\\r"
    else if c as int < 0x20 then "\\u00" + [HexDigit(c as int / 16), HexDigit(c as int % 16)]
    else [c]
  }

  function EscapeBody(s: string): string {
    if |s| == 0 then "" else EscapeChar(s[0]) + EscapeBody(s[1..])
  }

  /** `JSON.stringify(s)` for a string `s`. */
  function QuoteString(s: string): string {
    "\"" + EscapeBody(s) + "\""
  }

  /** The elements of a non-empty array followed by the closing bracket. */
  function EncodeElems(items: seq<string>): string
    requires |items| > 0
  {
    QuoteString(items[0]) + (if |items| == 1 then "]" else "," + EncodeElems(items[1..]))
  }

  /** `JSON.stringify(items)` for an array of strings. */
  function EncodeArray(items: seq<string>): string {
    if |items| == 0 then "[]" else "[" + EncodeElems(items)
  }

  /** The encoding is bracketed, and is `[]` exactly for the empty array. */
  lemma ArrayBracketed(items: seq<string>)
    ensures var r := EncodeArray(items); |r| >= 2 && r[0] == '[' && r[|r| - 1] == ']'
    ensures EncodeArray(items) == "[]" <==> |items| == 0
  {
    if |items| > 0 {
      ElemsClose(items);
    }
  }

  /** The elements' text opens with a quote and ends with the closing bracket. */
  lemma {:induction false} ElemsClose(items: seq<string>)
    requires |items| > 0
    ensures var e := EncodeElems(items); |e| >= 3 && e[0] == '"' && e[|e| - 1] == ']'
    decreases |items|
  {
    if |items| > 1 {
      ElemsClose(items[1..]);
    }
  }

  // ----- reference decoder -----

  /** Decodes the escape sequence at the head of `s` (which starts with a
      backslash) into the character it denotes and the length it occupies. */
  function Unescape(s: string): (r: Option<(char, nat)>)
    requires |s| > 0 && s[0] == '\\'
    ensures r.Some? ==> 2 <= r.value.1 <= |s|
  {
    if |s| < 2 then None
    else if s[1] == '"' || s[1] == '\\' || s[1] == '/' then Some((s[1], 2))
    else if s[1] == 'b' then Some((8 as char, 2))
    else if s[1] == 't' then Some(('\t', 2))
    else if s[1] == 'n' then Some(('\n', 2))
    else if s[1] == 'f' then Some((12 as char, 2))
    else if s[1] == 'r' then Some(('\r', 2))
    else if s[1] == 'u' && |s| >= 6 then
      match (HexValue(s[2]), HexValue(s[3]), HexValue(s[4]), HexValue(s[5]))
      case (Some(a), Some(b), Some(c), Some(d)) =>
        var code := ((a * 16 + b) * 16 + c) * 16 + d;
        if 0xD800 <= code < 0xE000 then None else Some((code as char, 6))
      case _ => None
    else None
  }

  /** Decodes string contents up to the closing quote; returns the decoded
      text and what follows the quote. */
  function ParseBody(s: string): (r: Option<(string, string)>)
    ensures r.Some? ==> |r.value.1| < |s|
    decreases |s|
  {
    if |s| == 0 then None
    else if s[0] == '"' then Some(("", s[1..]))
    else if s[0] == '\\' then
      match Unescape(s)
      case None => None
      case Some((c, n)) => Prepend(c, ParseBody(s[n..]))
    else if s[0] as int < 0x20 then None
    else Prepend(s[0], ParseBody(s[1..]))
  }

  function Prepend(c: char, r: Option<(string, string)>): Option<(string, string)> {
    match r
    case None => None
    case Some((x, rest)) => Some(([c] + x, rest))
  }

  function ParseString(t: string): (r: Option<(string, string)>)
    ensures r.Some? ==> |r.value.1| < |t|
  {
    if |t| > 0 && t[0] == '"' then ParseBody(t[1..]) else None
  }

  function ParseElems(t: string): Option<seq<string>>
    decreases |t|
  {
    match ParseString(t)
    case None => None
    case Some((x, r)) =>
      if r == "]" then Some([x])
      else if |r| > 0 && r[0] == ',' then
        match ParseElems(r[1..])
        case None => None
        case Some(xs) => Some([x] + xs)
      else None
  }

  function DecodeArray(s: string): Option<seq<string>> {
    if s == "[]" then Some([])
    else if |s| > 0 && s[0] == '[' then ParseElems(s[1..])
    else None
  }

  // ----- round trip -----

  lemma HexRoundTrip(n: nat)
    requires n < 16
    ensures HexValue(HexDigit(n)) == Some(n)
  {
  }

  /** Decoding the escape of one character yields that character and
      consumes exactly the escape. */
  lemma {:induction false} ParseBodyStep(c: char, t: string)
    ensures ParseBody(EscapeChar(c) + t) == Prepend(c, ParseBody(t))
  {
    var e := EscapeChar(c);
    var s := e + t;
    assert s[|e|..] == t;
    if c as int < 0x20 && c != '\t' && c != '\n' && c != '\r' && c as int != 8 && c as int != 12 {
      var hi, lo := c as int / 16, c as int % 16;
      HexRoundTrip(hi);
      HexRoundTrip(lo);
      assert s[2] == '0' && s[3] == '0' && s[4] == HexDigit(hi) && s[5] == HexDigit(lo);
      assert Unescape(s) == Some((c, 6));
    }
  }

  lemma {:induction false} BodyRoundTrip(x: string, rest: string)
    ensures ParseBody(EscapeBody(x) + "\"" + rest) == Some((x, rest))
    decreases |x|
  {
    if |x| == 0 {
      assert EscapeBody(x) + "\"" + rest == "\"" + rest;
    } else {
      var t := EscapeBody(x[1..]) + "\"" + rest;
      assert EscapeBody(x) + "\"" + rest == EscapeChar(x[0]) + t;
      ParseBodyStep(x[0], t);
      BodyRoundTrip(x[1..], rest);
      assert [x[0]] + x[1..] == x;
    }
  }

  lemma StringRoundTrip(x: string, rest: string)
    ensures ParseString(QuoteString(x) + rest) == Some((x, rest))
  {
    var t := QuoteString(x) + rest;
    assert t[1..] == EscapeBody(x) + "\"" + rest;
    BodyRoundTrip(x, rest);
  }

  lemma {:induction false} ElemsRoundTrip(items: seq<string>)
    requires |items| > 0
    ensures ParseElems(EncodeElems(items)) == Some(items)
    decreases |items|
  {
    if |items| == 1 {
      StringRoundTrip(items[0], "]");
      assert [items[0]] == items;
    } else {
      var tail := "," + EncodeElems(items[1..]);
      StringRoundTrip(items[0], tail);
      assert tail[1..] == EncodeElems(items[1..]);
      ElemsRoundTrip(items[1..]);
      assert [items[0]] + items[1..] == items;
    }
  }

  /** The reference decoder inverts the encoder on every array of strings. */
  lemma ArrayRoundTrip(items: seq<string>)
    ensures DecodeArray(EncodeArray(items)) == Some(items)
  {
    if |items| > 0 {
      var s := EncodeArray(items);
      assert s[1] == '"';
      assert s != "[]";
      assert s[1..] == EncodeElems(items);
      ElemsRoundTrip(items);
    }
  }

  /** Characters JSON.stringify writes unchanged. */
  predicate PlainChar(c: char) {
    c != '"' && c != '\\' && c as int >= 0x20
  }

  lemma {:induction false} PlainBody(s: string)
    requires forall i :: 0 <= i < |s| ==> PlainChar(s[i])
    ensures EscapeBody(s) == s
    decreases |s|
  {
    if |s| > 0 {
      PlainBody(s[1..]);
      assert [s[0]] + s[1..] == s;
    }
  }

  // ----- characters the encoding introduces -----

  lemma {:induction false} EscapeBodyKeeps(s: string, q: char)
    requires q != '"' && q != '\\' && q as int >= 0x20 && !('0' <= q <= '9') && !('a' <= q <= 'z')
    requires q !in s
    ensures q !in EscapeBody(s)
    decreases |s|
  {
    if |s| > 0 {
      EscapeBodyKeeps(s[1..], q);
      var c := s[0];
      if c as int < 0x20 {
        assert HexDigit(c as int / 16) != q && HexDigit(c as int % 16) != q;
      }
    }
  }

  lemma {:induction false} ElemsKeep(items: seq<string>, q: char)
    requires |items| > 0
    requires q != '"' && q != '\\' && q != ',' && q != ']' && q as int >= 0x20 && !('0' <= q <= '9') && !('a' <= q <= 'z')
    requires forall i :: 0 <= i < |items| ==> q !in items[i]
    ensures q !in EncodeElems(items)
    decreases |items|
  {
    EscapeBodyKeeps(items[0], q);
    if |items| > 1 {
      ElemsKeep(items[1..], q);
    }
  }

  /** A character the encoder never writes on its own (such as an apostrophe)
      appears in the encoding only if some element contains it. */
  lemma ArrayKeeps(items: seq<string>, q: char)
    requires q != '"' && q != '\\' && q != ',' && q != ']' && q != '[' && q as int >= 0x20 && !('0' <= q <= '9') && !('a' <= q <= 'z')
    requires forall i :: 0 <= i < |items| ==> q !in items[i]
    ensures q !in EncodeArray(items)
  {
    if |items| > 0 {
      ElemsKeep(items, q);
    }
  }
}
