/** `attrsToString` of the flexbox blocks: an ordered attribute map becomes
    the attribute text of an HTML start tag. Primitive values are written in
    double quotes exactly as given; arrays are JSON-encoded and written in
    single quotes. `ParseAttrs` is a reference reader of that text, used to
    state what the serialiser preserves. */
module Attributes {
  import opened Wrappers
  import Json

  /** An attribute value: a primitive (by its string form) or an array of strings. */
  datatype AttrValue = Prim(text: string) | Struct(items: seq<string>)

  /** An object literal's entries in insertion order. `for…in` visits
      string keys in that order; the maps serialised here have no
      integer-like keys, which it would visit first. */
  type AttrMap = seq<(string, AttrValue)>

  /** The quoted value: `"v"` for a primitive, `'<JSON>'` for an array. */
  function Quoted(v: AttrValue): string {
    match v
    case Prim(s) => "\"" + s + "\""
    case Struct(xs) => "'" + Json.EncodeArray(xs) + "'"
  }

  /** One `key=…` fragment. */
  function Fragment(key: string, v: AttrValue): string {
    key + "=" + Quoted(v)
  }

  /** The fragments the loop pushes, one per entry, in entry order. */
  function Fragments(m: AttrMap): (r: seq<string>)
    ensures |r| == |m|
    ensures forall i :: 0 <= i < |m| ==> r[i] == Fragment(m[i].0, m[i].1)
  {
    seq(|m|, i requires 0 <= i < |m| => Fragment(m[i].0, m[i].1))
  }

  /** `Array.prototype.join(sep)`. */
  function Join(parts: seq<string>, sep: string): string {
    if |parts| == 0 then ""
    else if |parts| == 1 then parts[0]
    else parts[0] + sep + Join(parts[1..], sep)
  }

  /** The serialiser: empty for an empty map, otherwise a space followed by
      the fragments joined by single spaces. */
  function AttrsToString(m: AttrMap): (r: string)
    ensures |m| == 0 <==> r == ""
    ensures |m| > 0 ==> r[0] == ' ' && Fragment(m[0].0, m[0].1) <= r[1..]
  {
    var parts := Fragments(m);
    if |parts| > 0 then
      JoinHead(parts, " ");
      " " + Join(parts, " ")
    else ""
  }

  lemma JoinHead(parts: seq<string>, sep: string)
    requires |parts| > 0
    ensures parts[0] <= Join(parts, sep)
  {
  }

  /** No entry of `m` has `key`. */
  predicate KeyAbsent(m: AttrMap, key: string) {
    forall j :: 0 <= j < |m| ==> m[j].0 != key
  }

  /** The value of the first entry with `key`, as a reader of the element sees it. */
  function Lookup(m: AttrMap, key: string): (r: Option<AttrValue>)
    ensures r.Some? <==> exists i :: 0 <= i < |m| && m[i].0 == key
  {
    if |m| == 0 then None
    else if m[0].0 == key then Some(m[0].1)
    else
      var r := Lookup(m[1..], key);
      assert forall i :: 1 <= i < |m| ==> m[i] == m[1..][i - 1];
      r
  }

  /** `Lookup` finds the earliest entry with `key`: when the entry at `i`
      has `key` and no earlier one does, its value is the one returned. */
  lemma {:induction false} LookupFirst(m: AttrMap, key: string, i: nat)
    requires i < |m| && m[i].0 == key && KeyAbsent(m[..i], key)
    ensures Lookup(m, key) == Some(m[i].1)
    decreases i
  {
    if i > 0 {
      assert m[0] == m[..i][0];
      assert m[1..][i - 1] == m[i];
      assert m[1..][..i - 1] == m[..i][1..];
      LookupFirst(m[1..], key, i - 1);
    }
  }

  // ----- reference reader -----

  /** Splits at the first occurrence of `c`. */
  function SplitFirst(s: string, c: char): (r: Option<(string, string)>)
    ensures r.Some? ==> s == r.value.0 + [c] + r.value.1 && c !in r.value.0
    ensures r.None? ==> c !in s
  {
    if |s| == 0 then None
    else if s[0] == c then Some(("", s[1..]))
    else
      match SplitFirst(s[1..], c)
      case None => None
      case Some((a, b)) => Some(([s[0]] + a, b))
  }

  lemma {:induction false} SplitFirstOf(a: string, c: char, b: string)
    requires c !in a
    ensures SplitFirst(a + [c] + b, c) == Some((a, b))
    decreases |a|
  {
    var s := a + [c] + b;
    if |a| > 0 {
      assert s[1..] == a[1..] + [c] + b;
      SplitFirstOf(a[1..], c, b);
      assert [a[0]] + a[1..] == a;
    } else {
      assert s[1..] == b;
    }
  }

  /** Reads a value written between quote characters `q`. */
  function ReadValue(q: char, body: string): Option<AttrValue> {
    if q == '"' then Some(Prim(body))
    else match Json.DecodeArray(body)
      case None => None
      case Some(xs) => Some(Struct(xs))
  }

  function ParseFragments(t: string): Option<AttrMap>
    decreases |t|, 1
  {
    match SplitFirst(t, '=')
    case None => None
    case Some((key, rest)) =>
      if |rest| == 0 || (rest[0] != '"' && rest[0] != '\'') then None
      else
        match SplitFirst(rest[1..], rest[0])
        case None => None
        case Some((body, tail)) =>
          match ReadValue(rest[0], body)
          case None => None
          case Some(v) => Continue((key, v), tail)
  }

  /** After one entry: the end of the text, or a space and further fragments. */
  function Continue(e: (string, AttrValue), tail: string): Option<AttrMap>
    decreases |tail|, 0
  {
    if tail == "" then Some([e])
    else if tail[0] != ' ' then None
    else Cons(e, ParseFragments(tail[1..]))
  }

  function Cons(e: (string, AttrValue), r: Option<AttrMap>): Option<AttrMap> {
    match r
    case None => None
    case Some(more) => Some([e] + more)
  }

  function ParseAttrs(s: string): Option<AttrMap> {
    if s == "" then Some([])
    else if s[0] == ' ' then ParseFragments(s[1..])
    else None
  }

  /** What the reader needs to find the fragment boundaries again: no `=`
      in a key, no `"` in a primitive, no `'` in an array element. */
  predicate Readable(m: AttrMap) {
    forall i :: 0 <= i < |m| ==> ReadableEntry(m[i].0, m[i].1)
  }

  predicate ReadableEntry(key: string, v: AttrValue) {
    && '=' !in key
    && match v
       case Prim(s) => '"' !in s
       case Struct(xs) => forall j :: 0 <= j < |xs| ==> '\'' !in xs[j]
  }

  lemma ParseQuoted(key: string, q: char, body: string, tail: string)
    requires '=' !in key && (q == '"' || q == '\'') && q !in body
    ensures ParseFragments(key + ['='] + [q] + body + [q] + tail)
         == match ReadValue(q, body)
            case None => None
            case Some(v) => Continue((key, v), tail)
  {
    var rest := [q] + body + [q] + tail;
    assert key + ['='] + [q] + body + [q] + tail == key + ['='] + rest;
    SplitFirstOf(key, '=', rest);
    assert rest[1..] == body + [q] + tail;
    SplitFirstOf(body, q, tail);
  }

  /** Reading one fragment written by the serialiser, followed by `tail`. */
  lemma FragmentStep(key: string, v: AttrValue, tail: string)
    requires ReadableEntry(key, v)
    ensures ParseFragments(Fragment(key, v) + tail) == Continue((key, v), tail)
  {
    var q := if v.Prim? then '"' else '\'';
    var body := if v.Prim? then v.text else Json.EncodeArray(v.items);
    assert Fragment(key, v) + tail == key + ['='] + [q] + body + [q] + tail;
    if v.Struct? {
      Json.ArrayKeeps(v.items, '\'');
      Json.ArrayRoundTrip(v.items);
    }
    assert ReadValue(q, body) == Some(v);
    ParseQuoted(key, q, body, tail);
  }

  /** The joined fragments of a map with several entries: the first
      fragment, a space, then the joined fragments of the rest. */
  lemma JoinFragmentsCons(m: AttrMap)
    requires |m| > 1
    ensures Join(Fragments(m), " ") == Fragment(m[0].0, m[0].1) + (" " + Join(Fragments(m[1..]), " "))
  {
    assert Fragments(m)[1..] == Fragments(m[1..]);
  }

  lemma ReadableTail(m: AttrMap)
    requires |m| > 0 && Readable(m)
    ensures Readable(m[1..])
  {
    forall i | 0 <= i < |m[1..]| ensures ReadableEntry(m[1..][i].0, m[1..][i].1) {
      assert m[1..][i] == m[i + 1];
    }
  }

  /** After a fragment, a space followed by the text of the rest. */
  lemma ContinueSpace(e: (string, AttrValue), rest: string)
    ensures Continue(e, " " + rest) == Cons(e, ParseFragments(rest))
  {
    assert (" " + rest)[1..] == rest;
  }

  lemma {:induction false} FragmentsRoundTrip(m: AttrMap)
    requires |m| > 0 && Readable(m)
    ensures ParseFragments(Join(Fragments(m), " ")) == Some(m)
    decreases |m|
  {
    var (key, v) := m[0];
    assert ReadableEntry(key, v);
    if |m| == 1 {
      FragmentStep(key, v, "");
      assert Join(Fragments(m), " ") == Fragment(key, v) + "";
      assert [(key, v)] == m;
    } else {
      var rest := Join(Fragments(m[1..]), " ");
      JoinFragmentsCons(m);
      FragmentStep(key, v, " " + rest);
      ContinueSpace((key, v), rest);
      ReadableTail(m);
      FragmentsRoundTrip(m[1..]);
      assert [(key, v)] + m[1..] == m;
    }
  }

  /** Reading the serialised text gives back every entry, in order, with its
      value: nothing is dropped, duplicated, reordered or altered. */
  lemma AttrsRoundTrip(m: AttrMap)
    requires Readable(m)
    ensures ParseAttrs(AttrsToString(m)) == Some(m)
  {
    if |m| > 0 {
      var s := AttrsToString(m);
      assert s[1..] == Join(Fragments(m), " ");
      FragmentsRoundTrip(m);
    }
  }

  /** Hence the serialiser is injective on readable maps. */
  lemma AttrsInjective(m1: AttrMap, m2: AttrMap)
    requires Readable(m1) && Readable(m2)
    requires AttrsToString(m1) == AttrsToString(m2)
    ensures m1 == m2
  {
    AttrsRoundTrip(m1);
    AttrsRoundTrip(m2);
  }

  lemma AttrsOne(key: string, v: AttrValue)
    ensures AttrsToString([(key, v)]) == " " + Fragment(key, v)
  {
    assert Fragments([(key, v)]) == [Fragment(key, v)];
  }

  lemma AttrsTwo(k1: string, v1: AttrValue, k2: string, v2: AttrValue)
    ensures AttrsToString([(k1, v1), (k2, v2)]) == " " + Fragment(k1, v1) + " " + Fragment(k2, v2)
  {
    var parts := Fragments([(k1, v1), (k2, v2)]);
    assert parts == [Fragment(k1, v1), Fragment(k2, v2)];
    assert parts[1..] == [Fragment(k2, v2)];
    assert Join(parts, " ") == Fragment(k1, v1) + " " + Fragment(k2, v2);
  }

  /** A primitive is written verbatim in double quotes. */
  lemma PrimitiveVerbatim(key: string, value: string)
    ensures AttrsToString([(key, Prim(value))]) == " " + key + "=\"" + value + "\""
  {
    AttrsOne(key, Prim(value));
  }

  /** An array is written JSON-encoded in single quotes: a one-element
      array of plain text `w` (such as `width`) reads `key='["w"]'`. */
  lemma StructuredQuoting(key: string, w: string)
    requires forall i :: 0 <= i < |w| ==> Json.PlainChar(w[i])
    ensures AttrsToString([(key, Struct([w]))]) == " " + key + "='[\"" + w + "\"]'"
  {
    Json.PlainBody(w);
    assert Json.EncodeArray([w]) == "[" + ("\"" + w + "\"") + "]";
    AttrsOne(key, Struct([w]));
  }

  /** The character after `key=` tells the two conventions apart. */
  lemma QuoteTellsKind(key: string, v: AttrValue)
    ensures AttrsToString([(key, v)])[|key| + 2] == (if v.Struct? then '\'' else '"')
  {
    AttrsOne(key, v);
  }

  /** No escaping is applied to primitives: a value holding a double quote
      makes two different maps serialise to the same text. */
  lemma UnescapedPrimitiveCollision()
    ensures AttrsToString([("title", Prim("a\" b=\"c"))])
         == AttrsToString([("title", Prim("a")), ("b", Prim("c"))])
  {
    AttrsOne("title", Prim("a\" b=\"c"));
    AttrsTwo("title", Prim("a"), "b", Prim("c"));
  }
}
