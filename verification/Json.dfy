/**
 JSON trees, the decoding of their members into typed fields, and untyped values. Member names are
 compared exactly; the text of a document, with its escapes and repeated names, is not modelled.
 */
module Json {
  import opened Wrappers

  /** A number literal without fraction or exponent is an `Int`. */
  datatype Json =
    | Null
    | Bool(b: bool)
    | Int(i: int)
    | Frac(r: real)
    | Str(s: string)
    | Arr(items: seq<Json>)
    | Obj(members: map<string, Json>)

  /** A field left as raw JSON: absent, or whatever is there, null included. */
  function Raw(members: map<string, Json>, key: string): Option<Json> {
    if key in members then Some(members[key]) else None
  }

  /** A string field: absent and null leave the empty string. */
  function TextField(members: map<string, Json>, key: string): Result<string, string> {
    match Raw(members, key)
    case None => Ok("")
    case Some(Null) => Ok("")
    case Some(Str(s)) => Ok(s)
    case Some(_) => Err(key)
  }

  /** A string that may be nil: absent and null leave it so. */
  function NullableText(members: map<string, Json>, key: string): Result<Option<string>, string> {
    match Raw(members, key)
    case None => Ok(None)
    case Some(Null) => Ok(None)
    case Some(Str(s)) => Ok(Some(s))
    case Some(_) => Err(key)
  }

  predicate IsText(j: Json) {
    j.Null? || j.Str?
  }

  function TextOf(j: Json): string {
    if j.Str? then j.s else ""
  }

  /** An object read into a map of strings, where null reads as the empty string. */
  function Texts(j: Json): Result<map<string, string>, string>
    requires j.Obj?
  {
    if forall k | k in j.members :: IsText(j.members[k])
    then Ok(map k | k in j.members :: TextOf(j.members[k]))
    else Err("string map")
  }

  /** A map of strings printed as an object. */
  function FromTexts(m: map<string, string>): Json {
    Obj(map k | k in m :: Str(m[k]))
  }

  lemma TextsPrinted(m: map<string, string>)
    ensures Texts(FromTexts(m)) == Ok(m)
  {
    var j := FromTexts(m);
    assert (map k | k in j.members :: TextOf(j.members[k])) == m;
  }

  // Objects printed member by member

  function One(key: string, j: Json): map<string, Json> {
    map[key := j]
  }

  /** A member that is left out when there is no value. */
  function Optional(key: string, j: Option<Json>): map<string, Json> {
    match j case None => map[] case Some(v) => map[key := v]
  }

  function PrintText(o: Option<string>): Option<Json> {
    match o case None => None case Some(s) => Some(Str(s))
  }

  lemma TwoAndMore(a: string, b: string, i: Json, j: Json, more: map<string, Json>)
    requires a != b && a !in more && b !in more
    ensures var all := One(a, i) + One(b, j) + more;
            && Raw(all, a) == Some(i) && Raw(all, b) == Some(j) && all.Keys == {a, b} + more.Keys
            && forall key | key != a && key != b :: Raw(all, key) == Raw(more, key)
  {
  }

  lemma FourMembers(
      c: string, d: string, e: string, f: string,
      k: Option<Json>, l: Option<Json>, m: Option<Json>, n: Option<Json>)
    requires c != d && c != e && c != f && d != e && d != f && e != f
    ensures var all := Optional(c, k) + Optional(d, l) + Optional(e, m) + Optional(f, n);
            && Raw(all, c) == k && Raw(all, d) == l && Raw(all, e) == m && Raw(all, f) == n
            && all.Keys <= {c, d, e, f}
  {
  }

  // Untyped values

  /** A value behind an empty interface. */
  datatype Any =
    | Nil
    | Flag(b: bool)
    | Number(n: real)
    | Text(s: string)
    | List(items: seq<Any>)
    | Dict(entries: map<string, Any>)

  function Decode(j: Json): Any {
    match j
    case Null => Nil
    case Bool(b) => Flag(b)
    case Int(i) => Number(i as real)
    case Frac(r) => Number(r)
    case Str(s) => Text(s)
    case Arr(items) => List(seq(|items|, i requires 0 <= i < |items| => Decode(items[i])))
    case Obj(members) => Dict(map k | k in members :: Decode(members[k]))
  }

  /** Numbers of 21 digits and more are printed with an exponent. */
  const EXPONENT_FROM: real := 1_000_000_000_000_000_000_000.0

  function PrintNumber(n: real): Json {
    if n.Floor as real == n && -EXPONENT_FROM < n < EXPONENT_FROM then Int(n.Floor) else Frac(n)
  }

  function Encode(v: Any): Json {
    match v
    case Nil => Null
    case Flag(b) => Bool(b)
    case Number(n) => PrintNumber(n)
    case Text(s) => Str(s)
    case List(items) => Arr(seq(|items|, i requires 0 <= i < |items| => Encode(items[i])))
    case Dict(entries) => Obj(map k | k in entries :: Encode(entries[k]))
  }

  /** An untyped value of any depth survives printing and parsing. */
  lemma {:induction false} DecodeEncoded(v: Any)
    ensures Decode(Encode(v)) == v
  {
    match v
    case List(items) =>
      forall i | 0 <= i < |items|
        ensures Decode(Encode(items[i])) == items[i]
      {
        DecodeEncoded(items[i]);
      }
      assert Decode(Encode(v)).items == items;
    case Dict(entries) =>
      forall k | k in entries
        ensures Decode(Encode(entries[k])) == entries[k]
      {
        DecodeEncoded(entries[k]);
      }
      assert Decode(Encode(v)).entries == entries;
    case _ =>
  }
}
