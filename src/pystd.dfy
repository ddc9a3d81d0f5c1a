/** The Python values and library calls the pipeline relies on: decoded JSON
    and YAML documents, `dict.get`, truthiness, `int()` and `str()` on such
    values, `urllib.parse.quote`, and list slicing.

    `json.loads`, `json.dumps`, `yaml.safe_load` and `urllib.parse.unquote`
    stay abstract: they are fields of a `Stdlib` record that every operation
    using them takes as a parameter, and the laws they obey are predicates
    that the lemmas needing them assume explicitly. */
module PyStd {
  import opened Optional
  import opened Text
  import Utf8

  /** A decoded JSON or YAML document (floats are not modelled). */
  datatype Json =
    | JNull
    | JBool(b: bool)
    | JInt(i: int)
    | JStr(s: string)
    | JArr(items: seq<Json>)
    | JObj(fields: map<string, Json>)

  /** The library functions the pipeline calls but the model does not define:
      `json.loads` and `yaml.safe_load` (`None` where they raise), `json.dumps`
      of a flat object of strings in insertion order, `unquote`, and
      `ipaddress.ip_address` (which address class it returns). */
  datatype Stdlib = Stdlib(
    jsonLoads: string -> Option<Json>,
    jsonDumps: seq<(string, string)> -> string,
    yamlLoad: string -> Option<Json>,
    unquote: string -> string,
    ipAddress: string -> IpKind)

  /** What `ipaddress.ip_address(text)` gives: ValueError, an `IPv4Address`
      or an `IPv6Address`. */
  datatype IpKind = NotIp | IPv4 | IPv6

  /** Keys of an insertion-ordered list of pairs are pairwise distinct. */
  predicate DistinctKeys(pairs: seq<(string, string)>) {
    forall i, j :: 0 <= i < j < |pairs| ==> pairs[i].0 != pairs[j].0
  }

  /** The dictionary an insertion-ordered list of string pairs denotes. */
  function PairsToMap(pairs: seq<(string, string)>): (m: map<string, Json>)
    ensures forall i :: 0 <= i < |pairs| ==> pairs[i].0 in m
    ensures forall k :: k in m ==> exists i :: 0 <= i < |pairs| && pairs[i].0 == k
  {
    if pairs == [] then map[]
    else PairsToMap(pairs[..|pairs| - 1])[pairs[|pairs| - 1].0 := JStr(pairs[|pairs| - 1].1)]
  }

  lemma {:induction false} PairsToMapAt(pairs: seq<(string, string)>, i: int)
    requires DistinctKeys(pairs) && 0 <= i < |pairs|
    ensures PairsToMap(pairs)[pairs[i].0] == JStr(pairs[i].1)
  {
    var n := |pairs| - 1;
    if i < n {
      PairsToMapAt(pairs[..n], i);
    }
  }

  /** `json.loads` reads back what `json.dumps` writes for a flat object of strings. */
  ghost predicate JsonLaw(lib: Stdlib) {
    forall pairs {:trigger lib.jsonDumps(pairs)} :: DistinctKeys(pairs) ==>
      lib.jsonLoads(lib.jsonDumps(pairs)) == Some(JObj(PairsToMap(pairs)))
  }

  /** `unquote` leaves text without '%' unchanged and inverts `quote`. */
  ghost predicate UnquoteLaw(lib: Stdlib) {
    && (forall s {:trigger lib.unquote(s)} :: '%' !in s ==> lib.unquote(s) == s)
    && (forall s :: lib.unquote(Quote(s)) == s)
  }

  /** `d.get(k, default)` on a mapping. */
  function Get(d: map<string, Json>, k: string, default: Json): (r: Json)
    ensures k in d ==> r == d[k]
    ensures k !in d ==> r == default
  {
    if k in d then d[k] else default
  }

  /** A text field read with `d.get(k, default)`. A present value that is not
      a string, which Python would store unchanged, counts as malformed. */
  function StrField(d: map<string, Json>, k: string, default: string): (r: Option<string>)
    ensures k !in d ==> r == Some(default)
    ensures k in d ==> (r.Some? <==> d[k].JStr?)
    ensures k in d && d[k].JStr? ==> r == Some(d[k].s)
  {
    match Get(d, k, JStr(default))
    case JStr(s) => Some(s)
    case _ => None
  }

  /** Python truthiness. */
  predicate Truthy(j: Json) {
    match j
    case JNull => false
    case JBool(b) => b
    case JInt(i) => i != 0
    case JStr(s) => s != ""
    case JArr(items) => items != []
    case JObj(fields) => fields != map[]
  }

  /** `int(v)`: `None` where it raises (a `None`, a list, a dict, a string
      that is not an integer literal). */
  function PyInt(j: Json): (r: Option<int>)
    ensures j.JInt? ==> r == Some(j.i)
    ensures j.JStr? ==> r == ParseInt(j.s)
    ensures j.JNull? || j.JArr? || j.JObj? ==> r == None
  {
    match j
    case JInt(i) => Some(i)
    case JBool(b) => Some(if b then 1 else 0)
    case JStr(s) => ParseInt(s)
    case _ => None
  }

  /** `str(v)` as an f-string applies it to scalars; containers are not modelled. */
  function PyStr(j: Json): (r: Option<string>)
    ensures j.JStr? ==> r == Some(j.s)
    ensures j.JInt? ==> r == Some(IntToString(j.i))
    ensures j.JArr? || j.JObj? ==> r == None
  {
    match j
    case JNull => Some("None")
    case JBool(b) => Some(if b then "True" else "False")
    case JInt(i) => Some(IntToString(i))
    case JStr(s) => Some(s)
    case _ => None
  }

  /** The characters `quote(s)` never escapes: ASCII letters, digits, "_.-~". */
  predicate AlwaysSafe(c: char) {
    'A' <= c <= 'Z' || 'a' <= c <= 'z' || '0' <= c <= '9' || c == '_' || c == '.' || c == '-' || c == '~'
  }

  /** The characters `quote(s)` (with its default `safe='/'`) can emit. */
  predicate QuotedChar(c: char) {
    AlwaysSafe(c) || c == '/' || c == '%'
  }

  function HexDigit(d: int): (c: char)
    requires 0 <= d < 16
    ensures AlwaysSafe(c)
  {
    if d < 10 then ('0' as int + d) as char else ('A' as int + d - 10) as char
  }

  /** One UTF-8 byte as `quote` writes it. */
  function QuoteByte(b: Utf8.Byte): (r: string)
    ensures forall i :: 0 <= i < |r| ==> QuotedChar(r[i])
  {
    if b < 0x80 && (AlwaysSafe(b as char) || b as char == '/') then [b as char]
    else ['%', HexDigit(b / 16), HexDigit(b % 16)]
  }

  function QuoteBytes(bs: seq<Utf8.Byte>): (r: string)
    ensures forall i :: 0 <= i < |r| ==> QuotedChar(r[i])
  {
    if bs == [] then "" else QuoteByte(bs[0]) + QuoteBytes(bs[1..])
  }

  /** `urllib.parse.quote(s)`: percent-encodes the UTF-8 bytes of every
      character except the always-safe ones and '/'. The result never holds a
      separator of a URI's query or fragment ('#', '?', '&', '=', '+'), nor
      ':', '@' or whitespace. */
  function Quote(s: string): (r: string)
    ensures forall i :: 0 <= i < |r| ==> QuotedChar(r[i])
  {
    QuoteBytes(Utf8.Encode(s))
  }

  /** Text made only of unescaped characters is quoted as itself. */
  lemma {:induction false} QuoteKeeps(s: string)
    requires forall i :: 0 <= i < |s| ==> AlwaysSafe(s[i]) || s[i] == '/'
    ensures Quote(s) == s
  {
    if s != [] {
      QuoteKeeps(s[1..]);
      assert Utf8.EncodeChar(s[0]) == [s[0] as int];
    }
  }

  /** `xs[:k]`, negative `k` counting from the end. */
  function SliceTo<T>(xs: seq<T>, k: int): (r: seq<T>)
    ensures |r| <= |xs| && r == xs[..|r|]
    ensures 0 <= k ==> |r| == if k < |xs| then k else |xs|
    ensures k < 0 ==> |r| == if |xs| + k < 0 then 0 else |xs| + k
  {
    if 0 <= k then (if k < |xs| then xs[..k] else xs)
    else if |xs| + k < 0 then []
    else xs[..|xs| + k]
  }
}
