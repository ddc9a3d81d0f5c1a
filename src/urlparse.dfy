/** `urllib.parse` as the vless and trojan decoders use it: `urlparse` (for
    these schemes the same as `urlsplit`), the `hostname`, `port` and
    `username` properties of its result, and `parse_qs`. */
module UrlParse {
  import opened Optional
  import opened Text
  import opened PyStd

  /** The five components `urlsplit` returns. */
  datatype SplitResult = SplitResult(scheme: string, netloc: string, path: string, query: string, fragment: string)

  /** C0 controls and space, which `urlsplit` strips from the front. */
  predicate IsC0OrSpace(c: char) {
    c as int <= 0x20
  }

  /** The characters `urlsplit` deletes wherever they occur. */
  predicate IsUnsafe(c: char) {
    c == '\t' || c == '\r' || c == '\n'
  }

  function LStripC0(s: string): (r: string)
    ensures |r| <= |s| && r == s[|s| - |r|..]
    ensures r == [] || !IsC0OrSpace(r[0])
  {
    if s != [] && IsC0OrSpace(s[0]) then LStripC0(s[1..]) else s
  }

  function RemoveUnsafe(s: string): (r: string)
    ensures forall i :: 0 <= i < |r| ==> !IsUnsafe(r[i])
    ensures (forall i :: 0 <= i < |s| ==> !IsUnsafe(s[i])) ==> r == s
  {
    if s == [] then ""
    else if IsUnsafe(s[0]) then RemoveUnsafe(s[1..])
    else [s[0]] + RemoveUnsafe(s[1..])
  }

  predicate IsAsciiAlpha(c: char) {
    'A' <= c <= 'Z' || 'a' <= c <= 'z'
  }

  /** The characters a URL scheme may hold. */
  predicate SchemeChar(c: char) {
    IsAsciiAlpha(c) || '0' <= c <= '9' || c == '+' || c == '-' || c == '.'
  }

  predicate IsScheme(s: string) {
    |s| > 0 && IsAsciiAlpha(s[0]) && forall i :: 0 <= i < |s| ==> SchemeChar(s[i])
  }

  /** The scheme (lower-cased) and the rest: the scheme is the text before the
      first ':' when that text is a valid non-empty scheme, otherwise empty. */
  function SplitScheme(url: string): (r: (string, string))
    ensures r.0 == "" ==> r.1 == url
  {
    var i := IndexOf(url, ':');
    if i > 0 && IsScheme(url[..i]) then (AsciiLower(url[..i]), url[i + 1..]) else ("", url)
  }

  /** Index of the first '/', '?' or '#' at or after `start`, else `|s|`. */
  function NetlocEnd(s: string, start: nat): (e: nat)
    requires start <= |s|
    ensures start <= e <= |s|
    ensures forall i :: start <= i < e ==> s[i] != '/' && s[i] != '?' && s[i] != '#'
    ensures e < |s| ==> s[e] == '/' || s[e] == '?' || s[e] == '#'
    decreases |s| - start
  {
    if start == |s| || s[start] == '/' || s[start] == '?' || s[start] == '#' then start
    else NetlocEnd(s, start + 1)
  }

  /** The text between a netloc's first '[' and the next ']'. */
  function BracketedHost(netloc: string): string {
    Partition(Partition(netloc, '[').after, ']').before
  }

  predicate IsHexDigit(c: char) {
    '0' <= c <= '9' || 'a' <= c <= 'f' || 'A' <= c <= 'F'
  }

  /** Index of the first character at or after `start` that is not a
      hexadecimal digit, else `|s|`. */
  function HexEnd(s: string, start: nat): (e: nat)
    requires start <= |s|
    ensures start <= e <= |s|
    ensures forall i :: start <= i < e ==> IsHexDigit(s[i])
    ensures e < |s| ==> !IsHexDigit(s[e])
    decreases |s| - start
  {
    if start == |s| || !IsHexDigit(s[start]) then start else HexEnd(s, start + 1)
  }

  /** An IPvFuture literal as the splitter matches it: 'v', one or more
      hexadecimal digits, '.', then one or more characters other than a
      newline. */
  predicate IsIpvFuture(h: string) {
    && |h| >= 1 && h[0] == 'v'
    && var i := HexEnd(h, 1);
       2 <= i && i + 1 < |h| && h[i] == '.' && '\n' !in h[i + 1..]
  }

  /** What the splitter accepts between square brackets: an IPvFuture
      literal when the text starts with 'v', otherwise an IPv6 address. */
  predicate BracketedHostOk(h: string, lib: Stdlib) {
    if h != [] && h[0] == 'v' then IsIpvFuture(h) else lib.ipAddress(h) == IPv6
  }

  /** `urlsplit(url)`, `None` where it raises ValueError: a netloc with one
      square bracket but not the other, or whose bracketed host is neither
      an IPv6 address nor an IPvFuture literal. */
  function UrlSplit(url: string, lib: Stdlib): (r: Option<SplitResult>)
    ensures r.Some? ==> ('[' in r.value.netloc <==> ']' in r.value.netloc)
    ensures r.Some? && '[' in r.value.netloc ==> BracketedHostOk(BracketedHost(r.value.netloc), lib)
    ensures r.Some? ==> '#' !in r.value.query && '#' !in r.value.path && '?' !in r.value.path
  {
    var (scheme, netloc, tail) := SplitHead(url);
    if ('[' in netloc) != (']' in netloc) then None
    else if '[' in netloc && !BracketedHostOk(BracketedHost(netloc), lib) then None
    else
      Some(SplitTail(scheme, netloc, tail))
  }

  /** The scheme, the netloc (after "//", up to the first '/', '?' or '#')
      and the text after it, before the netloc is checked. */
  function SplitHead(url: string): (string, string, string) {
    var u := RemoveUnsafe(LStripC0(url));
    var (scheme, rest) := SplitScheme(u);
    var hasNetloc := |rest| >= 2 && rest[..2] == "//";
    var e := if hasNetloc then NetlocEnd(rest, 2) else 0;
    var netloc := if hasNetloc then rest[2..e] else "";
    var tail := if hasNetloc then rest[e..] else rest;
    (scheme, netloc, tail)
  }

  /** The path, query and fragment after the netloc: the fragment from the
      first '#', the query between the first '?' before it and the '#'. */
  function SplitTail(scheme: string, netloc: string, tail: string): (r: SplitResult)
    ensures r.scheme == scheme && r.netloc == netloc
    ensures '#' !in r.query && '#' !in r.path && '?' !in r.path
  {
    var f := Partition(tail, '#');
    var q := Partition(f.before, '?');
    SplitResult(scheme, netloc, q.before, q.after, f.after)
  }

  /** The `(hostname, port)` text a netloc holds: after the last '@', either a
      bracketed host and the text after "]:", or the text around the first ':'. */
  function HostInfo(netloc: string): (string, Option<string>) {
    var hostinfo := RPartition(netloc, '@').after;
    var br := Partition(hostinfo, '[');
    if br.found then
      var h := Partition(br.after, ']');
      var p := Partition(h.after, ':').after;
      (h.before, if p == "" then None else Some(p))
    else
      var h := Partition(hostinfo, ':');
      (h.before, if h.after == "" then None else Some(h.after))
  }

  /** The `hostname` property: `None` when empty, otherwise lower-cased up to
      an IPv6 zone suffix, which keeps its case. */
  function Hostname(netloc: string): (r: Option<string>)
    ensures r.None? <==> HostInfo(netloc).0 == ""
  {
    var h := HostInfo(netloc).0;
    if h == "" then None
    else
      var z := Partition(h, '%');
      Some(AsciiLower(z.before) + (if z.found then "%" + z.after else ""))
  }

  /** What the `port` property gives: no port, a number, or ValueError. */
  datatype Port = NoPort | Number(n: int) | Invalid

  predicate AllDigits(s: string) {
    forall i :: 0 <= i < |s| ==> IsDigit(s[i])
  }

  /** The `port` property: the text must be ASCII digits and its value in 0..65535. */
  function PortOf(netloc: string): (r: Port)
    ensures r.Number? ==> 0 <= r.n <= 65535
    ensures r.NoPort? <==> HostInfo(netloc).1.None?
  {
    match HostInfo(netloc).1
    case None => NoPort
    case Some(p) =>
      if !AllDigits(p) then Invalid
      else
        var n := DigitsValue(p);
        if n <= 65535 then Number(n) else Invalid
  }

  /** The `username` property: the user information before the last '@', up
      to its first ':'; `None` without an '@'. */
  function Username(netloc: string): (r: Option<string>)
    ensures r.None? <==> '@' !in netloc
  {
    var r := RPartition(netloc, '@');
    if r.found then Some(Partition(r.before, ':').before) else None
  }

  /** `parse_qsl(qs)` with its defaults, given the fields of `qs.split('&')`:
      empty fields and fields without '=' or with an empty value are dropped;
      '+' becomes a space before unquoting. */
  function QueryPairs(fields: seq<string>, lib: Stdlib): (r: seq<(string, string)>)
    ensures |r| <= |fields|
  {
    if fields == [] then []
    else
      var nv := Partition(fields[0], '=');
      var rest := QueryPairs(fields[1..], lib);
      if !nv.found || nv.after == "" then rest
      else [(lib.unquote(ReplaceAll(nv.before, "+", " ")), lib.unquote(ReplaceAll(nv.after, "+", " ")))] + rest
  }

  /** The dictionary `parse_qs` builds: each name maps to its values in order. */
  function Group(pairs: seq<(string, string)>): (m: map<string, seq<string>>)
    ensures forall k :: k in m ==> |m[k]| > 0
  {
    if pairs == [] then map[]
    else
      var m := Group(pairs[..|pairs| - 1]);
      var (k, v) := pairs[|pairs| - 1];
      m[k := if k in m then m[k] + [v] else [v]]
  }

  /** `parse_qs(qs)`. */
  function ParseQs(qs: string, lib: Stdlib): map<string, seq<string>> {
    Group(QueryPairs(SplitAll(qs, '&'), lib))
  }

  /** `params.get(k, [default])[0]`. */
  function QueryGet(params: map<string, seq<string>>, k: string, default: string): string {
    if k in params && params[k] != [] then params[k][0] else default
  }

  /** The value of the first pair named `k`. */
  function FirstValue(pairs: seq<(string, string)>, k: string): (r: Option<string>)
    ensures r.Some? <==> exists i :: 0 <= i < |pairs| && pairs[i].0 == k
  {
    if pairs == [] then None
    else if pairs[0].0 == k then Some(pairs[0].1)
    else
      var r := FirstValue(pairs[1..], k);
      assert (exists i :: 0 <= i < |pairs[1..]| && pairs[1..][i].0 == k) <==>
             (exists i :: 1 <= i < |pairs| && pairs[i].0 == k) by {
        forall i | 1 <= i < |pairs| ensures pairs[1..][i - 1] == pairs[i] { }
      }
      r
  }

  /** The first value of a name in the appended-to dictionary is the value of
      its first pair. */
  lemma {:induction false} GroupFirst(pairs: seq<(string, string)>, k: string)
    ensures k in Group(pairs) <==> FirstValue(pairs, k).Some?
    ensures k in Group(pairs) ==> Group(pairs)[k][0] == FirstValue(pairs, k).value
  {
    if pairs != [] {
      var n := |pairs| - 1;
      GroupFirst(pairs[..n], k);
      FirstValueSnoc(pairs[..n], pairs[n], k);
      assert pairs[..n] + [pairs[n]] == pairs;
    }
  }

  lemma {:induction false} FirstValueSnoc(pairs: seq<(string, string)>, p: (string, string), k: string)
    ensures FirstValue(pairs + [p], k) ==
      if FirstValue(pairs, k).Some? then FirstValue(pairs, k)
      else if p.0 == k then Some(p.1) else None
  {
    if pairs != [] {
      assert (pairs + [p])[1..] == pairs[1..] + [p];
      FirstValueSnoc(pairs[1..], p, k);
    }
  }

  /** `parse_qs(qs).get(k, [default])[0]` is the value of the first pair named `k`. */
  lemma QueryGetFirst(qs: string, lib: Stdlib, k: string, default: string)
    ensures QueryGet(ParseQs(qs, lib), k, default) ==
      match FirstValue(QueryPairs(SplitAll(qs, '&'), lib), k)
      case Some(v) => v
      case None => default
  {
    GroupFirst(QueryPairs(SplitAll(qs, '&'), lib), k);
  }

  lemma {:induction false} RemoveUnsafeAppend(a: string, b: string)
    ensures RemoveUnsafe(a + b) == RemoveUnsafe(a) + RemoveUnsafe(b)
  {
    if a == [] {
      assert a + b == b;
    } else {
      assert (a + b)[0] == a[0] && (a + b)[1..] == a[1..] + b;
      RemoveUnsafeAppend(a[1..], b);
    }
  }

  /** The characters a netloc written between "//" and '?' may not hold. */
  predicate NetlocChars(netloc: string) {
    forall i :: 0 <= i < |netloc| ==>
      netloc[i] != '/' && netloc[i] != '?' && netloc[i] != '#' && !IsUnsafe(netloc[i])
  }

  /** The link comes through the clean-up unchanged up to the text after
      the netloc. */
  lemma CleanLink(scheme: string, netloc: string, rest: string)
    requires IsScheme(scheme) && NetlocChars(netloc)
    requires rest != [] && rest[0] == '?'
    ensures var r := RemoveUnsafe(LStripC0(scheme + "://" + netloc + rest));
      |r| > |scheme + "://" + netloc| && r[..|scheme + "://" + netloc|] == scheme + "://" + netloc
      && r[|scheme + "://" + netloc|] == '?'
  {
    var head := scheme + "://" + netloc;
    var url := head + rest;
    assert url[0] == scheme[0];
    assert LStripC0(url) == url;
    assert forall i :: 0 <= i < |head| ==> !IsUnsafe(head[i]) by {
      forall i | 0 <= i < |head| ensures !IsUnsafe(head[i]) {
        if i < |scheme| {
          assert head[i] == scheme[i] && SchemeChar(scheme[i]);
        } else if i >= |scheme| + 3 {
          assert head[i] == netloc[i - |scheme| - 3];
        }
      }
    }
    RemoveUnsafeAppend(head, rest);
    assert rest == ['?'] + rest[1..];
    var r := RemoveUnsafe(rest);
    assert r != [] && r[0] == '?';
    assert (head + r)[..|head|] == head;
  }

  /** A valid scheme is split off at the first ':'. */
  lemma SchemeOff(scheme: string, after: string)
    requires IsScheme(scheme)
    ensures SplitScheme(scheme + ":" + after) == (AsciiLower(scheme), after)
  {
    var u := scheme + ":" + after;
    var i := IndexOf(u, ':');
    assert u[|scheme|] == ':';
    assert forall k :: 0 <= k < |scheme| ==> u[k] == scheme[k] && SchemeChar(scheme[k]);
    assert i == |scheme|;
    assert u[..i] == scheme;
    assert u[i + 1..] == after;
  }

  /** The netloc ends at the '?' after it. */
  lemma NetlocStops(netloc: string, r: string)
    requires NetlocChars(netloc) && r != [] && r[0] == '?'
    ensures NetlocEnd("//" + netloc + r, 2) == 2 + |netloc|
  {
    var after := "//" + netloc + r;
    var k := 2 + |netloc|;
    assert after[k] == '?';
    assert forall j :: 2 <= j < k ==> after[j] == netloc[j - 2];
  }

  /** The netloc of `scheme://netloc` followed by text that starts with '?'
      is the text between "//" and that '?'. */
  lemma LinkHead(scheme: string, netloc: string, rest: string)
    requires IsScheme(scheme) && NetlocChars(netloc)
    requires rest != [] && rest[0] == '?'
    ensures SplitHead(scheme + "://" + netloc + rest).1 == netloc
  {
    var head := scheme + "://" + netloc;
    CleanLink(scheme, netloc, rest);
    var u := RemoveUnsafe(LStripC0(head + rest));
    var r := u[|head|..];
    assert u == scheme + ":" + ("//" + netloc + r);
    SchemeOff(scheme, "//" + netloc + r);
    NetlocStops(netloc, r);
    var after := "//" + netloc + r;
    assert after[..2] == "//" && after[2..2 + |netloc|] == netloc;
  }

  /** `urlsplit` of `scheme://netloc` followed by text that starts with '?':
      the netloc is exactly the text between "//" and that '?'. */
  lemma SplitNetloc(scheme: string, netloc: string, rest: string, lib: Stdlib)
    requires IsScheme(scheme) && NetlocChars(netloc)
    requires ('[' in netloc) == (']' in netloc)
    requires '[' in netloc ==> BracketedHostOk(BracketedHost(netloc), lib)
    requires rest != [] && rest[0] == '?'
    ensures UrlSplit(scheme + "://" + netloc + rest, lib).Some?
    ensures UrlSplit(scheme + "://" + netloc + rest, lib).value.netloc == netloc
  {
    LinkHead(scheme, netloc, rest);
  }

  /** `urlsplit` raises on a bracketed host that is neither an IPv6 address
      nor an IPvFuture literal, such as the "foo" of `vless://u@[foo]:443`. */
  lemma SplitRejectsBracketed(scheme: string, netloc: string, rest: string, lib: Stdlib)
    requires IsScheme(scheme) && NetlocChars(netloc)
    requires '[' in netloc && ']' in netloc && !BracketedHostOk(BracketedHost(netloc), lib)
    requires rest != [] && rest[0] == '?'
    ensures UrlSplit(scheme + "://" + netloc + rest, lib).None?
  {
    LinkHead(scheme, netloc, rest);
  }

  /** The host and port text of `user@host:port` for a host without ':'. */
  lemma HostInfoPlain(user: string, host: string, port: string)
    requires '@' !in host && '@' !in port && ':' !in host && '[' !in host && '[' !in port && port != ""
    ensures HostInfo(user + "@" + host + ":" + port) == (host, Some(port))
    ensures Username(user + "@" + host + ":" + port) == Some(Partition(user, ':').before)
  {
    var hostinfo := host + ":" + port;
    assert user + "@" + host + ":" + port == user + ['@'] + hostinfo;
    assert '@' !in hostinfo;
    RPartitionAt(user, '@', hostinfo);
    assert '[' !in hostinfo;
    PartitionAt(host, ':', port);
  }

  /** A host part that starts with ':' leaves the host empty and makes the
      rest of it the port text. */
  lemma HostInfoLeadingColon(user: string, t: string)
    requires '@' !in t && '[' !in t
    ensures HostInfo(user + "@" + ":" + t) == ("", if t == "" then None else Some(t))
  {
    var rest := [':'] + t;
    assert user + "@" + ":" + t == user + ['@'] + rest;
    RPartitionAt(user, '@', rest);
    assert '[' !in rest;
    PartitionLeading(':', t);
  }

  /** Partitioning text that starts with the separator. */
  lemma PartitionLeading(c: char, y: string)
    ensures Partition([c] + y, c) == Parts("", true, y)
  {
    assert [c] + y == "" + [c] + y;
    PartitionAt("", c, y);
  }

  /** The pieces of `[host]:port`. */
  lemma BracketPieces(host: string, port: string)
    requires ']' !in host
    ensures Partition("[" + host + "]" + ":" + port, '[') == Parts("", true, host + "]" + ":" + port)
    ensures Partition(host + "]" + ":" + port, ']') == Parts(host, true, ":" + port)
    ensures Partition(":" + port, ':').after == port
  {
    assert "[" + host + "]" + ":" + port == ['['] + (host + "]" + ":" + port);
    PartitionLeading('[', host + "]" + ":" + port);
    assert host + "]" + ":" + port == host + [']'] + (":" + port);
    PartitionAt(host, ']', ":" + port);
    PartitionLeading(':', port);
  }

  /** The host and port text of `user@[host]:port`. */
  lemma HostInfoBracketed(user: string, host: string, port: string)
    requires '@' !in host && '@' !in port && ']' !in host && port != ""
    ensures HostInfo(user + "@" + ("[" + host + "]") + ":" + port) == (host, Some(port))
    ensures Username(user + "@" + ("[" + host + "]") + ":" + port) == Some(Partition(user, ':').before)
  {
    var hostinfo := "[" + host + "]" + ":" + port;
    assert user + "@" + ("[" + host + "]") + ":" + port == user + ['@'] + hostinfo;
    assert '@' !in hostinfo;
    RPartitionAt(user, '@', hostinfo);
    BracketPieces(host, port);
  }
}
