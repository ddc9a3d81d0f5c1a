/** The share-link decoders: one text line (`vmess://`, `vless://`,
    `trojan://`, `ss://`, `ssr://`) becomes a node, or `None` wherever the
    decoder would raise. */
module NodeParser {
  import opened Optional
  import opened Text
  import opened PyStd
  import opened ProxyNodes
  import UrlParse
  import Base64
  import Utf8

  /** Re-pad, base64-decode, then UTF-8-decode: the decoding chain every
      base64 body goes through. */
  function DecodeText(s: string): Option<string> {
    match Base64.DecodePadded(s)
    case None => None
    case Some(bytes) => Utf8.Decode(bytes)
  }

  /** `parse_vmess`: the body after removing every "vmess://" is a base64
      JSON object whose fields give the node. */
  function ParseVmess(uri: string, lib: Stdlib): (r: Option<ProxyNode>)
    ensures DecodeText(ReplaceAll(uri, "vmess://", "")).None? ==> r.None?
    ensures var text := DecodeText(ReplaceAll(uri, "vmess://", ""));
      text.Some? && !(lib.jsonLoads(text.value).Some? && lib.jsonLoads(text.value).value.JObj?) ==> r.None?
    ensures r.Some? ==> r.value.protocol == "vmess" && r.value.source == "" && r.value.priority == 99
  {
    match DecodeText(ReplaceAll(uri, "vmess://", ""))
    case None => None
    case Some(text) =>
      match lib.jsonLoads(text)
      case Some(JObj(config)) => VmessFromConfig(config)
      case _ => None
  }

  /** The node a decoded vmess JSON object describes; `None` where a field
      has the wrong type or the port is not an integer. */
  function VmessFromConfig(config: map<string, Json>): (r: Option<ProxyNode>)
    ensures r.Some? ==> r.value.protocol == "vmess" && r.value.source == "" && r.value.priority == 99
    ensures r.Some? ==> (r.value.tls <==> Get(config, "tls", JStr("")) == JStr("tls"))
    ensures r.Some? && "port" !in config ==> r.value.port == 443
    ensures r.Some? && "net" !in config ==> r.value.network == "tcp"
    ensures PyInt(Get(config, "port", JInt(443))).None? ==> r.None?
  {
    var address := StrField(config, "add", "");
    var port := PyInt(Get(config, "port", JInt(443)));
    var id := StrField(config, "id", "");
    var ps := StrField(config, "ps", "");
    var net := StrField(config, "net", "tcp");
    var sni := StrField(config, "sni", "");
    var path := StrField(config, "path", "");
    var host := StrField(config, "host", "");
    if address.None? || port.None? || id.None? || ps.None? || net.None? || sni.None? || path.None? || host.None?
    then None
    else Some(ProxyNode(
      protocol := "vmess",
      address := address.value,
      port := port.value,
      uuidOrPassword := id.value,
      name := ps.value,
      network := net.value,
      tls := Get(config, "tls", JStr("")) == JStr("tls"),
      sni := sni.value,
      path := path.value,
      host := host.value))
  }

  /** `parsed.port or 443`, `None` where the `port` property raises. */
  function PortOr443(netloc: string): (r: Option<int>)
    ensures r.Some? ==> 1 <= r.value <= 65535
    ensures UrlParse.PortOf(netloc).NoPort? ==> r == Some(443)
    ensures UrlParse.PortOf(netloc).Invalid? <==> r.None?
  {
    match UrlParse.PortOf(netloc)
    case Invalid => None
    case NoPort => Some(443)
    case Number(n) => Some(if n == 0 then 443 else n)
  }

  /** `x or ""` on an optional text. */
  function OrEmpty(x: Option<string>): string {
    if x.Some? then x.value else ""
  }

  /** `unquote(parsed.fragment) if parsed.fragment else ""`. */
  function FragmentName(fragment: string, lib: Stdlib): string {
    if fragment != "" then lib.unquote(fragment) else ""
  }

  /** The node a vless or trojan link describes: address, port and secret
      from the netloc, the name from the fragment, transport settings from the
      query, with the defaults both decoders use. */
  function StreamNode(protocol: string, parsed: UrlParse.SplitResult, port: int, tls: bool, lib: Stdlib): (r: ProxyNode)
    ensures r.protocol == protocol && r.port == port && r.tls == tls && r.source == "" && r.priority == 99
    ensures r.address == OrEmpty(UrlParse.Hostname(parsed.netloc))
    ensures r.uuidOrPassword == OrEmpty(UrlParse.Username(parsed.netloc))
    ensures "type" !in UrlParse.ParseQs(parsed.query, lib) ==> r.network == "tcp"
  {
    var params := UrlParse.ParseQs(parsed.query, lib);
    ProxyNode(
      protocol := protocol,
      address := OrEmpty(UrlParse.Hostname(parsed.netloc)),
      port := port,
      uuidOrPassword := OrEmpty(UrlParse.Username(parsed.netloc)),
      name := FragmentName(parsed.fragment, lib),
      network := UrlParse.QueryGet(params, "type", "tcp"),
      tls := tls,
      sni := UrlParse.QueryGet(params, "sni", ""),
      path := UrlParse.QueryGet(params, "path", ""),
      host := UrlParse.QueryGet(params, "host", ""))
  }

  /** `parse_vless`: address, port and UUID from the authority, transport and
      TLS settings from the query, the name from the fragment. */
  function ParseVless(uri: string, lib: Stdlib): (r: Option<ProxyNode>)
    ensures r.Some? ==> r.value.protocol == "vless" && r.value.source == "" && r.value.priority == 99
    ensures r.Some? ==> 1 <= r.value.port <= 65535
    ensures r.Some? ==> (UrlParse.UrlSplit(uri, lib).Some? &&
      var params := UrlParse.ParseQs(UrlParse.UrlSplit(uri, lib).value.query, lib);
      && (r.value.tls <==> UrlParse.QueryGet(params, "security", "none") in {"tls", "reality"})
      && ("type" !in params ==> r.value.network == "tcp"))
  {
    match UrlParse.UrlSplit(uri, lib)
    case None => None
    case Some(parsed) =>
      match PortOr443(parsed.netloc)
      case None => None
      case Some(port) =>
        var security := UrlParse.QueryGet(UrlParse.ParseQs(parsed.query, lib), "security", "none");
        Some(StreamNode("vless", parsed, port, security in {"tls", "reality"}, lib))
  }

  /** `parse_trojan`: as `parse_vless`, but TLS is always on. */
  function ParseTrojan(uri: string, lib: Stdlib): (r: Option<ProxyNode>)
    ensures r.Some? ==> r.value.protocol == "trojan" && r.value.tls && r.value.source == "" && r.value.priority == 99
    ensures r.Some? ==> 1 <= r.value.port <= 65535
    ensures r.Some? ==> (UrlParse.UrlSplit(uri, lib).Some? &&
      ("type" !in UrlParse.ParseQs(UrlParse.UrlSplit(uri, lib).value.query, lib) ==> r.value.network == "tcp"))
  {
    match UrlParse.UrlSplit(uri, lib)
    case None => None
    case Some(parsed) =>
      match PortOr443(parsed.netloc)
      case None => None
      case Some(port) => Some(StreamNode("trojan", parsed, port, true, lib))
  }

  /** The vless decoder takes its address, port and UUID from the netloc. */
  lemma VlessEndpoint(uri: string, lib: Stdlib)
    requires UrlParse.UrlSplit(uri, lib).Some? && PortOr443(UrlParse.UrlSplit(uri, lib).value.netloc).Some?
    ensures var netloc := UrlParse.UrlSplit(uri, lib).value.netloc;
      var r := ParseVless(uri, lib);
      && r.Some? && r.value.address == OrEmpty(UrlParse.Hostname(netloc))
      && r.value.port == PortOr443(netloc).value && r.value.uuidOrPassword == OrEmpty(UrlParse.Username(netloc))
  {
    var parsed := UrlParse.UrlSplit(uri, lib).value;
    var port := PortOr443(parsed.netloc).value;
    var tls := UrlParse.QueryGet(UrlParse.ParseQs(parsed.query, lib), "security", "none") in {"tls", "reality"};
    assert ParseVless(uri, lib) == Some(StreamNode("vless", parsed, port, tls, lib));
  }

  /** The trojan decoder takes its address, port and password from the
      netloc. */
  lemma TrojanEndpoint(uri: string, lib: Stdlib)
    requires UrlParse.UrlSplit(uri, lib).Some? && PortOr443(UrlParse.UrlSplit(uri, lib).value.netloc).Some?
    ensures var netloc := UrlParse.UrlSplit(uri, lib).value.netloc;
      var r := ParseTrojan(uri, lib);
      && r.Some? && r.value.address == OrEmpty(UrlParse.Hostname(netloc))
      && r.value.port == PortOr443(netloc).value && r.value.uuidOrPassword == OrEmpty(UrlParse.Username(netloc))
  {
    var parsed := UrlParse.UrlSplit(uri, lib).value;
    var port := PortOr443(parsed.netloc).value;
    assert ParseTrojan(uri, lib) == Some(StreamNode("trojan", parsed, port, true, lib));
  }

  /** The (method, password) of a SIP002 user-info part, falling back to the
      re-padded text itself and an empty password when it does not decode or
      its decoding has no ':'. */
  function SsCredentials(userInfo: string): (r: (string, string))
    ensures var d := DecodeText(userInfo);
      if d.Some? && ':' in d.value then d.value == r.0 + ":" + r.1 && ':' !in r.0
      else r == (Base64.Repad(userInfo), "")
  {
    match DecodeText(userInfo)
    case Some(decoded) =>
      var mp := Partition(decoded, ':');
      if mp.found then (mp.before, mp.after) else (Base64.Repad(userInfo), "")
    case None => (Base64.Repad(userInfo), "")
  }

  /** The (host, port text) of a server part: split at the last ':', port
      "443" when there is none. */
  function SsServer(server: string): (r: (string, string))
    ensures ':' in server ==> server == r.0 + ":" + r.1 && ':' !in r.1
    ensures ':' !in server ==> r == (server, "443")
  {
    var hp := RPartition(server, ':');
    if hp.found then (hp.before, hp.after) else (server, "443")
  }

  /** The (method, password, host, port text) of a legacy body, which
      base64-encodes "method:password@host:port". */
  function SsLegacy(body: string): (r: Option<(string, string, string, string)>)
    ensures r.Some? ==> DecodeText(body) == Some((r.value.0 + ":" + r.value.1) + "@" + (r.value.2 + ":" + r.value.3))
  {
    match DecodeText(body)
    case None => None
    case Some(decoded) =>
      var mps := RPartition(decoded, '@');
      var mp := Partition(mps.before, ':');
      var hp := RPartition(mps.after, ':');
      if !mps.found || !mp.found || !hp.found then None
      else
        Some((mp.before, mp.after, hp.before, hp.after))
  }

  /** The (method, password, host, port text) of an ss body without its
      name: the SIP002 form when it holds an '@', the legacy form otherwise. */
  function SsFields(body: string): (r: Option<(string, string, string, string)>)
    ensures '@' in body ==> r.Some?
  {
    if '@' in body then
      var us := RPartition(body, '@');
      var (cipher, password) := SsCredentials(us.before);
      var (host, port) := SsServer(us.after);
      Some((cipher, password, host, port))
    else SsLegacy(body)
  }

  /** `parse_ss`: the name is the unquoted text after the last '#'; the
      SIP002 form splits user information from the server at the last '@'. */
  function ParseSs(uri: string, lib: Stdlib): (r: Option<ProxyNode>)
    ensures r.Some? ==> r.value.protocol == "ss" && ':' in r.value.uuidOrPassword
    ensures r.Some? ==> r.value.network == "tcp" && !r.value.tls && r.value.source == "" && r.value.priority == 99
    ensures var u := ReplaceAll(uri, "ss://", "");
      r.Some? && '#' !in u ==> r.value.name == ""
  {
    var u := ReplaceAll(uri, "ss://", "");
    var f := RPartition(u, '#');
    var body := if f.found then f.before else u;
    var name := if f.found then lib.unquote(f.after) else "";
    match SsFields(body)
    case None => None
    case Some((cipher, password, host, portText)) =>
      match ParseInt(portText)
      case None => None
      case Some(port) =>
        Some(ProxyNode(
          protocol := "ss",
          address := host,
          port := port,
          uuidOrPassword := cipher + ":" + password,
          name := name))
  }

  /** `parse_ssr`: the decoded body before "/?" holds at least six ':'-fields
      host:port:protocol:method:obfs:password, the password base64-encoded. */
  function ParseSsr(uri: string): (r: Option<ProxyNode>)
    ensures r.Some? ==> r.value.protocol == "ssr" && r.value.name == "" && r.value.source == "" && r.value.priority == 99
    ensures r.Some? ==>
      var decoded := DecodeText(ReplaceAll(uri, "ssr://", ""));
      && decoded.Some?
      && var parts := SplitAll(BeforeFirst(decoded.value, "/?"), ':');
      && |parts| >= 6
      && r.value.address == parts[0]
      && ParseInt(parts[1]) == Some(r.value.port)
      && DecodeText(parts[5]) == Some(r.value.uuidOrPassword)
    ensures r.Some? <==>
      var decoded := DecodeText(ReplaceAll(uri, "ssr://", ""));
      && decoded.Some?
      && var parts := SplitAll(BeforeFirst(decoded.value, "/?"), ':');
      && |parts| >= 6 && ParseInt(parts[1]).Some? && DecodeText(parts[5]).Some?
  {
    match DecodeText(ReplaceAll(uri, "ssr://", ""))
    case None => None
    case Some(decoded) =>
      var parts := SplitAll(BeforeFirst(decoded, "/?"), ':');
      if |parts| < 6 then None
      else
        match ParseInt(parts[1])
        case None => None
        case Some(port) =>
          match DecodeText(parts[5])
          case None => None
          case Some(password) =>
            Some(ProxyNode(protocol := "ssr", address := parts[0], port := port, uuidOrPassword := password))
  }

  predicate StartsWith(s: string, prefix: string) {
    |prefix| <= |s| && s[..|prefix|] == prefix
  }

  /** The protocols of the five link schemes the pipeline reads. */
  const Protocols: seq<string> := ["vmess", "vless", "trojan", "ss", "ssr"]

  /** The text starts with one of the five scheme prefixes. */
  predicate KnownScheme(t: string) {
    || StartsWith(t, "vmess" + "://") || StartsWith(t, "vless" + "://") || StartsWith(t, "trojan" + "://")
    || StartsWith(t, "ss" + "://") || StartsWith(t, "ssr" + "://")
  }

  /** The dispatch of `parse_line` on the stripped text: the decoder its
      scheme prefix names; `None` for empty text and unknown schemes. */
  function Dispatch(t: string, lib: Stdlib): (r: Option<ProxyNode>)
    ensures r.Some? ==> StartsWith(t, r.value.protocol + "://")
    ensures !KnownScheme(t) ==> r.None?
  {
    if t == "" then None
    else if StartsWith(t, "vmess" + "://") then ParseVmess(t, lib)
    else if StartsWith(t, "vless" + "://") then ParseVless(t, lib)
    else if StartsWith(t, "trojan" + "://") then ParseTrojan(t, lib)
    else if StartsWith(t, "ss" + "://") then ParseSs(t, lib)
    else if StartsWith(t, "ssr" + "://") then ParseSsr(t)
    else None
  }

  /** `parse_line`: strip the line, then dispatch on its scheme prefix. */
  function ParseLine(line: string, lib: Stdlib): (r: Option<ProxyNode>)
    ensures r.Some? ==> StartsWith(Strip(line), r.value.protocol + "://")
    ensures !KnownScheme(Strip(line)) ==> r.None?
  {
    Dispatch(Strip(line), lib)
  }

  /** Text whose k-th character differs from the prefix's does not start
      with it. */
  lemma NotPrefix(t: string, prefix: string, k: int)
    requires 0 <= k < |prefix| && k < |t| && t[k] != prefix[k]
    ensures !StartsWith(t, prefix)
  {
    if |prefix| <= |t| {
      assert t[..|prefix|][k] == t[k];
    }
  }

  /** No line starts with two of the scheme prefixes, so each line goes to at
      most one decoder. */
  lemma SchemesExclusive(t: string, i: int, j: int)
    requires 0 <= i < |Protocols| && 0 <= j < |Protocols|
    requires StartsWith(t, Protocols[i] + "://") && StartsWith(t, Protocols[j] + "://")
    ensures i == j
  {
    var a, b := Protocols[i] + "://", Protocols[j] + "://";
    assert t[..|a|] == a && t[..|b|] == b;
    assert a[0] == t[0] == b[0] && a[1] == t[1] == b[1] && a[2] == t[2] == b[2];
  }

  /** A line that strips to text starting with "ss://" goes to the ss
      decoder. */
  lemma LineIsSs(line: string, lib: Stdlib)
    requires StartsWith(Strip(line), "ss" + "://")
    ensures ParseLine(line, lib) == ParseSs(Strip(line), lib)
  {
    var t := Strip(line);
    var p := "ss" + "://";
    assert t[0] == p[0] == 's' && t[1] == p[1] == 's';
    NotPrefix(t, "vmess" + "://", 0);
    NotPrefix(t, "vless" + "://", 0);
    NotPrefix(t, "trojan" + "://", 0);
  }

  /** A stripped line that starts with "vmess://" goes to the vmess decoder. */
  lemma LineIsVmess(line: string, lib: Stdlib)
    requires StartsWith(Strip(line), "vmess" + "://")
    ensures ParseLine(line, lib) == ParseVmess(Strip(line), lib)
  {
  }

  /** A stripped line that starts with "vless://" goes to the vless decoder. */
  lemma LineIsVless(line: string, lib: Stdlib)
    requires StartsWith(Strip(line), "vless" + "://")
    ensures ParseLine(line, lib) == ParseVless(Strip(line), lib)
  {
    var t := Strip(line);
    var p := "vless" + "://";
    assert t[1] == p[1] == 'l';
    NotPrefix(t, "vmess" + "://", 1);
  }

  /** A stripped line that starts with "trojan://" goes to the trojan decoder. */
  lemma LineIsTrojan(line: string, lib: Stdlib)
    requires StartsWith(Strip(line), "trojan" + "://")
    ensures ParseLine(line, lib) == ParseTrojan(Strip(line), lib)
  {
    var t := Strip(line);
    var p := "trojan" + "://";
    assert t[0] == p[0] == 't';
    NotPrefix(t, "vmess" + "://", 0);
    NotPrefix(t, "vless" + "://", 0);
  }

  /** A stripped line that starts with "ssr://" goes to the ssr decoder: its
      third character rules out "ss://", which is tried first. */
  lemma LineIsSsr(line: string, lib: Stdlib)
    requires StartsWith(Strip(line), "ssr" + "://")
    ensures ParseLine(line, lib) == ParseSsr(Strip(line))
  {
    var t := Strip(line);
    var p := "ssr" + "://";
    assert t[0] == p[0] == 's';
    assert t[2] == p[2] == 'r';
    NotPrefix(t, "vmess" + "://", 0);
    NotPrefix(t, "vless" + "://", 0);
    NotPrefix(t, "trojan" + "://", 0);
    NotPrefix(t, "ss" + "://", 2);
  }
}
