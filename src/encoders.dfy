/** The per-node encoders of the subscription merger: a node becomes a
    sing-box outbound, a Clash proxy entry, or a share link; protocols other
    than vmess, vless, trojan and ss (so ssr too) are not encoded. */
module Encoders {
  import opened Optional
  import opened Text
  import opened PyStd
  import opened ProxyNodes
  import Base64
  import Utf8

  /** A JSON (or YAML) mapping. */
  type Dict = map<string, Json>

  /** `d` maps `k` to `v`. */
  predicate Has(d: Dict, k: string, v: Json) {
    k in d && d[k] == v
  }

  /** The protocols the encoders handle. */
  predicate Encodable(protocol: string) {
    protocol == "vmess" || protocol == "vless" || protocol == "trojan" || protocol == "ss"
  }

  /** `Some(d)` as a JSON object, `None` as null. */
  function OrNull(d: Option<Dict>): (r: Json)
    ensures r == JNull <==> d.None?
  {
    if d.Some? then JObj(d.value) else JNull
  }

  /** `node.get("name") or f"{address}:{port}"`. */
  function DisplayName(n: ProxyNode): (r: string)
    ensures n.name != "" ==> r == n.name
    ensures n.name == "" ==> r == n.address + ":" + IntToString(n.port)
    ensures r != ""
  {
    if n.name != "" then n.name else n.address + ":" + IntToString(n.port)
  }

  /** `secret.split(":", 1)` unpacked as (method, password): the text around
      the first ':', the password empty when there is none. */
  function SplitSecret(secret: string): (r: (string, string))
    ensures ':' in secret ==> r.0 + ":" + r.1 == secret && ':' !in r.0
    ensures ':' !in secret ==> r == (secret, "")
  {
    var p := Partition(secret, ':');
    (p.before, p.after)
  }

  /** `_get_transport`: a ws or grpc transport object, none for other
      networks. */
  function Transport(n: ProxyNode): (r: Option<Dict>)
    ensures r.Some? <==> n.network == "ws" || n.network == "grpc"
    ensures r.Some? ==> Has(r.value, "type", JStr(n.network))
    ensures n.network == "ws" ==> (
      && r.Some? && r.value.Keys == {"type", "path", "headers"}
      && Has(r.value, "path", JStr(n.path))
      && (Has(r.value, "headers", JNull) <==> n.host == "")
      && (n.host != "" ==> Has(r.value, "headers", JObj(map["Host" := JStr(n.host)]))))
    ensures n.network == "grpc" ==> (
      && r.Some? && r.value.Keys == {"type", "service_name"}
      && Has(r.value, "service_name", JStr(n.path)))
  {
    if n.network == "ws" then
      Some(map["type" := JStr("ws")]
        ["path" := JStr(n.path)]
        ["headers" := if n.host != "" then JObj(map["Host" := JStr(n.host)]) else JNull])
    else if n.network == "grpc" then
      Some(map["type" := JStr("grpc")]["service_name" := JStr(n.path)])
    else None
  }

  /** The server name `_get_tls` picks: the first non-empty of sni, host and
      address. */
  function ServerName(n: ProxyNode): (r: string)
    ensures n.sni != "" ==> r == n.sni
    ensures n.sni == "" && n.host != "" ==> r == n.host
    ensures n.sni == "" && n.host == "" ==> r == n.address
    ensures r == "" <==> n.sni == "" && n.host == "" && n.address == ""
  {
    if n.sni != "" then n.sni else if n.host != "" then n.host else n.address
  }

  /** `_get_tls`: TLS on, certificate checks off, and the server name. */
  function Tls(n: ProxyNode): (r: Dict)
    ensures r.Keys == {"enabled", "server_name", "insecure"}
    ensures Has(r, "enabled", JBool(true)) && Has(r, "insecure", JBool(true))
    ensures Has(r, "server_name", JStr(ServerName(n)))
  {
    map["enabled" := JBool(true)]["server_name" := JStr(ServerName(n))]["insecure" := JBool(true)]
  }

  /** The fields every outbound starts with. */
  function OutboundBase(kind: string, n: ProxyNode, tag: string): (r: Dict)
    ensures Has(r, "type", JStr(kind)) && Has(r, "tag", JStr(tag))
    ensures Has(r, "server", JStr(n.address)) && Has(r, "server_port", JInt(n.port))
  {
    map["type" := JStr(kind)]["tag" := JStr(tag)]["server" := JStr(n.address)]["server_port" := JInt(n.port)]
  }

  /** `node_to_singbox_outbound`. */
  function SingboxOutbound(n: ProxyNode, tag: string): (r: Option<Dict>)
    ensures r.Some? <==> Encodable(n.protocol)
    ensures r.Some? ==> (
      && Has(r.value, "tag", JStr(tag)) && Has(r.value, "server", JStr(n.address))
      && Has(r.value, "server_port", JInt(n.port)))
    ensures n.protocol == "vmess" ==> (
      && r.Some? && Has(r.value, "type", JStr("vmess"))
      && Has(r.value, "uuid", JStr(n.uuidOrPassword))
      && Has(r.value, "transport", OrNull(Transport(n)))
      && Has(r.value, "tls", if n.tls then JObj(Tls(n)) else JNull))
    ensures n.protocol == "vless" ==> (
      && r.Some? && Has(r.value, "type", JStr("vless"))
      && Has(r.value, "uuid", JStr(n.uuidOrPassword))
      && Has(r.value, "transport", OrNull(Transport(n)))
      && ("tls" in r.value <==> n.tls) && (n.tls ==> Has(r.value, "tls", JObj(Tls(n)))))
    ensures n.protocol == "trojan" ==> (
      && r.Some? && Has(r.value, "type", JStr("trojan"))
      && Has(r.value, "password", JStr(n.uuidOrPassword))
      && Has(r.value, "tls", JObj(Tls(n)))
      && Has(r.value, "transport", OrNull(Transport(n))))
    ensures n.protocol == "ss" ==> (
      && r.Some? && Has(r.value, "type", JStr("shadowsocks"))
      && Has(r.value, "method", JStr(SplitSecret(n.uuidOrPassword).0))
      && Has(r.value, "password", JStr(SplitSecret(n.uuidOrPassword).1)))
  {
    if n.protocol == "vmess" then Some(SingboxVmess(n, tag))
    else if n.protocol == "vless" then Some(SingboxVless(n, tag))
    else if n.protocol == "trojan" then Some(SingboxTrojan(n, tag))
    else if n.protocol == "ss" then Some(SingboxSs(n, tag))
    else None
  }

  /** The outbound fields every protocol carries. */
  predicate OutboundCommon(r: Dict, kind: string, n: ProxyNode, tag: string) {
    && Has(r, "type", JStr(kind)) && Has(r, "tag", JStr(tag))
    && Has(r, "server", JStr(n.address)) && Has(r, "server_port", JInt(n.port))
  }

  /** The vmess outbound. */
  function SingboxVmess(n: ProxyNode, tag: string): (r: Dict)
    ensures OutboundCommon(r, "vmess", n, tag)
    ensures Has(r, "uuid", JStr(n.uuidOrPassword)) && Has(r, "security", JStr("auto")) && Has(r, "alter_id", JInt(0))
    ensures Has(r, "transport", OrNull(Transport(n)))
    ensures Has(r, "tls", if n.tls then JObj(Tls(n)) else JNull)
  {
    OutboundBase("vmess", n, tag)
      ["uuid" := JStr(n.uuidOrPassword)]
      ["security" := JStr("auto")]
      ["alter_id" := JInt(0)]
      ["transport" := OrNull(Transport(n))]
      ["tls" := if n.tls then JObj(Tls(n)) else JNull]
  }

  /** The vless outbound; its TLS entry is left out without TLS. */
  function SingboxVless(n: ProxyNode, tag: string): (r: Dict)
    ensures OutboundCommon(r, "vless", n, tag)
    ensures Has(r, "uuid", JStr(n.uuidOrPassword)) && Has(r, "transport", OrNull(Transport(n)))
    ensures ("tls" in r <==> n.tls) && (n.tls ==> Has(r, "tls", JObj(Tls(n))))
  {
    var outbound := OutboundBase("vless", n, tag)
      ["uuid" := JStr(n.uuidOrPassword)]
      ["transport" := OrNull(Transport(n))];
    if n.tls then outbound["tls" := JObj(Tls(n))] else outbound
  }

  /** The trojan outbound: TLS always on, the transport only off tcp. */
  function SingboxTrojan(n: ProxyNode, tag: string): (r: Dict)
    ensures OutboundCommon(r, "trojan", n, tag)
    ensures Has(r, "password", JStr(n.uuidOrPassword)) && Has(r, "tls", JObj(Tls(n)))
    ensures Has(r, "transport", OrNull(Transport(n)))
  {
    OutboundBase("trojan", n, tag)
      ["password" := JStr(n.uuidOrPassword)]
      ["tls" := JObj(Tls(n))]
      ["transport" := if n.network != "tcp" then OrNull(Transport(n)) else JNull]
  }

  /** The shadowsocks outbound: the secret split into method and password. */
  function SingboxSs(n: ProxyNode, tag: string): (r: Dict)
    ensures OutboundCommon(r, "shadowsocks", n, tag)
    ensures Has(r, "method", JStr(SplitSecret(n.uuidOrPassword).0))
    ensures Has(r, "password", JStr(SplitSecret(n.uuidOrPassword).1))
  {
    var (cipher, password) := SplitSecret(n.uuidOrPassword);
    OutboundBase("shadowsocks", n, tag)
      ["method" := JStr(cipher)]
      ["password" := JStr(password)]
  }

  /** The server and credentials a sing-box client reads from an outbound. */
  function OutboundIdentity(o: Dict): Option<Identity> {
    if !("type" in o && "server" in o && "server_port" in o) then None
    else
      match (o["type"], o["server"], o["server_port"])
      case (JStr(kind), JStr(server), JInt(port)) =>
        if (kind == "vmess" || kind == "vless") && "uuid" in o && o["uuid"].JStr? then
          Some(Identity(kind, server, port, o["uuid"].s))
        else if kind == "trojan" && "password" in o && o["password"].JStr? then
          Some(Identity(kind, server, port, o["password"].s))
        else if kind == "shadowsocks" && "method" in o && o["method"].JStr? && "password" in o && o["password"].JStr? then
          Some(Identity("ss", server, port, o["method"].s + ":" + o["password"].s))
        else None
      case _ => None
  }

  /** An outbound points at the node's server with the node's credentials;
      for ss this needs a ':' in the secret, which every decoded ss node has. */
  lemma OutboundKeepsIdentity(n: ProxyNode, tag: string)
    requires Encodable(n.protocol)
    requires n.protocol == "ss" ==> ':' in n.uuidOrPassword
    ensures OutboundIdentity(SingboxOutbound(n, tag).value) == Some(Id(n))
  {
  }

  /** An ss secret without ':' comes out with an empty password: the
      outbound names a different secret. */
  lemma OutboundLosesColonlessSecret(n: ProxyNode, tag: string)
    requires n.protocol == "ss" && ':' !in n.uuidOrPassword
    ensures OutboundIdentity(SingboxOutbound(n, tag).value) == Some(Id(n).(uuidOrPassword := n.uuidOrPassword + ":"))
  {
    var o := SingboxOutbound(n, tag).value;
    assert Has(o, "method", JStr(n.uuidOrPassword)) && Has(o, "password", JStr(""));
    assert n.uuidOrPassword + ":" + "" == n.uuidOrPassword + ":";
  }

  /** The `ws-opts` mapping of a Clash proxy. */
  function WsOpts(n: ProxyNode): (r: Dict)
    ensures Has(r, "path", JStr(n.path))
    ensures n.host != "" ==> Has(r, "headers", JObj(map["Host" := JStr(n.host)]))
    ensures n.host == "" ==> Has(r, "headers", JObj(map[]))
  {
    map["path" := JStr(n.path)]["headers" := JObj(if n.host != "" then map["Host" := JStr(n.host)] else map[])]
  }

  /** The vmess and vless Clash entries: base fields, then the ws fields when
      the network is ws, then the TLS fields when TLS is on. */
  function ClashStreamProxy(n: ProxyNode, base: Dict, serverName: string): (r: Dict)
    requires NoStreamKeys(base)
    ensures forall k :: k in base ==> Has(r, k, base[k])
    ensures ("tls" in r <==> n.tls) && ("servername" in r <==> n.tls)
    ensures ("network" in r <==> n.network == "ws") && ("ws-opts" in r <==> n.network == "ws")
    ensures n.network == "ws" ==> Has(r, "network", JStr("ws")) && Has(r, "ws-opts", JObj(WsOpts(n)))
    ensures n.tls ==> Has(r, "tls", JBool(true)) && Has(r, "servername", JStr(serverName)) && Has(r, "skip-cert-verify", JBool(true))
  {
    var proxy := if n.network == "ws" then base["network" := JStr("ws")]["ws-opts" := JObj(WsOpts(n))] else base;
    if n.tls then proxy["tls" := JBool(true)]["servername" := JStr(serverName)]["skip-cert-verify" := JBool(true)]
    else proxy
  }

  /** None of the keys the ws and TLS options add. */
  predicate NoStreamKeys(d: Dict) {
    "network" !in d && "ws-opts" !in d && "tls" !in d && "servername" !in d && "skip-cert-verify" !in d
  }

  /** The fields every Clash proxy starts with. */
  function ClashBase(n: ProxyNode): (r: Dict)
    ensures r.Keys == {"name", "type", "server", "port"}
    ensures Has(r, "name", JStr(DisplayName(n))) && Has(r, "type", JStr(n.protocol))
    ensures Has(r, "server", JStr(n.address)) && Has(r, "port", JInt(n.port))
  {
    map["name" := JStr(DisplayName(n))]["type" := JStr(n.protocol)]["server" := JStr(n.address)]["port" := JInt(n.port)]
  }

  /** What every Clash entry carries: display name, type, server and port. */
  predicate ClashCommon(r: Dict, n: ProxyNode) {
    && Has(r, "name", JStr(DisplayName(n))) && Has(r, "type", JStr(n.protocol))
    && Has(r, "server", JStr(n.address)) && Has(r, "port", JInt(n.port))
  }

  /** The vmess and vless fields: the uuid, and the TLS and ws fields exactly
      when the node uses TLS and ws. */
  predicate ClashStreamShape(r: Dict, n: ProxyNode) {
    && Has(r, "uuid", JStr(n.uuidOrPassword))
    && ("tls" in r <==> n.tls) && (n.tls ==> r["tls"] == JBool(true))
    && ("servername" in r <==> n.tls)
    && ("network" in r <==> n.network == "ws") && (n.network == "ws" ==> r["network"] == JStr("ws"))
    && ("ws-opts" in r <==> n.network == "ws") && (n.network == "ws" ==> r["ws-opts"] == JObj(WsOpts(n)))
  }

  /** The vmess Clash proxy; its server name falls back to the host. */
  function ClashVmess(n: ProxyNode): (r: Dict)
    ensures ClashCommon(r, n) && ClashStreamShape(r, n)
    ensures Has(r, "alterId", JInt(0)) && Has(r, "cipher", JStr("auto"))
    ensures n.tls ==> Has(r, "servername", JStr(if n.sni != "" then n.sni else n.host))
  {
    ClashStreamProxy(n, VmessBase(n), if n.sni != "" then n.sni else if n.host != "" then n.host else "")
  }

  /** The vmess fields before the ws and TLS options. */
  function VmessBase(n: ProxyNode): (r: Dict)
    ensures ClashCommon(r, n) && NoStreamKeys(r)
    ensures Has(r, "uuid", JStr(n.uuidOrPassword)) && Has(r, "alterId", JInt(0)) && Has(r, "cipher", JStr("auto"))
  {
    ClashBase(n)["uuid" := JStr(n.uuidOrPassword)]["alterId" := JInt(0)]["cipher" := JStr("auto")]
  }

  /** The vless Clash proxy; its server name is the SNI alone. */
  function ClashVless(n: ProxyNode): (r: Dict)
    ensures ClashCommon(r, n) && ClashStreamShape(r, n)
    ensures n.tls ==> Has(r, "servername", JStr(n.sni))
  {
    ClashStreamProxy(n, VlessBase(n), if n.sni != "" then n.sni else "")
  }

  /** The vless fields before the ws and TLS options. */
  function VlessBase(n: ProxyNode): (r: Dict)
    ensures ClashCommon(r, n) && NoStreamKeys(r) && Has(r, "uuid", JStr(n.uuidOrPassword))
  {
    ClashBase(n)["uuid" := JStr(n.uuidOrPassword)]
  }

  /** The trojan Clash proxy: password and SNI, certificate checks off. */
  function ClashTrojan(n: ProxyNode): (r: Dict)
    ensures ClashCommon(r, n)
    ensures Has(r, "password", JStr(n.uuidOrPassword)) && Has(r, "sni", JStr(n.sni))
    ensures Has(r, "skip-cert-verify", JBool(true))
  {
    ClashBase(n)["password" := JStr(n.uuidOrPassword)]["sni" := JStr(n.sni)]["skip-cert-verify" := JBool(true)]
  }

  /** The ss Clash proxy: the secret split into cipher and password. */
  function ClashSs(n: ProxyNode): (r: Dict)
    ensures ClashCommon(r, n)
    ensures Has(r, "cipher", JStr(SplitSecret(n.uuidOrPassword).0))
    ensures Has(r, "password", JStr(SplitSecret(n.uuidOrPassword).1))
  {
    var (cipher, password) := SplitSecret(n.uuidOrPassword);
    ClashBase(n)["cipher" := JStr(cipher)]["password" := JStr(password)]
  }

  /** `node_to_clash_proxy`. */
  function ClashProxy(n: ProxyNode): (r: Option<Dict>)
    ensures r.Some? <==> Encodable(n.protocol)
  {
    if n.protocol == "vmess" then Some(ClashVmess(n))
    else if n.protocol == "vless" then Some(ClashVless(n))
    else if n.protocol == "trojan" then Some(ClashTrojan(n))
    else if n.protocol == "ss" then Some(ClashSs(n))
    else None
  }

  /** Every Clash entry carries its display name, type, server and port. */
  lemma ClashCommonFields(n: ProxyNode)
    requires Encodable(n.protocol)
    ensures ClashCommon(ClashProxy(n).value, n)
  {
  }

  /** vmess and vless entries have their TLS and ws fields exactly when the
      node uses TLS and ws. */
  lemma ClashStreamFields(n: ProxyNode)
    requires n.protocol == "vmess" || n.protocol == "vless"
    ensures ClashStreamShape(ClashProxy(n).value, n)
  {
  }

  /** What every Clash entry carries: the display name, the node's type,
      server and port; vmess and vless entries have their TLS and ws fields
      exactly when the node uses TLS and ws; trojan entries skip certificate
      checks; ss entries split the secret. */
  lemma ClashProxyFields(n: ProxyNode)
    requires Encodable(n.protocol)
    ensures var p := ClashProxy(n).value;
      && ClashCommon(p, n)
      && (n.protocol in {"vmess", "vless"} ==> ClashStreamShape(p, n))
      && (n.protocol == "trojan" ==> (
        && Has(p, "password", JStr(n.uuidOrPassword)) && Has(p, "sni", JStr(n.sni))
        && Has(p, "skip-cert-verify", JBool(true))))
      && (n.protocol == "ss" ==> (
        && Has(p, "cipher", JStr(SplitSecret(n.uuidOrPassword).0))
        && Has(p, "password", JStr(SplitSecret(n.uuidOrPassword).1))))
  {
    if n.protocol in {"vmess", "vless"} {
      ClashStreamFields(n);
    }
  }

  /** The vmess link's JSON object, in the encoder's key order. */
  function VmessPairs(n: ProxyNode): (r: seq<(string, string)>)
    ensures DistinctKeys(r)
  {
    [("v", "2"), ("ps", n.name), ("add", n.address), ("port", IntToString(n.port)), ("id", n.uuidOrPassword),
     ("aid", "0"), ("net", n.network), ("type", "none"), ("host", n.host), ("path", n.path),
     ("tls", if n.tls then "tls" else ""), ("sni", n.sni)]
  }

  /** "vmess://" and the base64 of the UTF-8 of the JSON text. */
  function VmessUri(n: ProxyNode, lib: Stdlib): string {
    "vmess://" + Base64.Encode(Utf8.Encode(lib.jsonDumps(VmessPairs(n))))
  }

  /** An optional `name=value` query field. */
  function Param(cond: bool, name: string, value: string): seq<(string, string)> {
    if cond then [(name, value)] else []
  }

  /** The vless query fields, as (name, written value). */
  function VlessParams(n: ProxyNode): (r: seq<(string, string)>)
    ensures ("type", n.network) in r <==> n.network != "" && n.network != "tcp"
    ensures ("security", "tls") in r <==> n.tls
  {
    Param(n.network != "" && n.network != "tcp", "type", n.network)
    + Param(n.tls, "security", "tls")
    + Param(n.sni != "", "sni", n.sni)
    + Param(n.path != "", "path", Quote(n.path))
    + Param(n.host != "", "host", n.host)
  }

  /** The trojan query fields: the SNI only. */
  function TrojanParams(n: ProxyNode): seq<(string, string)> {
    Param(n.sni != "", "sni", n.sni)
  }

  /** `"&".join(f"{k}={v}" ...)`. */
  function QueryString(params: seq<(string, string)>): string {
    Join(seq(|params|, i requires 0 <= i < |params| => params[i].0 + "=" + params[i].1), "&")
  }

  /** The authority of a vless or trojan link as the encoder writes it:
      `secret@address:port`. */
  function AuthorityAsWritten(n: ProxyNode): string {
    n.uuidOrPassword + "@" + n.address + ":" + IntToString(n.port)
  }

  /** The address as a URI host: an IPv6 literal (an address holding ':')
      in square brackets, as section 3.2.2 of RFC 3986 requires. */
  function UriHost(address: string): (r: string)
    ensures ':' !in address ==> r == address
    ensures ':' in address ==> r == "[" + address + "]"
  {
    if ':' in address then "[" + address + "]" else address
  }

  /** The authority with the address written as a URI host. */
  function Authority(n: ProxyNode): string {
    n.uuidOrPassword + "@" + UriHost(n.address) + ":" + IntToString(n.port)
  }

  /** A vless or trojan link from its scheme, authority, query fields and name. */
  function StreamUri(scheme: string, authority: string, params: seq<(string, string)>, name: string): string {
    scheme + "://" + authority + "?" + QueryString(params) + "#" + Quote(name)
  }

  /** The ss link: base64 of the secret, the server, the quoted name. */
  function SsUri(n: ProxyNode): string {
    "ss://" + (Base64.Encode(Utf8.Encode(n.uuidOrPassword)) + "@" + (n.address + ":" + IntToString(n.port)) + "#" + Quote(n.name))
  }

  /** `node_to_uri` as written: vless and trojan addresses go into the link
      unbracketed. */
  function NodeToUriAsWritten(n: ProxyNode, lib: Stdlib): (r: Option<string>)
    ensures r.Some? <==> Encodable(n.protocol)
  {
    if n.protocol == "vless" then Some(StreamUri("vless", AuthorityAsWritten(n), VlessParams(n), n.name))
    else if n.protocol == "trojan" then Some(StreamUri("trojan", AuthorityAsWritten(n), TrojanParams(n), n.name))
    else NodeToUri(n, lib)
  }

  /** Bracketing changes only links whose address holds a ':'. */
  lemma BracketsOnlyIpv6(n: ProxyNode, lib: Stdlib)
    requires ':' !in n.address
    ensures NodeToUri(n, lib) == NodeToUriAsWritten(n, lib)
  {
  }

  /** `node_to_uri`, with IPv6 addresses bracketed in vless and trojan links. */
  function NodeToUri(n: ProxyNode, lib: Stdlib): (r: Option<string>)
    ensures r.Some? <==> Encodable(n.protocol)
  {
    if n.protocol == "vmess" then Some(VmessUri(n, lib))
    else if n.protocol == "vless" then Some(StreamUri("vless", Authority(n), VlessParams(n), n.name))
    else if n.protocol == "trojan" then Some(StreamUri("trojan", Authority(n), TrojanParams(n), n.name))
    else if n.protocol == "ss" then Some(SsUri(n))
    else None
  }
}
