/** What the decoders read back from what the encoders write: the ss link,
    which `parse_ss` reads back, the vmess link, the corrected vless and
    trojan links, and the Clash proxy entries. */
module RoundTrips {
  import opened Optional
  import opened Text
  import opened PyStd
  import opened ProxyNodes
  import opened Encoders
  import opened NodeParser
  import opened ClashParser
  import UrlParse
  import Base64
  import Utf8

  /** The node a decoder rebuilds from a link that carries only the endpoint,
      the secret and the name: every other field takes the record's default. */
  function Carried(n: ProxyNode): (r: ProxyNode)
    ensures Id(r) == Id(n) && r.name == n.name
  {
    ProxyNode(n.protocol, n.address, n.port, n.uuidOrPassword, name := n.name)
  }

  /** No ':' is directly followed by '/'. */
  predicate NoColonSlash(t: string) {
    forall j :: 0 <= j < |t| - 1 && t[j] == ':' ==> t[j + 1] != '/'
  }

  lemma ColonSlashConcat(x: string, y: string)
    requires NoColonSlash(x) && NoColonSlash(y)
    requires x != [] && y != [] && x[|x| - 1] == ':' ==> y[0] != '/'
    ensures NoColonSlash(x + y)
  {
    var t := x + y;
    forall j | 0 <= j < |t| - 1 && t[j] == ':' ensures t[j + 1] != '/' {
      if j < |x| - 1 {
        assert t[j] == x[j] && t[j + 1] == x[j + 1];
      } else if j == |x| - 1 {
        assert t[j + 1] == y[0];
      } else {
        assert t[j] == y[j - |x|] && t[j + 1] == y[j + 1 - |x|];
      }
    }
  }

  lemma NoColonNoColonSlash(t: string)
    requires ':' !in t
    ensures NoColonSlash(t)
  {
    forall j | 0 <= j < |t| ensures t[j] != ':' {
      assert t[j] in t;
    }
  }

  lemma NoSlashNoColonSlash(t: string)
    requires '/' !in t
    ensures NoColonSlash(t)
  {
    forall j | 0 <= j < |t| - 1 && t[j] == ':' ensures t[j + 1] != '/' {
      assert t[j + 1] in t;
    }
  }

  /** Text where no ':' is followed by '/' holds no "ss://", so the ss
      decoder's `replace` leaves it alone. */
  lemma NoSsMarker(t: string)
    requires NoColonSlash(t)
    ensures !Occurs(t, "ss://")
  {
    forall i | 0 <= i && i + 5 <= |t| ensures !OccursAt(t, "ss://", i) {
      assert t[i..i + 5][2] == t[i + 2] && t[i..i + 5][3] == t[i + 3];
    }
  }

  /** Base64 text holds no ':' and no '@'. */
  lemma Base64Plain(b: seq<Utf8.Byte>)
    ensures var s := Base64.Encode(b); ':' !in s && '@' !in s
  {
    var s := Base64.Encode(b);
    assert forall i :: 0 <= i < |s| ==> s[i] != ':' && s[i] != '@' by {
      assert Base64.Value(':') == 64 && Base64.Value('@') == 64;
    }
  }

  /** The text of an ss link after "ss://" holds no further "ss://". */
  lemma SsTailPlain(b: string, address: string, p: string, q: string)
    requires ':' !in b && '/' !in address
    requires p != [] && p[0] != '/' && ':' !in p
    requires ':' !in q
    ensures !Occurs(b + "@" + address + ":" + p + "#" + q, "ss://")
  {
    var t1 := b + "@";
    NoColonNoColonSlash(t1);
    NoSlashNoColonSlash(address);
    ColonSlashConcat(t1, address);
    var t2 := t1 + address;
    ColonSlashConcat(t2, ":");
    var t3 := t2 + ":";
    NoColonNoColonSlash(p);
    ColonSlashConcat(t3, p);
    var t4 := t3 + p;
    ColonSlashConcat(t4, "#");
    var t5 := t4 + "#";
    NoColonNoColonSlash(q);
    ColonSlashConcat(t5, q);
    NoSsMarker(t5 + q);
  }

  /** Removing "ss://" from an ss link leaves its text after the scheme. */
  lemma SsMarkerGone(b: string, address: string, p: string, q: string)
    requires ':' !in b && '/' !in address
    requires p != [] && p[0] != '/' && ':' !in p
    requires ':' !in q
    ensures var tail := b + "@" + (address + ":" + p) + "#" + q;
      ReplaceAll("ss://" + tail, "ss://", "") == tail
  {
    var tail := b + "@" + (address + ":" + p) + "#" + q;
    assert tail == b + "@" + address + ":" + p + "#" + q;
    SsTailPlain(b, address, p, q);
    ReplaceLeading("ss://", tail, "");
    ReplaceAbsent(tail, "ss://", "");
  }

  /** The text after the scheme splits at the last '#', then the last '@',
      then the server's last ':'. */
  lemma SsSplits(b: string, address: string, p: string, q: string)
    requires '@' !in address && '@' !in p && ':' !in p && '#' !in q
    ensures var body := b + "@" + (address + ":" + p);
      && RPartition(body + "#" + q, '#') == Parts(body, true, q)
      && RPartition(body, '@') == Parts(b, true, address + ":" + p)
      && SsServer(address + ":" + p) == (address, p)
  {
    var server := address + ":" + p;
    RPartitionAt(b + "@" + server, '#', q);
    assert '@' !in server;
    RPartitionAt(b, '@', server);
    RPartitionAt(address, ':', p);
  }

  /** The pieces of an ss link `ss://<base64>@<address>:<port>#<name>`
      come apart at the separators the decoder looks for. */
  lemma SsPieces(secret: string, address: string, port: int, name: string)
    requires '@' !in address && '/' !in address
    ensures var b := Base64.Encode(Utf8.Encode(secret));
      var (p, q) := (IntToString(port), Quote(name));
      var body := b + "@" + (address + ":" + p);
      && ReplaceAll("ss://" + (body + "#" + q), "ss://", "") == body + "#" + q
      && RPartition(body + "#" + q, '#') == Parts(body, true, q)
      && RPartition(body, '@') == Parts(b, true, address + ":" + p)
      && SsServer(address + ":" + p) == (address, p)
  {
    var b := Base64.Encode(Utf8.Encode(secret));
    var p := IntToString(port);
    var q := Quote(name);
    Base64Plain(Utf8.Encode(secret));
    assert ':' !in q && '#' !in q by {
      assert forall i :: 0 <= i < |q| ==> QuotedChar(q[i]);
    }
    assert ':' !in p && '@' !in p && p[0] != '/' by {
      assert forall i :: 0 <= i < |p| ==> IsDigit(p[i]) || p[i] == '-';
    }
    SsMarkerGone(b, address, p, q);
    SsSplits(b, address, p, q);
  }

  /** The user information of an ss link decodes to the method and password
      the secret splits into. */
  lemma SsSecretBack(secret: string)
    requires ':' in secret
    ensures var (cipher, password) := SsCredentials(Base64.Encode(Utf8.Encode(secret)));
      cipher + ":" + password == secret
  {
    Base64.DecodeEncode(Utf8.Encode(secret));
    Utf8.DecodeEncode(secret);
  }

  /** The body of an ss link splits into the secret's method and password,
      the address and the port text. */
  lemma SsFieldsOf(secret: string, address: string, port: int)
    requires ':' in secret && '@' !in address && '/' !in address
    ensures var b := Base64.Encode(Utf8.Encode(secret));
      var r := SsFields(b + "@" + (address + ":" + IntToString(port)));
      r.Some? && r.value.0 + ":" + r.value.1 == secret && r.value.2 == address && r.value.3 == IntToString(port)
  {
    SsPieces(secret, address, port, "");
    SsSecretBack(secret);
  }

  /** The ss decoder on "ss://" followed by `base64@server#name`. */
  lemma ParseSsParts(secret: string, address: string, port: int, name: string, lib: Stdlib)
    requires ':' in secret && '@' !in address && '/' !in address
    requires UnquoteLaw(lib)
    ensures var b := Base64.Encode(Utf8.Encode(secret));
      ParseSs("ss://" + (b + "@" + (address + ":" + IntToString(port)) + "#" + Quote(name)), lib)
        == Some(ProxyNode("ss", address, port, secret, name := name))
  {
    var b := Base64.Encode(Utf8.Encode(secret));
    var (p, q) := (IntToString(port), Quote(name));
    var body := b + "@" + (address + ":" + p);
    SsPieces(secret, address, port, name);
    SsFieldsOf(secret, address, port);
    ParseIntToString(port);
    assert lib.unquote(q) == name;
  }

  /** An ss link has no surrounding whitespace to strip. */
  lemma SsUriStripped(n: ProxyNode)
    ensures Strip(SsUri(n)) == SsUri(n) && StartsWith(SsUri(n), "ss" + "://")
  {
    var b := Base64.Encode(Utf8.Encode(n.uuidOrPassword));
    var q := Quote(n.name);
    var uri := SsUri(n);
    assert uri[..5] == "ss" + "://";
    assert !IsSpace(uri[|uri| - 1]) by {
      if q != [] {
        assert QuotedChar(q[|q| - 1]) && uri[|uri| - 1] == q[|q| - 1];
      } else {
        assert uri[|uri| - 1] == '#';
      }
    }
    StripKeeps(uri);
  }

  /** The ss decoder on the stripped ss link. */
  lemma ParseSsUri(n: ProxyNode, lib: Stdlib)
    requires n.protocol == "ss" && ':' in n.uuidOrPassword
    requires '@' !in n.address && '/' !in n.address
    requires UnquoteLaw(lib)
    ensures StartsWith(Strip(SsUri(n)), "ss" + "://")
    ensures ParseSs(Strip(SsUri(n)), lib) == Some(Carried(n))
  {
    SsUriStripped(n);
    ParseSsParts(n.uuidOrPassword, n.address, n.port, n.name, lib);
  }

  /** The ss round trip: when the secret holds a ':' (as every decoded ss
      secret does) and the address holds no '@' and no '/', decoding the ss
      link gives back the protocol, address, port, secret and name. */
  lemma SsRoundTrip(n: ProxyNode, lib: Stdlib)
    requires n.protocol == "ss" && ':' in n.uuidOrPassword
    requires '@' !in n.address && '/' !in n.address
    requires UnquoteLaw(lib)
    ensures ParseLine(NodeToUri(n, lib).value, lib) == Some(Carried(n))
  {
    assert NodeToUri(n, lib).value == SsUri(n);
    ParseSsUri(n, lib);
    LineIsSs(SsUri(n), lib);
  }

  /** Text without ':' holds no scheme marker such as "vmess://". */
  lemma NoColonNoMarker(t: string, marker: string)
    requires ':' !in t && ':' in marker
    ensures !Occurs(t, marker)
  {
    var k :| 0 <= k < |marker| && marker[k] == ':';
    forall i | 0 <= i && i + |marker| <= |t| ensures !OccursAt(t, marker, i) {
      assert t[i..i + |marker|][k] == t[i + k];
      assert t[i + k] in t;
    }
  }

  /** Removing every scheme marker from the marker and a text without ':'
      leaves that text. */
  lemma MarkerRemoved(marker: string, t: string)
    requires ':' in marker && ':' !in t
    ensures ReplaceAll(marker + t, marker, "") == t
  {
    NoColonNoMarker(t, marker);
    ReplaceLeading(marker, t, "");
    ReplaceAbsent(t, marker, "");
  }

  /** The fields of a vmess link's JSON object. */
  lemma VmessFields(n: ProxyNode)
    ensures var m := PairsToMap(VmessPairs(n));
      && "ps" in m && m["ps"] == JStr(n.name) && "add" in m && m["add"] == JStr(n.address)
      && "port" in m && m["port"] == JStr(IntToString(n.port))
      && "id" in m && m["id"] == JStr(n.uuidOrPassword) && "net" in m && m["net"] == JStr(n.network)
      && "host" in m && m["host"] == JStr(n.host) && "path" in m && m["path"] == JStr(n.path)
      && "tls" in m && m["tls"] == JStr(if n.tls then "tls" else "") && "sni" in m && m["sni"] == JStr(n.sni)
  {
    var pairs := VmessPairs(n);
    PairsToMapAt(pairs, 1);
    PairsToMapAt(pairs, 2);
    PairsToMapAt(pairs, 3);
    PairsToMapAt(pairs, 4);
    PairsToMapAt(pairs, 6);
    PairsToMapAt(pairs, 8);
    PairsToMapAt(pairs, 9);
    PairsToMapAt(pairs, 10);
    PairsToMapAt(pairs, 11);
  }

  /** What the vmess decoder reads from those fields. */
  lemma VmessReads(n: ProxyNode)
    ensures var m := PairsToMap(VmessPairs(n));
      && StrField(m, "add", "") == Some(n.address) && StrField(m, "id", "") == Some(n.uuidOrPassword)
      && StrField(m, "ps", "") == Some(n.name) && StrField(m, "net", "tcp") == Some(n.network)
      && StrField(m, "sni", "") == Some(n.sni) && StrField(m, "path", "") == Some(n.path)
      && StrField(m, "host", "") == Some(n.host)
      && PyInt(Get(m, "port", JInt(443))) == Some(n.port)
      && (Get(m, "tls", JStr("")) == JStr("tls") <==> n.tls)
  {
    VmessFields(n);
    ParseIntToString(n.port);
  }

  /** The JSON object of a vmess link gives back every field of the node;
      source and priority take the decoder's defaults. */
  lemma VmessConfigBack(n: ProxyNode)
    requires n.protocol == "vmess"
    ensures VmessFromConfig(PairsToMap(VmessPairs(n))) == Some(n.(source := "", priority := 99))
  {
    var m := PairsToMap(VmessPairs(n));
    VmessReads(n);
    assert VmessFromConfig(m) == Some(ProxyNode(
      protocol := "vmess", address := n.address, port := n.port, uuidOrPassword := n.uuidOrPassword,
      name := n.name, network := n.network, tls := n.tls, sni := n.sni, path := n.path, host := n.host));
  }

  /** The body of a vmess link, once "vmess://" is removed, decodes to the
      JSON text the encoder wrote. */
  lemma VmessBody(n: ProxyNode, lib: Stdlib)
    ensures var text := lib.jsonDumps(VmessPairs(n));
      DecodeText(ReplaceAll(VmessUri(n, lib), "vmess://", "")) == Some(text)
  {
    var text := lib.jsonDumps(VmessPairs(n));
    var b := Base64.Encode(Utf8.Encode(text));
    Base64Plain(Utf8.Encode(text));
    MarkerRemoved("vmess://", b);
    Base64.DecodeEncode(Utf8.Encode(text));
    Utf8.DecodeEncode(text);
  }

  /** The vmess decoder on the vmess link: the base64 body comes back as the
      JSON text, which `json.loads` reads back as the encoder's object. */
  lemma ParseVmessUri(n: ProxyNode, lib: Stdlib)
    requires n.protocol == "vmess" && JsonLaw(lib)
    ensures ParseVmess(VmessUri(n, lib), lib) == Some(n.(source := "", priority := 99))
  {
    var text := lib.jsonDumps(VmessPairs(n));
    VmessBody(n, lib);
    assert lib.jsonLoads(text) == Some(JObj(PairsToMap(VmessPairs(n))));
    VmessFromText(VmessUri(n, lib), lib, text, PairsToMap(VmessPairs(n)));
    VmessConfigBack(n);
  }

  /** A vmess link whose body decodes to a JSON object is read through that
      object. */
  lemma VmessFromText(uri: string, lib: Stdlib, text: string, config: map<string, Json>)
    requires DecodeText(ReplaceAll(uri, "vmess://", "")) == Some(text)
    requires lib.jsonLoads(text) == Some(JObj(config))
    ensures ParseVmess(uri, lib) == VmessFromConfig(config)
  {
  }

  /** A vmess link has no surrounding whitespace to strip. */
  lemma VmessUriStripped(n: ProxyNode, lib: Stdlib)
    ensures Strip(VmessUri(n, lib)) == VmessUri(n, lib)
    ensures StartsWith(Strip(VmessUri(n, lib)), "vmess" + "://")
  {
    var b := Base64.Encode(Utf8.Encode(lib.jsonDumps(VmessPairs(n))));
    var uri := VmessUri(n, lib);
    assert uri == "vmess://" + b;
    assert uri[..8] == "vmess" + "://";
    assert !IsSpace(uri[|uri| - 1]) by {
      if b != [] {
        assert uri[|uri| - 1] == b[|b| - 1];
        assert Base64.InAlphabet(b[|b| - 1]) || b[|b| - 1] == '=';
      }
    }
    StripKeeps(uri);
  }

  /** The vmess round trip: decoding the vmess link gives back the whole node,
      with the decoder's source and priority. */
  lemma VmessRoundTrip(n: ProxyNode, lib: Stdlib)
    requires n.protocol == "vmess" && JsonLaw(lib)
    ensures ParseLine(NodeToUri(n, lib).value, lib) == Some(n.(source := "", priority := 99))
  {
    VmessUriStripped(n, lib);
    LineIsVmess(VmessUri(n, lib), lib);
    ParseVmessUri(n, lib);
  }

  /** The protocol names the encoders handle are lower-case. */
  lemma EncodableLower(p: string)
    requires Encodable(p)
    ensures NoUpper(p)
  {
  }

  /** The type of a Clash entry the encoder writes reads back as the node's
      protocol. */
  lemma ClashTypeBack(n: ProxyNode)
    requires Encodable(n.protocol)
    ensures EntryType(JObj(ClashProxy(n).value)) == Some(n.protocol)
  {
    ClashCommonFields(n);
    EncodableLower(n.protocol);
    LowerKeeps(n.protocol);
  }

  /** The fields the Clash decoder reads from a Clash entry the encoder
      writes. */
  lemma ClashReads(n: ProxyNode)
    requires Encodable(n.protocol)
    ensures var d := ClashProxy(n).value;
      && StrField(d, "server", "") == Some(n.address) && PyInt(Get(d, "port", JInt(443))) == Some(n.port)
      && StrField(d, "name", "") == Some(DisplayName(n))
  {
    ClashCommonFields(n);
  }

  /** The vmess and vless fields the Clash decoder reads: the uuid, the
      network (absent, so "tcp", unless ws), the server name and the TLS
      flag. */
  lemma ClashStreamReads(n: ProxyNode)
    requires n.protocol == "vmess" || n.protocol == "vless"
    ensures var d := ClashProxy(n).value;
      && StrField(d, "uuid", "") == Some(n.uuidOrPassword)
      && StrField(d, "network", "tcp") == Some(if n.network == "ws" then "ws" else "tcp")
      && StrField(d, "servername", "").Some?
      && Truthy(Get(d, "tls", JBool(false))) == n.tls
  {
    ClashStreamFields(n);
  }

  /** The ws options of a vmess Clash entry read back, whether or not the
      node uses ws. */
  lemma ClashWsReads(n: ProxyNode)
    requires n.protocol == "vmess"
    ensures var ws := SubMap(ClashProxy(n).value, "ws-opts");
      && ws.Some? && StrField(ws.value, "path", "").Some?
      && SubMap(ws.value, "headers").Some?
      && StrField(SubMap(ws.value, "headers").value, "Host", "").Some?
  {
    ClashStreamFields(n);
    WsOptsReads(ClashProxy(n).value, n);
  }

  /** A ws-opts entry written by the encoder, or none, reads back as a path
      and a headers mapping with a string Host. */
  lemma WsOptsReads(d: Dict, n: ProxyNode)
    requires "ws-opts" in d ==> d["ws-opts"] == JObj(WsOpts(n))
    ensures var ws := SubMap(d, "ws-opts");
      && ws.Some? && StrField(ws.value, "path", "").Some?
      && SubMap(ws.value, "headers").Some?
      && StrField(SubMap(ws.value, "headers").value, "Host", "").Some?
  {
  }

  /** The vmess and vless halves of the Clash round trip. */
  lemma ClashStreamRoundTrip(n: ProxyNode)
    requires n.protocol == "vmess" || n.protocol == "vless"
    ensures var e := ClashEntry(JObj(ClashProxy(n).value));
      && e.Append? && Id(e.node) == Id(n) && e.node.name == DisplayName(n)
      && e.node.tls == n.tls && e.node.network == (if n.network == "ws" then "ws" else "tcp")
  {
    ClashTypeBack(n);
    ClashReads(n);
    ClashStreamReads(n);
    if n.protocol == "vmess" {
      ClashWsReads(n);
    }
  }

  /** The trojan and ss halves of the Clash round trip. */
  lemma ClashSecretRoundTrip(n: ProxyNode)
    requires n.protocol == "trojan" || (n.protocol == "ss" && ':' in n.uuidOrPassword)
    ensures var e := ClashEntry(JObj(ClashProxy(n).value));
      e.Append? && Id(e.node) == Id(n) && e.node.name == DisplayName(n)
  {
    ClashTypeBack(n);
    ClashReads(n);
    if n.protocol == "ss" {
      assert ClashProxy(n).value == ClashSs(n);
      assert SplitSecret(n.uuidOrPassword).0 + ":" + SplitSecret(n.uuidOrPassword).1 == n.uuidOrPassword;
    } else {
      assert ClashProxy(n).value == ClashTrojan(n);
    }
  }

  /** The Clash round trip: the decoder maps the Clash entry the encoder
      writes back to a node with the same protocol, address, port and secret,
      named with the entry's display name (for ss, when the secret holds the
      ':' every decoded ss secret has). */
  lemma ClashRoundTrip(n: ProxyNode)
    requires Encodable(n.protocol)
    requires n.protocol == "ss" ==> ':' in n.uuidOrPassword
    ensures var e := ClashEntry(JObj(ClashProxy(n).value));
      e.Append? && Id(e.node) == Id(n) && e.node.name == DisplayName(n)
  {
    if n.protocol == "vmess" || n.protocol == "vless" {
      ClashStreamRoundTrip(n);
    } else {
      ClashSecretRoundTrip(n);
    }
  }

  /** What a vless or trojan authority can carry back unchanged: secret and
      address free of the characters that end a netloc or split it, an
      address without '@', brackets or an IPv6 zone marker ('%') and without
      upper-case letters (the hostname comes back lower-cased), a secret
      without ':' (the username stops there) or brackets, and a port the
      decoder accepts. */
  predicate AuthoritySafe(n: ProxyNode) {
    && UrlParse.NetlocChars(n.uuidOrPassword) && UrlParse.NetlocChars(n.address)
    && '@' !in n.address && '[' !in n.address && ']' !in n.address && '%' !in n.address
    && NoUpper(n.address)
    && ':' !in n.uuidOrPassword && '[' !in n.uuidOrPassword && ']' !in n.uuidOrPassword
    && 1 <= n.port <= 65535
  }

  /** The splitter accepts the bracketed form of an address with ':': it is
      an IPv6 address, or an IPvFuture literal. */
  predicate HostAccepted(n: ProxyNode, lib: Stdlib) {
    ':' in n.address ==> UrlParse.BracketedHostOk(n.address, lib)
  }

  /** The port text of a link: digits only. */
  lemma PortText(port: int)
    requires 1 <= port
    ensures var p := IntToString(port);
      p != "" && UrlParse.AllDigits(p) && DigitsValue(p) == port
      && '@' !in p && '[' !in p && ']' !in p && ':' !in p
  {
    NatToStringValue(port);
    var p := IntToString(port);
    assert forall i :: 0 <= i < |p| ==> IsDigit(p[i]);
  }

  /** The authority is a netloc the splitter keeps whole. */
  lemma AuthorityChars(n: ProxyNode)
    requires AuthoritySafe(n)
    ensures UrlParse.NetlocChars(Authority(n))
    ensures ('[' in Authority(n)) == (']' in Authority(n))
    ensures '[' in Authority(n) ==> ':' in n.address && UrlParse.BracketedHost(Authority(n)) == n.address
  {
    var p := IntToString(n.port);
    var h := UriHost(n.address);
    PortText(n.port);
    assert UrlParse.NetlocChars(p) by {
      assert forall i :: 0 <= i < |p| ==> IsDigit(p[i]);
    }
    assert UrlParse.NetlocChars(h);
    var a := Authority(n);
    assert a == n.uuidOrPassword + "@" + h + ":" + p;
    if ':' in n.address {
      assert a[|n.uuidOrPassword| + 1] == '[' && a[|n.uuidOrPassword| + 1 + |n.address| + 1] == ']';
      assert h == "[" + n.address + "]";
      assert a == (n.uuidOrPassword + "@") + ['['] + (n.address + "]" + ":" + p);
      PartitionAt(n.uuidOrPassword + "@", '[', n.address + "]" + ":" + p);
      UrlParse.BracketPieces(n.address, p);
    } else {
      assert '[' !in h && ']' !in h;
    }
  }

  /** The host, port text and user the authority yields. */
  lemma AuthorityHost(n: ProxyNode)
    requires AuthoritySafe(n)
    ensures UrlParse.HostInfo(Authority(n)) == (n.address, Some(IntToString(n.port)))
    ensures UrlParse.Username(Authority(n)) == Some(n.uuidOrPassword)
  {
    var p := IntToString(n.port);
    PortText(n.port);
    if ':' in n.address {
      UrlParse.HostInfoBracketed(n.uuidOrPassword, n.address, p);
    } else {
      UrlParse.HostInfoPlain(n.uuidOrPassword, n.address, p);
    }
  }

  /** The decoder's address from the authority is the node's own. */
  lemma AuthorityAddress(n: ProxyNode)
    requires AuthoritySafe(n)
    ensures OrEmpty(UrlParse.Hostname(Authority(n))) == n.address
  {
    AuthorityHost(n);
    LowerKeeps(n.address);
  }

  /** The decoder's port from the authority is the node's own. */
  lemma AuthorityPort(n: ProxyNode)
    requires AuthoritySafe(n)
    ensures PortOr443(Authority(n)) == Some(n.port)
  {
    AuthorityHost(n);
    PortFromHostInfo(Authority(n), n.port);
  }

  /** A netloc whose port text is a port's decimal text yields that port. */
  lemma PortFromHostInfo(netloc: string, port: int)
    requires 1 <= port <= 65535
    requires UrlParse.HostInfo(netloc).1 == Some(IntToString(port))
    ensures PortOr443(netloc) == Some(port)
  {
    PortText(port);
  }

  /** The decoder's address, port and secret from the authority are the
      node's own. */
  lemma AuthorityEndpoint(n: ProxyNode)
    requires AuthoritySafe(n)
    ensures OrEmpty(UrlParse.Hostname(Authority(n))) == n.address
    ensures PortOr443(Authority(n)) == Some(n.port)
    ensures OrEmpty(UrlParse.Username(Authority(n))) == n.uuidOrPassword
  {
    AuthorityHost(n);
    AuthorityAddress(n);
    AuthorityPort(n);
  }

  /** A vless or trojan link has no surrounding whitespace to strip. */
  lemma StreamUriStripped(scheme: string, authority: string, params: seq<(string, string)>, name: string)
    requires UrlParse.IsScheme(scheme)
    ensures Strip(StreamUri(scheme, authority, params, name)) == StreamUri(scheme, authority, params, name)
    ensures StartsWith(Strip(StreamUri(scheme, authority, params, name)), scheme + "://")
  {
    var q := Quote(name);
    var uri := StreamUri(scheme, authority, params, name);
    assert uri[0] == scheme[0];
    assert uri[..|scheme| + 3] == scheme + "://";
    assert !IsSpace(uri[|uri| - 1]) by {
      if q != [] {
        assert QuotedChar(q[|q| - 1]) && uri[|uri| - 1] == q[|q| - 1];
      } else {
        assert uri[|uri| - 1] == '#';
      }
    }
    StripKeeps(uri);
  }

  /** The splitter finds the authority as the netloc of a vless or trojan link. */
  lemma StreamNetloc(scheme: string, n: ProxyNode, params: seq<(string, string)>, lib: Stdlib)
    requires UrlParse.IsScheme(scheme) && AuthoritySafe(n) && HostAccepted(n, lib)
    ensures var split := UrlParse.UrlSplit(StreamUri(scheme, Authority(n), params, n.name), lib);
      split.Some? && split.value.netloc == Authority(n)
  {
    var a := Authority(n);
    var rest := "?" + QueryString(params) + "#" + Quote(n.name);
    assert StreamUri(scheme, a, params, n.name) == scheme + "://" + a + rest;
    AuthorityChars(n);
    UrlParse.SplitNetloc(scheme, a, rest, lib);
  }

  /** The vless decoder on the corrected vless link. */
  lemma ParseVlessStream(n: ProxyNode, lib: Stdlib)
    requires n.protocol == "vless" && AuthoritySafe(n) && HostAccepted(n, lib)
    ensures var r := ParseVless(StreamUri("vless", Authority(n), VlessParams(n), n.name), lib);
      r.Some? && Id(r.value) == Id(n)
  {
    StreamNetloc("vless", n, VlessParams(n), lib);
    AuthorityEndpoint(n);
    VlessEndpoint(StreamUri("vless", Authority(n), VlessParams(n), n.name), lib);
  }

  /** The trojan decoder on the corrected trojan link. */
  lemma ParseTrojanStream(n: ProxyNode, lib: Stdlib)
    requires n.protocol == "trojan" && AuthoritySafe(n) && HostAccepted(n, lib)
    ensures var r := ParseTrojan(StreamUri("trojan", Authority(n), TrojanParams(n), n.name), lib);
      r.Some? && Id(r.value) == Id(n)
  {
    StreamNetloc("trojan", n, TrojanParams(n), lib);
    AuthorityEndpoint(n);
    TrojanEndpoint(StreamUri("trojan", Authority(n), TrojanParams(n), n.name), lib);
  }

  /** "vless" and "trojan" are schemes the splitter recognises. */
  lemma StreamSchemes()
    ensures UrlParse.IsScheme("vless") && UrlParse.IsScheme("trojan")
  {
    var v, t := "vless", "trojan";
    assert forall i :: 0 <= i < |v| ==> UrlParse.IsAsciiAlpha(v[i]);
    assert forall i :: 0 <= i < |t| ==> UrlParse.IsAsciiAlpha(t[i]);
  }

  /** The corrected vless link, stripped, starts with the vless scheme. */
  lemma VlessUriScheme(n: ProxyNode)
    ensures StartsWith(Strip(StreamUri("vless", Authority(n), VlessParams(n), n.name)), "vless" + "://")
  {
    var uri := StreamUri("vless", Authority(n), VlessParams(n), n.name);
    StreamSchemes();
    StreamUriStripped("vless", Authority(n), VlessParams(n), n.name);
  }

  /** The corrected vless link, stripped, decodes to the node's identity. */
  lemma VlessUriStripped(n: ProxyNode, lib: Stdlib)
    requires n.protocol == "vless" && AuthoritySafe(n) && HostAccepted(n, lib)
    ensures var r := ParseVless(Strip(StreamUri("vless", Authority(n), VlessParams(n), n.name)), lib);
      r.Some? && Id(r.value) == Id(n)
  {
    StreamUriStripped("vless", Authority(n), VlessParams(n), n.name);
    ParseVlessStream(n, lib);
  }

  /** The vless link the corrected encoder writes decodes to the node's
      identity. */
  lemma VlessRoundTrip(n: ProxyNode, lib: Stdlib)
    requires n.protocol == "vless" && AuthoritySafe(n) && HostAccepted(n, lib)
    ensures var r := ParseLine(StreamUri("vless", Authority(n), VlessParams(n), n.name), lib);
      r.Some? && Id(r.value) == Id(n)
  {
    var uri := StreamUri("vless", Authority(n), VlessParams(n), n.name);
    VlessUriScheme(n);
    VlessUriStripped(n, lib);
    LineIsVless(uri, lib);
  }

  /** The corrected trojan link, stripped, starts with the trojan scheme. */
  lemma TrojanUriScheme(n: ProxyNode)
    ensures StartsWith(Strip(StreamUri("trojan", Authority(n), TrojanParams(n), n.name)), "trojan" + "://")
  {
    var uri := StreamUri("trojan", Authority(n), TrojanParams(n), n.name);
    StreamSchemes();
    StreamUriStripped("trojan", Authority(n), TrojanParams(n), n.name);
  }

  /** The corrected trojan link, stripped, decodes to the node's identity. */
  lemma TrojanUriStripped(n: ProxyNode, lib: Stdlib)
    requires n.protocol == "trojan" && AuthoritySafe(n) && HostAccepted(n, lib)
    ensures var r := ParseTrojan(Strip(StreamUri("trojan", Authority(n), TrojanParams(n), n.name)), lib);
      r.Some? && Id(r.value) == Id(n)
  {
    StreamUriStripped("trojan", Authority(n), TrojanParams(n), n.name);
    ParseTrojanStream(n, lib);
  }

  /** The trojan link the corrected encoder writes decodes to the node's
      identity. */
  lemma TrojanRoundTrip(n: ProxyNode, lib: Stdlib)
    requires n.protocol == "trojan" && AuthoritySafe(n) && HostAccepted(n, lib)
    ensures var r := ParseLine(StreamUri("trojan", Authority(n), TrojanParams(n), n.name), lib);
      r.Some? && Id(r.value) == Id(n)
  {
    var uri := StreamUri("trojan", Authority(n), TrojanParams(n), n.name);
    TrojanUriScheme(n);
    TrojanUriStripped(n, lib);
    LineIsTrojan(uri, lib);
  }

  /** The corrected vless and trojan round trip: with the address written as
      a URI host, decoding the link gives back the node's protocol, address,
      port and secret, IPv6 addresses included. */
  lemma StreamRoundTrip(n: ProxyNode, lib: Stdlib)
    requires (n.protocol == "vless" || n.protocol == "trojan") && AuthoritySafe(n) && HostAccepted(n, lib)
    ensures var r := ParseLine(NodeToUri(n, lib).value, lib);
      r.Some? && Id(r.value) == Id(n)
  {
    if n.protocol == "vless" {
      VlessRoundTrip(n, lib);
    } else {
      TrojanRoundTrip(n, lib);
    }
  }

  /** The vless node at the IPv6 loopback address used in the counterexample:
      default transport, no TLS, no name. */
  function LoopbackNode(): (n: ProxyNode)
    ensures n.protocol == "vless" && ':' in n.address
  {
    ProxyNode("vless", "::1", 443, "u")
  }

  /** The authority the encoder as written puts in that node's link. */
  lemma LoopbackAuthorityAsWritten()
    ensures AuthorityAsWritten(LoopbackNode()) == "u@::1:443"
  {
    assert NatToString(4) == "4";
    assert NatToString(44) == "44";
    assert IntToString(443) == NatToString(443) == "443";
  }

  /** That node's link has no query fields and no name. */
  lemma LoopbackLinkText()
    ensures StreamUri("vless", "u@::1:443", VlessParams(LoopbackNode()), LoopbackNode().name)
      == "vless://u@::1:443?#"
  {
    assert VlessParams(LoopbackNode()) == [];
    assert QueryString([]) == "";
    assert Quote("") == "";
  }

  /** The link the encoder as written produces for that node. */
  lemma LoopbackLinkAsWritten(lib: Stdlib)
    ensures NodeToUriAsWritten(LoopbackNode(), lib) == Some("vless://u@::1:443?#")
  {
    LoopbackAuthorityAsWritten();
    LoopbackLinkText();
  }

  /** The splitter's netloc of that link. */
  lemma LoopbackNetlocAsWritten(lib: Stdlib)
    ensures var split := UrlParse.UrlSplit("vless://u@::1:443?#", lib);
      split.Some? && split.value.netloc == "u@::1:443"
  {
    var netloc := "u@::1:443";
    StreamSchemes();
    assert UrlParse.NetlocChars(netloc);
    assert "vless://u@::1:443?#" == "vless" + "://" + netloc + "?#";
    UrlParse.SplitNetloc("vless", netloc, "?#", lib);
  }

  /** The port the decoder reads from that netloc: the first ':' ends the
      host, so the port text is ":1:443", which is not a port. */
  lemma LoopbackPortAsWritten()
    ensures UrlParse.HostInfo("u@::1:443") == ("", Some(":1:443"))
    ensures PortOr443("u@::1:443").None?
  {
    var t := ":1:443";
    assert "u@::1:443" == "u" + "@" + ":" + t;
    assert '@' !in t && '[' !in t;
    UrlParse.HostInfoLeadingColon("u", t);
    assert !IsDigit(t[0]);
  }

  /** That link needs no stripping and goes to the vless decoder. */
  lemma LoopbackLinkStripped()
    ensures Strip("vless://u@::1:443?#") == "vless://u@::1:443?#"
    ensures StartsWith(Strip("vless://u@::1:443?#"), "vless" + "://")
  {
    StreamSchemes();
    LoopbackLinkText();
    StreamUriStripped("vless", "u@::1:443", VlessParams(LoopbackNode()), LoopbackNode().name);
  }

  /** The vless decoder drops that link. */
  lemma LoopbackVlessAsWritten(lib: Stdlib)
    ensures ParseVless(Strip("vless://u@::1:443?#"), lib).None?
  {
    LoopbackLinkStripped();
    LoopbackNetlocAsWritten(lib);
    LoopbackPortAsWritten();
  }

  /** The finding: the vless link the encoder writes for an IPv6 address does
      not decode at all, so the node is lost when the published links are read
      back. */
  lemma LoopbackAsWrittenLost(lib: Stdlib)
    ensures ParseLine(NodeToUriAsWritten(LoopbackNode(), lib).value, lib).None?
  {
    LoopbackLinkAsWritten(lib);
    LoopbackLinkStripped();
    LineIsVless("vless://u@::1:443?#", lib);
    LoopbackVlessAsWritten(lib);
  }
  /** With the address bracketed, the same node comes back, "::1" being an
      IPv6 address. */
  lemma LoopbackCorrectedKept(lib: Stdlib)
    requires lib.ipAddress("::1") == IPv6
    ensures var r := ParseLine(NodeToUri(LoopbackNode(), lib).value, lib);
      r.Some? && Id(r.value) == Id(LoopbackNode())
  {
    var n := LoopbackNode();
    assert UrlParse.NetlocChars(n.uuidOrPassword) && UrlParse.NetlocChars(n.address);
    assert AuthoritySafe(n);
    StreamRoundTrip(n, lib);
  }
}
