/** The Clash configuration decoder: the `proxies` list of a YAML document,
    entry by entry. */
module ClashParser {
  import opened Optional
  import opened Text
  import opened PyStd
  import opened ProxyNodes

  /** What one `proxies` entry contributes: a node, nothing (an unknown
      type), or an exception that ends the whole parse. */
  datatype Entry = Append(node: ProxyNode) | Skip | Abort

  /** The protocols whose entries become nodes. */
  predicate ClashType(t: string) {
    t == "vmess" || t == "vless" || t == "trojan" || t == "ss"
  }

  /** `d.get(k, {})` where the result must be a mapping for the following `.get`. */
  function SubMap(d: map<string, Json>, k: string): Option<map<string, Json>> {
    match Get(d, k, JObj(map[]))
    case JObj(m) => Some(m)
    case _ => None
  }

  /** The lower-cased "type" of an entry, `None` where that raises. */
  function EntryType(proxy: Json): Option<string> {
    if !proxy.JObj? then None
    else
      match StrField(proxy.fields, "type", "")
      case None => None
      case Some(t) => Some(AsciiLower(t))
  }

  /** One `proxies` entry. */
  function ClashEntry(proxy: Json): (r: Entry)
    ensures EntryType(proxy).None? ==> r.Abort?
    ensures EntryType(proxy).Some? && !ClashType(EntryType(proxy).value) ==> r.Skip?
    ensures r.Skip? ==> EntryType(proxy).Some? && !ClashType(EntryType(proxy).value)
    ensures r.Append? ==> EntryType(proxy) == Some(r.node.protocol) && ClashType(r.node.protocol)
    ensures r.Append? ==> r.node.source == "" && r.node.priority == 99
    ensures r.Append? && r.node.protocol == "trojan" ==> r.node.tls
    ensures r.Append? && r.node.protocol == "ss" ==>
      Some(r.node.uuidOrPassword) ==
        match (PyStr(Get(proxy.fields, "cipher", JStr(""))), PyStr(Get(proxy.fields, "password", JStr(""))))
        case (Some(c), Some(p)) => Some(c + ":" + p)
        case _ => None
  {
    match EntryType(proxy)
    case None => Abort
    case Some(ptype) =>
      var d := proxy.fields;
      var server := StrField(d, "server", "");
      var port := PyInt(Get(d, "port", JInt(443)));
      var name := StrField(d, "name", "");
      if ptype == "vmess" then
        var uuid := StrField(d, "uuid", "");
        var network := StrField(d, "network", "tcp");
        var sni := StrField(d, "servername", "");
        var ws := SubMap(d, "ws-opts");
        var path := if ws.Some? then StrField(ws.value, "path", "") else None;
        var headers := if ws.Some? then SubMap(ws.value, "headers") else None;
        var host := if headers.Some? then StrField(headers.value, "Host", "") else None;
        if server.None? || port.None? || uuid.None? || name.None? || network.None? || sni.None? || path.None? || host.None?
        then Abort
        else Append(ProxyNode(
          protocol := "vmess", address := server.value, port := port.value, uuidOrPassword := uuid.value,
          name := name.value, network := network.value, tls := Truthy(Get(d, "tls", JBool(false))),
          sni := sni.value, path := path.value, host := host.value))
      else if ptype == "vless" then
        var uuid := StrField(d, "uuid", "");
        var network := StrField(d, "network", "tcp");
        var sni := StrField(d, "servername", "");
        if server.None? || port.None? || uuid.None? || name.None? || network.None? || sni.None?
        then Abort
        else Append(ProxyNode(
          protocol := "vless", address := server.value, port := port.value, uuidOrPassword := uuid.value,
          name := name.value, network := network.value, tls := Truthy(Get(d, "tls", JBool(false))),
          sni := sni.value))
      else if ptype == "trojan" then
        var password := StrField(d, "password", "");
        var sni := StrField(d, "sni", "");
        if server.None? || port.None? || password.None? || name.None? || sni.None?
        then Abort
        else Append(ProxyNode(
          protocol := "trojan", address := server.value, port := port.value, uuidOrPassword := password.value,
          name := name.value, tls := true, sni := sni.value))
      else if ptype == "ss" then
        var cipher := PyStr(Get(d, "cipher", JStr("")));
        var password := PyStr(Get(d, "password", JStr("")));
        if server.None? || port.None? || cipher.None? || password.None? || name.None?
        then Abort
        else Append(ProxyNode(
          protocol := "ss", address := server.value, port := port.value,
          uuidOrPassword := cipher.value + ":" + password.value, name := name.value))
      else Skip
  }

  /** The nodes of the entries up to the first one that raises. */
  function Collect(entries: seq<Json>): (r: seq<ProxyNode>)
    ensures |r| <= |entries|
    ensures forall i :: 0 <= i < |r| ==> ClashType(r[i].protocol)
  {
    if entries == [] then []
    else
      match ClashEntry(entries[0])
      case Abort => []
      case Skip => Collect(entries[1..])
      case Append(n) => [n] + Collect(entries[1..])
  }

  /** The entries of the `proxies` value; a document that is not a mapping,
      or a `proxies` value that is not a list, yields no entries (Python
      either iterates nothing or raises on the first element). */
  function ProxyEntries(content: string, lib: Stdlib): seq<Json> {
    match lib.yamlLoad(content)
    case Some(JObj(config)) =>
      (match Get(config, "proxies", JArr([]))
       case JArr(items) => items
       case _ => [])
    case _ => []
  }

  /** `ClashParser.parse` as a function of the document. */
  function ClashNodes(content: string, lib: Stdlib): seq<ProxyNode> {
    Collect(ProxyEntries(content, lib))
  }

  /** `ClashParser.parse`: walks the entries, appending each mapped node, and
      returns what it has when an entry raises. */
  method Parse(content: string, lib: Stdlib) returns (nodes: seq<ProxyNode>)
    ensures nodes == ClashNodes(content, lib)
  {
    var entries := ProxyEntries(content, lib);
    nodes := [];
    var i := 0;
    while i < |entries|
      invariant 0 <= i <= |entries|
      invariant nodes + Collect(entries[i..]) == Collect(entries)
    {
      var e := ClashEntry(entries[i]);
      assert entries[i..][1..] == entries[i + 1..];
      if e.Abort? {
        assert nodes == Collect(entries);
        return;
      } else if e.Append? {
        nodes := nodes + [e.node];
      }
      i := i + 1;
    }
  }

  /** Entries of unknown type leave the result unchanged wherever they stand. */
  lemma {:induction false} CollectSkips(before: seq<Json>, proxy: Json, after: seq<Json>)
    requires ClashEntry(proxy).Skip?
    ensures Collect(before + [proxy] + after) == Collect(before + after)
  {
    if before == [] {
      assert before + [proxy] + after == [proxy] + after && before + after == after;
      assert ([proxy] + after)[1..] == after;
    } else {
      assert (before + [proxy] + after)[0] == before[0] == (before + after)[0];
      assert (before + [proxy] + after)[1..] == before[1..] + [proxy] + after;
      assert (before + after)[1..] == before[1..] + after;
      CollectSkips(before[1..], proxy, after);
    }
  }

  /** Collecting a concatenation: the first part's nodes, then, unless the
      first part raised, the second part's. */
  lemma {:induction false} CollectAppend(a: seq<Json>, b: seq<Json>)
    requires forall i :: 0 <= i < |a| ==> !ClashEntry(a[i]).Abort?
    ensures Collect(a + b) == Collect(a) + Collect(b)
  {
    if a == [] {
      assert a + b == b;
    } else {
      assert (a + b)[0] == a[0];
      assert (a + b)[1..] == a[1..] + b;
      CollectAppend(a[1..], b);
    }
  }
}
