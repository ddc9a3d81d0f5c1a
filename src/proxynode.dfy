/** The proxy node record every stage of the pipeline passes along, and the
    identity the merge deduplicates by. */
module ProxyNodes {
  import opened Text

  /** One proxy endpoint, with the record's defaults. */
  datatype ProxyNode = ProxyNode(
    protocol: string,
    address: string,
    port: int,
    uuidOrPassword: string,
    name: string := "",
    network: string := "tcp",
    tls: bool := false,
    sni: string := "",
    path: string := "",
    host: string := "",
    source: string := "",
    priority: int := 99)

  /** What `unique_id` is meant to identify a node by. */
  datatype Identity = Identity(protocol: string, address: string, port: int, uuidOrPassword: string)

  /** The identity of a node, used as the merge key in place of the hashed
      key string (see `KeyString`). */
  function Id(n: ProxyNode): (r: Identity)
    ensures r.protocol == n.protocol && r.address == n.address
    ensures r.port == n.port && r.uuidOrPassword == n.uuidOrPassword
  {
    Identity(n.protocol, n.address, n.port, n.uuidOrPassword)
  }

  /** Two nodes share an identity exactly when protocol, address, port and
      secret agree; name, transport, TLS settings, source and priority play
      no part. */
  lemma SameId(a: ProxyNode, b: ProxyNode)
    ensures Id(a) == Id(b) <==>
      a.protocol == b.protocol && a.address == b.address && a.port == b.port && a.uuidOrPassword == b.uuidOrPassword
  {
  }

  /** The string `unique_id` hashes: the four identity fields joined by ':'. */
  function KeyString(n: ProxyNode): (r: string)
    ensures |r| >= |n.protocol| + |n.address| + |n.uuidOrPassword| + 4
  {
    n.protocol + ":" + n.address + ":" + IntToString(n.port) + ":" + n.uuidOrPassword
  }

  /** The key string only depends on the identity. */
  lemma KeyStringOfId(a: ProxyNode, b: ProxyNode)
    requires Id(a) == Id(b)
    ensures KeyString(a) == KeyString(b)
  {
  }

  /** The key string does not determine the identity: an address or a secret
      holding ':' can shift the field boundaries, so two different nodes get
      the same key (and so the same hash), and the merge keeps only one. */
  lemma KeyStringCollides()
    ensures var a := ProxyNode("trojan", "::1", 443, "443:pw");
            var b := ProxyNode("trojan", "::1:443", 443, "pw");
            Id(a) != Id(b) && KeyString(a) == KeyString(b)
  {
    var a := ProxyNode("trojan", "::1", 443, "443:pw");
    var b := ProxyNode("trojan", "::1:443", 443, "pw");
    assert IntToString(443) == "443" by {
      assert NatToString(4) == "4";
      assert NatToString(44) == "44";
    }
    assert KeyString(a) == "trojan:::1:443:443:pw";
    assert KeyString(b) == "trojan:::1:443:443:pw";
  }
}
