/** The node tester: for every node, resolve its host, connect over TCP,
    try a TLS handshake when the node uses TLS, check the reputation of its
    IP, and decide whether the node is usable from China; then keep the
    usable nodes, fastest first. The network is not modelled: what DNS, the
    TCP connect, the TLS handshake and the reputation lookup would answer for
    a node is a `Probe` parameter. */
module NodeTests {
  import opened Optional
  import opened ProxyNodes
  import opened IpChecks
  import opened Sorting

  /** The latency recorded for a node that could not be reached. */
  const UnreachableMs := 9999

  /** A usable node connects in under this many milliseconds ... */
  const LatencyLimitMs := 500

  /** ... and its IP scores at least this much. */
  const ScoreFloor := 30

  /** `TestResult`: the outcome of testing one node. */
  datatype TestResult = TestResult(
    nodeId: string,
    tcpOk: bool,
    tlsOk: bool,
    latencyMs: int,
    ipInfo: Option<IpInfo>,
    ipScore: int,
    chinaFriendly: bool,
    error: string)

  /** A fresh result with the record's defaults. */
  function NewResult(nodeId: string): (r: TestResult)
    ensures r.nodeId == nodeId && !r.tcpOk && !r.tlsOk && r.latencyMs == UnreachableMs
    ensures r.ipInfo.None? && r.ipScore == 0 && !r.chinaFriendly && r.error == ""
  {
    TestResult(nodeId, false, false, UnreachableMs, None, 0, false, "")
  }

  /** What the network answers when one node is tested: the address its host
      resolves to (None when resolution fails), the milliseconds the TCP
      connect took (None when it fails or times out), whether the TLS
      handshake succeeds, and how the reputation lookup of the IP goes. */
  datatype Probe = Probe(resolved: Option<string>, connectMs: Option<nat>, tlsHandshake: bool, lookup: Lookup)

  /** `test_tcp`: connected and the latency, or not connected and 9999. */
  function TcpOutcome(connectMs: Option<nat>): (r: (bool, int))
    ensures r.0 <==> connectMs.Some?
    ensures r.0 ==> r.1 == connectMs.value
    ensures !r.0 ==> r.1 == UnreachableMs
  {
    match connectMs
    case None => (false, UnreachableMs)
    case Some(ms) => (true, ms)
  }

  /** The China-friendliness rule: connected, fast, a clean IP, outside China. */
  predicate ChinaFriendly(tcpOk: bool, latencyMs: int, ipScore: int, country: string) {
    tcpOk && latencyMs < LatencyLimitMs && ipScore >= ScoreFloor && country != "CN"
  }

  /** A result marked friendly carries the evidence the rule asks for. */
  predicate Justified(r: TestResult) {
    r.chinaFriendly ==> (
      && r.tcpOk && r.latencyMs < LatencyLimitMs && r.ipScore >= ScoreFloor
      && r.ipInfo.Some? && r.ipInfo.value.country != "CN")
  }

  /** The host and port pass the tester's sanity check. */
  predicate ValidEndpoint(n: ProxyNode) {
    n.address != "" && n.port != 0
  }

  /** The host resolved to a non-empty address. */
  predicate Resolved(probe: Probe) {
    probe.resolved.Some? && probe.resolved.value != ""
  }

  /** `test_node` on a node, what the network answers, and the IP checker's
      cache: the result and the new cache. The node records the tester gets
      carry no `unique_id` key, so every result's id is empty. */
  function NodeOutcome(n: ProxyNode, probe: Probe, cache: map<string, IpInfo>): (r: (TestResult, map<string, IpInfo>))
    ensures Justified(r.0)
    ensures r.0.nodeId == ""
    ensures r.0.ipInfo.None? ==> r.1 == cache
  {
    var blank := NewResult("");
    if !ValidEndpoint(n) then (blank.(error := "Invalid host/port"), cache)
    else if !Resolved(probe) then (blank.(error := "DNS resolution failed"), cache)
    else
      var ip := probe.resolved.value;
      var (tcpOk, latency) := TcpOutcome(probe.connectMs);
      if !tcpOk then
        (blank.(tcpOk := tcpOk, latencyMs := latency, error := "TCP connection failed"), cache)
      else
        var tlsOk := if n.tls then probe.tlsHandshake else true;
        var (info, after) := Checked(cache, ip, probe.lookup);
        var friendly := ChinaFriendly(tcpOk, latency, info.trustScore, info.country);
        (blank.(tcpOk := tcpOk, latencyMs := latency, tlsOk := tlsOk, ipInfo := Some(info),
                ipScore := info.trustScore, chinaFriendly := friendly), after)
  }

  /** An empty host or a zero port fails before anything is sent. */
  lemma InvalidEndpointFails(n: ProxyNode, probe: Probe, cache: map<string, IpInfo>)
    requires n.address == "" || n.port == 0
    ensures var (r, after) := NodeOutcome(n, probe, cache);
      r.error == "Invalid host/port" && !r.tcpOk && r.latencyMs == UnreachableMs
      && !r.chinaFriendly && after == cache
  {
  }

  /** A host that does not resolve fails before any connection. */
  lemma UnresolvedFails(n: ProxyNode, probe: Probe, cache: map<string, IpInfo>)
    requires ValidEndpoint(n) && !Resolved(probe)
    ensures var (r, after) := NodeOutcome(n, probe, cache);
      r.error == "DNS resolution failed" && !r.tcpOk && r.latencyMs == UnreachableMs
      && !r.chinaFriendly && after == cache
  {
  }

  /** A failed TCP connect records 9999 ms, skips the TLS and IP checks and
      leaves the cache alone. */
  lemma UnreachableFails(n: ProxyNode, probe: Probe, cache: map<string, IpInfo>)
    requires ValidEndpoint(n) && Resolved(probe) && probe.connectMs.None?
    ensures var (r, after) := NodeOutcome(n, probe, cache);
      r.error == "TCP connection failed" && !r.tcpOk && !r.tlsOk && r.latencyMs == UnreachableMs
      && r.ipInfo.None? && !r.chinaFriendly && after == cache
  {
  }

  /** A node is friendly exactly when its endpoint is valid, it resolves,
      it connects in under 500 ms, and the checked info of its IP scores at
      least 30 and is not Chinese. */
  lemma FriendlyIff(n: ProxyNode, probe: Probe, cache: map<string, IpInfo>)
    ensures NodeOutcome(n, probe, cache).0.chinaFriendly <==> (
      && ValidEndpoint(n) && Resolved(probe) && probe.connectMs.Some?
      && probe.connectMs.value < LatencyLimitMs
      && var info := Checked(cache, probe.resolved.value, probe.lookup).0;
         info.trustScore >= ScoreFloor && info.country != "CN")
  {
  }

  /** The TLS handshake is recorded but plays no part in the verdict, nor in
      the cache. */
  lemma TlsIrrelevant(n: ProxyNode, probe: Probe, cache: map<string, IpInfo>, handshake: bool)
    ensures var (a, ca) := NodeOutcome(n, probe, cache);
      var (b, cb) := NodeOutcome(n, probe.(tlsHandshake := handshake), cache);
      a.chinaFriendly == b.chinaFriendly && ca == cb
  {
  }

  /** A node without TLS counts as passing the TLS check once it connects. */
  lemma PlainNodeTlsOk(n: ProxyNode, probe: Probe, cache: map<string, IpInfo>)
    requires ValidEndpoint(n) && Resolved(probe) && probe.connectMs.Some? && !n.tls
    ensures NodeOutcome(n, probe, cache).0.tlsOk
  {
  }

  /** A reputation lookup that fails leaves the default score of 50 and no
      country, so it does not hold a fast node back. */
  lemma FailedLookupStillFriendly(n: ProxyNode, probe: Probe, cache: map<string, IpInfo>)
    requires ValidEndpoint(n) && Resolved(probe) && probe.resolved.value !in cache
    requires probe.connectMs.Some? && probe.connectMs.value < LatencyLimitMs
    requires !Succeeded(probe.lookup)
    ensures NodeOutcome(n, probe, cache).0.chinaFriendly
    ensures NodeOutcome(n, probe, cache).0.ipScore == 50
  {
  }

  /** An IP the lookup places in China is never friendly, whatever its
      latency. */
  lemma ChineseIpNeverFriendly(n: ProxyNode, probe: Probe, cache: map<string, IpInfo>)
    requires Resolved(probe) && probe.resolved.value !in cache
    requires Succeeded(probe.lookup) && probe.lookup.countryCode == "CN"
    ensures !NodeOutcome(n, probe, cache).0.chinaFriendly
  {
  }

  /** The results of testing the nodes one after another, each with its own
      probe, threading the IP checker's cache through. */
  function Outcomes(nodes: seq<ProxyNode>, probes: seq<Probe>, cache: map<string, IpInfo>): (r: (seq<TestResult>, map<string, IpInfo>))
    requires |probes| == |nodes|
    ensures |r.0| == |nodes|
    ensures forall k :: 0 <= k < |r.0| ==> Justified(r.0[k])
    decreases |nodes|
  {
    if nodes == [] then ([], cache)
    else
      var (results, before) := Outcomes(nodes[..|nodes| - 1], probes[..|probes| - 1], cache);
      var (last, after) := NodeOutcome(nodes[|nodes| - 1], probes[|probes| - 1], before);
      (results + [last], after)
  }

  lemma OutcomesStep(nodes: seq<ProxyNode>, probes: seq<Probe>, cache: map<string, IpInfo>, i: nat)
    requires |probes| == |nodes| && i < |nodes|
    ensures var (results, before) := Outcomes(nodes[..i], probes[..i], cache);
      var (last, after) := NodeOutcome(nodes[i], probes[i], before);
      Outcomes(nodes[..i + 1], probes[..i + 1], cache) == (results + [last], after)
  {
    assert nodes[..i + 1][..i] == nodes[..i];
    assert probes[..i + 1][..i] == probes[..i];
  }

  /** The `test_result` summary written into a node's record. */
  datatype Summary = Summary(
    tcpOk: bool,
    tlsOk: bool,
    latencyMs: int,
    ipScore: int,
    chinaFriendly: bool,
    ipCountry: string,
    error: string)

  /** A node with its summary. */
  datatype TestedNode = TestedNode(node: ProxyNode, summary: Summary)

  /** The summary of a result: its fields, and the country of its IP info
      ("" when the IP was not checked). */
  function Summarize(r: TestResult): (s: Summary)
    ensures s.chinaFriendly == r.chinaFriendly && s.latencyMs == r.latencyMs && s.ipScore == r.ipScore
    ensures s.ipCountry == (if r.ipInfo.Some? then r.ipInfo.value.country else "")
    ensures Justified(r) ==> (s.chinaFriendly ==> ChinaFriendly(s.tcpOk, s.latencyMs, s.ipScore, s.ipCountry))
  {
    Summary(r.tcpOk, r.tlsOk, r.latencyMs, r.ipScore, r.chinaFriendly,
            if r.ipInfo.Some? then r.ipInfo.value.country else "", r.error)
  }

  /** Every node paired with the summary of its result. */
  function Annotate(nodes: seq<ProxyNode>, results: seq<TestResult>): (r: seq<TestedNode>)
    requires |results| == |nodes|
    ensures |r| == |nodes|
    ensures forall k :: 0 <= k < |r| ==> r[k] == TestedNode(nodes[k], Summarize(results[k]))
  {
    seq(|nodes|, k requires 0 <= k < |nodes| => TestedNode(nodes[k], Summarize(results[k])))
  }

  /** The friendly ones among annotated nodes, in order. */
  function Passing(tested: seq<TestedNode>): (r: seq<TestedNode>)
    ensures |r| <= |tested|
    ensures forall t :: t in r ==> t in tested && t.summary.chinaFriendly
    ensures forall t :: t in tested && t.summary.chinaFriendly ==> t in r
  {
    if tested == [] then []
    else
      var init := Passing(tested[..|tested| - 1]);
      var last := tested[|tested| - 1];
      assert tested == tested[..|tested| - 1] + [last];
      if last.summary.chinaFriendly then init + [last] else init
  }

  /** Each friendly node is kept as many times as it occurs, the others not
      at all. */
  lemma {:induction false} PassingCounts(tested: seq<TestedNode>)
    ensures forall t :: multiset(Passing(tested))[t] == if t.summary.chinaFriendly then multiset(tested)[t] else 0
  {
    if tested != [] {
      var init, last := tested[..|tested| - 1], tested[|tested| - 1];
      PassingCounts(init);
      PassingSnoc(tested);
      assert tested == init + [last];
      assert multiset(tested) == multiset(init) + multiset{last};
    }
  }

  /** Filtering keeps the input order: the friendly nodes of a concatenation
      are those of the first part followed by those of the second. */
  lemma {:induction false} PassingAppend(a: seq<TestedNode>, b: seq<TestedNode>)
    ensures Passing(a + b) == Passing(a) + Passing(b)
  {
    if b == [] {
      assert a + b == a;
    } else {
      var init, last := b[..|b| - 1], b[|b| - 1];
      PassingAppend(a, init);
      var c := a + b;
      var tail := if last.summary.chinaFriendly then [last] else [];
      assert c[..|c| - 1] == a + init && c[|c| - 1] == last;
      PassingSnoc(c);
      assert Passing(c) == Passing(a + init) + tail;
      PassingSnoc(b);
      assert Passing(b) == Passing(init) + tail;
      assert Passing(a + init) == Passing(a) + Passing(init);
      assert (Passing(a) + Passing(init)) + tail == Passing(a) + (Passing(init) + tail);
    }
  }

  lemma PassingSnoc(s: seq<TestedNode>)
    requires s != []
    ensures var last := s[|s| - 1];
      Passing(s) == Passing(s[..|s| - 1]) + (if last.summary.chinaFriendly then [last] else [])
  {
  }

  /** A single node passes exactly when it is friendly. */
  lemma PassingOne(t: TestedNode)
    ensures Passing([t]) == if t.summary.chinaFriendly then [t] else []
  {
    assert [t][..0] == [];
  }

  /** Faster first. */
  predicate LatencyLe(a: TestedNode, b: TestedNode) {
    a.summary.latencyMs <= b.summary.latencyMs
  }

  lemma LatencyOrder()
    ensures TotalPreorder(LatencyLe)
  {
  }

  /** `test_all`: the friendly nodes, annotated, fastest first; ties keep
      their input order. */
  function TestedNodes(nodes: seq<ProxyNode>, probes: seq<Probe>, cache: map<string, IpInfo>): seq<TestedNode>
    requires |probes| == |nodes|
  {
    Sort(Passing(Annotate(nodes, Outcomes(nodes, probes, cache).0)), LatencyLe)
  }

  /** The tested nodes come fastest first. */
  lemma TestedSorted(nodes: seq<ProxyNode>, probes: seq<Probe>, cache: map<string, IpInfo>)
    requires |probes| == |nodes|
    ensures Sorted(TestedNodes(nodes, probes, cache), LatencyLe)
  {
    LatencyOrder();
    SortSorted(Passing(Annotate(nodes, Outcomes(nodes, probes, cache).0)), LatencyLe);
  }

  /** They are exactly the friendly nodes, each once. */
  lemma TestedPermutesPassing(nodes: seq<ProxyNode>, probes: seq<Probe>, cache: map<string, IpInfo>)
    requires |probes| == |nodes|
    ensures multiset(TestedNodes(nodes, probes, cache))
      == multiset(Passing(Annotate(nodes, Outcomes(nodes, probes, cache).0)))
  {
    SortPermutes(Passing(Annotate(nodes, Outcomes(nodes, probes, cache).0)), LatencyLe);
  }

  /** Nodes with the same latency keep their input order. */
  lemma TestedStable(nodes: seq<ProxyNode>, probes: seq<Probe>, cache: map<string, IpInfo>, c: TestedNode)
    requires |probes| == |nodes|
    ensures var passing := Passing(Annotate(nodes, Outcomes(nodes, probes, cache).0));
      Peers(TestedNodes(nodes, probes, cache), LatencyLe, c) == Peers(passing, LatencyLe, c)
  {
    LatencyOrder();
    SortStable(Passing(Annotate(nodes, Outcomes(nodes, probes, cache).0)), LatencyLe, c);
  }

  /** Every tested node is fast, clean and outside China. */
  lemma TestedAreFriendly(nodes: seq<ProxyNode>, probes: seq<Probe>, cache: map<string, IpInfo>)
    requires |probes| == |nodes|
    ensures forall t :: t in TestedNodes(nodes, probes, cache) ==>
      ChinaFriendly(t.summary.tcpOk, t.summary.latencyMs, t.summary.ipScore, t.summary.ipCountry)
  {
    var results := Outcomes(nodes, probes, cache).0;
    var passing := Passing(Annotate(nodes, results));
    AnnotatedFriendly(nodes, results);
    TestedPermutesPassing(nodes, probes, cache);
    forall t | t in TestedNodes(nodes, probes, cache)
      ensures ChinaFriendly(t.summary.tcpOk, t.summary.latencyMs, t.summary.ipScore, t.summary.ipCountry)
    {
      assert t in multiset(passing);
    }
  }

  /** An annotated node marked friendly has a friendly summary. */
  lemma AnnotatedFriendly(nodes: seq<ProxyNode>, results: seq<TestResult>)
    requires |results| == |nodes| && forall k :: 0 <= k < |results| ==> Justified(results[k])
    ensures forall t :: t in Annotate(nodes, results) && t.summary.chinaFriendly ==>
      ChinaFriendly(t.summary.tcpOk, t.summary.latencyMs, t.summary.ipScore, t.summary.ipCountry)
  {
    var annotated := Annotate(nodes, results);
    forall t | t in annotated && t.summary.chinaFriendly
      ensures ChinaFriendly(t.summary.tcpOk, t.summary.latencyMs, t.summary.ipScore, t.summary.ipCountry)
    {
      var k :| 0 <= k < |annotated| && annotated[k] == t;
      assert Justified(results[k]);
    }
  }

  /** Every node found friendly is among the tested nodes. */
  lemma FriendlyAreTested(nodes: seq<ProxyNode>, probes: seq<Probe>, cache: map<string, IpInfo>, k: nat)
    requires |probes| == |nodes| && k < |nodes|
    requires Outcomes(nodes, probes, cache).0[k].chinaFriendly
    ensures TestedNode(nodes[k], Summarize(Outcomes(nodes, probes, cache).0[k])) in TestedNodes(nodes, probes, cache)
  {
    var annotated := Annotate(nodes, Outcomes(nodes, probes, cache).0);
    assert annotated[k] in annotated;
    TestedPermutesPassing(nodes, probes, cache);
    assert annotated[k] in multiset(TestedNodes(nodes, probes, cache));
  }

  lemma PassingStep(tested: seq<TestedNode>, j: nat)
    requires j < |tested|
    ensures Passing(tested[..j + 1])
      == Passing(tested[..j]) + (if tested[j].summary.chinaFriendly then [tested[j]] else [])
  {
    assert tested[..j + 1][..j] == tested[..j];
  }

  /** `NodeTester`, with the IP checker it owns. */
  class NodeTester {
    const checker: IpChecker

    ghost predicate Valid()
      reads checker
    {
      checker.Valid()
    }

    constructor()
      ensures Valid() && fresh(checker) && checker.cache == map[]
    {
      checker := new IpChecker();
    }

    /** `test_node`: the checks in order, stopping at the first failure. */
    method TestNode(n: ProxyNode, probe: Probe) returns (result: TestResult)
      requires Valid()
      modifies checker
      ensures Valid()
      ensures (result, checker.cache) == NodeOutcome(n, probe, old(checker.cache))
    {
      result := NewResult("");
      if n.address == "" || n.port == 0 {
        result := result.(error := "Invalid host/port");
        return;
      }
      var ip := probe.resolved;
      if ip.None? || ip.value == "" {
        result := result.(error := "DNS resolution failed");
        return;
      }
      var (tcpOk, latency) := TcpOutcome(probe.connectMs);
      result := result.(tcpOk := tcpOk, latencyMs := latency);
      if !tcpOk {
        result := result.(error := "TCP connection failed");
        return;
      }
      if n.tls {
        result := result.(tlsOk := probe.tlsHandshake);
      } else {
        result := result.(tlsOk := true);
      }
      var info := checker.CheckIp(ip.value, probe.lookup);
      result := result.(ipInfo := Some(info), ipScore := info.trustScore);
      result := result.(chinaFriendly := result.tcpOk && result.latencyMs < LatencyLimitMs
        && result.ipScore >= ScoreFloor && info.country != "CN");
    }

    /** The testing half of `test_all`: every node in order, each with its
        own probe, sharing the IP checker. */
    method TestEach(nodes: seq<ProxyNode>, probes: seq<Probe>) returns (results: seq<TestResult>)
      requires |probes| == |nodes| && Valid()
      modifies checker
      ensures Valid()
      ensures (results, checker.cache) == Outcomes(nodes, probes, old(checker.cache))
    {
      results := [];
      var i := 0;
      while i < |nodes|
        invariant 0 <= i <= |nodes|
        invariant Valid()
        invariant (results, checker.cache) == Outcomes(nodes[..i], probes[..i], old(checker.cache))
      {
        OutcomesStep(nodes, probes, old(checker.cache), i);
        var r := TestNode(nodes[i], probes[i]);
        results := results + [r];
        i := i + 1;
      }
      assert nodes[..i] == nodes && probes[..i] == probes;
    }

    /** `test_all`: test every node, annotate each with its summary, keep
        and count the friendly ones, and sort them by latency. */
    method TestAll(nodes: seq<ProxyNode>, probes: seq<Probe>) returns (tested: seq<TestedNode>, passed: nat)
      requires |probes| == |nodes| && Valid()
      modifies checker
      ensures Valid()
      ensures checker.cache == Outcomes(nodes, probes, old(checker.cache)).1
      ensures tested == TestedNodes(nodes, probes, old(checker.cache))
      ensures passed == |tested|
    {
      var results := TestEach(nodes, probes);
      var passing;
      passing, passed := KeepFriendly(Annotate(nodes, results));
      tested := Sort(passing, LatencyLe);
    }
  }

  /** The counting loop of `test_all`: the friendly nodes in order, and how
      many there are. */
  method KeepFriendly(annotated: seq<TestedNode>) returns (passing: seq<TestedNode>, passed: nat)
    ensures passing == Passing(annotated)
    ensures passed == |passing|
  {
    passing := [];
    passed := 0;
    var j := 0;
    while j < |annotated|
      invariant 0 <= j <= |annotated|
      invariant passing == Passing(annotated[..j])
      invariant passed == |passing|
    {
      PassingStep(annotated, j);
      if annotated[j].summary.chinaFriendly {
        passed := passed + 1;
        passing := passing + [annotated[j]];
      }
      j := j + 1;
    }
    assert annotated[..j] == annotated;
  }
}
