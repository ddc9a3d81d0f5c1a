/** The merge step of the aggregator: the nodes of all sources are folded
    into a dictionary keyed by node identity, keeping per identity the node of
    the most preferred source (lowest priority number, first seen on a tie),
    and the survivors are sorted by (priority, address). */
module Aggregator {
  import opened Text
  import opened ProxyNodes
  import opened Sorting

  /** Only nodes with a non-empty address and a non-zero port are merged. */
  predicate Eligible(n: ProxyNode) {
    n.address != "" && n.port != 0
  }

  /** `n` is an eligible node with key `k`. */
  predicate Matches<K(==,!new)>(n: ProxyNode, k: K, key: ProxyNode -> K) {
    Eligible(n) && key(n) == k
  }

  /** The insertion-ordered dictionary: its keys in insertion order, and the
      node stored under each key. */
  datatype Dedup<K> = Dedup(order: seq<K>, table: map<K, ProxyNode>)

  function Empty<K>(): Dedup<K> {
    Dedup([], map[])
  }

  /** The keys are listed once each, the listed keys are those of the table,
      and every stored node is eligible and stored under its own key. */
  ghost predicate Wf<K(!new)>(d: Dedup<K>, key: ProxyNode -> K) {
    && (forall i, j :: 0 <= i < j < |d.order| ==> d.order[i] != d.order[j])
    && (forall k :: k in d.table <==> k in d.order)
    && (forall k :: k in d.table ==> Matches(d.table[k], k, key))
  }

  /** One step of the merge loop: an eligible node is stored when its key is
      new (at the end of the order) or when it has a strictly lower priority
      number than the stored one (in the stored one's place). */
  function Absorb<K(==,!new)>(d: Dedup<K>, n: ProxyNode, key: ProxyNode -> K): Dedup<K> {
    if !Eligible(n) then d
    else
      var k := key(n);
      if k !in d.table then Dedup(d.order + [k], d.table[k := n])
      else if n.priority < d.table[k].priority then Dedup(d.order, d.table[k := n])
      else d
  }

  /** The merge loop over `s`, starting from `d`. */
  function AbsorbAll<K(==,!new)>(d: Dedup<K>, s: seq<ProxyNode>, key: ProxyNode -> K): Dedup<K> {
    if s == [] then d
    else Absorb(AbsorbAll(d, s[..|s| - 1], key), s[|s| - 1], key)
  }

  /** The nodes of all sources, source by source. */
  function Flatten(results: seq<seq<ProxyNode>>): (r: seq<ProxyNode>)
    ensures results == [] ==> r == []
  {
    if results == [] then []
    else Flatten(results[..|results| - 1]) + results[|results| - 1]
  }

  /** `list(d.values())`: the stored nodes in key order. */
  function Listed<K>(order: seq<K>, table: map<K, ProxyNode>): (r: seq<ProxyNode>)
    ensures (forall i :: 0 <= i < |order| ==> order[i] in table) ==>
      |r| == |order| && forall i :: 0 <= i < |order| ==> r[i] == table[order[i]]
  {
    if order == [] then []
    else (if order[0] in table then [table[order[0]]] else []) + Listed(order[1..], table)
  }

  /** The sort key `(priority, address)` compared as a Python tuple. */
  predicate NodeLe(a: ProxyNode, b: ProxyNode) {
    a.priority < b.priority || (a.priority == b.priority && StrLe(a.address, b.address))
  }

  lemma NodeLeTotalPreorder()
    ensures TotalPreorder(NodeLe)
  {
    forall a: ProxyNode, b: ProxyNode ensures NodeLe(a, b) || NodeLe(b, a) {
      StrLeTotal(a.address, b.address);
    }
    forall a: ProxyNode, b: ProxyNode, c: ProxyNode | NodeLe(a, b) && NodeLe(b, c)
      ensures NodeLe(a, c)
    {
      if a.priority == b.priority && b.priority == c.priority {
        StrLeTrans(a.address, b.address, c.address);
      }
    }
  }

  /** Index of the first eligible node with key `k`, `|s|` if there is none. */
  function First<K(==,!new)>(s: seq<ProxyNode>, k: K, key: ProxyNode -> K): (r: nat)
    ensures r <= |s|
    ensures r < |s| ==> Matches(s[r], k, key)
    ensures forall i :: 0 <= i < r ==> !Matches(s[i], k, key)
  {
    if s == [] then 0
    else if Matches(s[0], k, key) then 0
    else
      var r := 1 + First(s[1..], k, key);
      assert forall i :: 1 <= i < r ==> s[i] == s[1..][i - 1];
      r
  }

  lemma {:induction false} FirstSnoc<K(!new)>(s: seq<ProxyNode>, x: ProxyNode, k: K, key: ProxyNode -> K)
    ensures First(s + [x], k, key) ==
      if First(s, k, key) < |s| then First(s, k, key)
      else if Matches(x, k, key) then |s| else |s| + 1
  {
    if s != [] {
      assert (s + [x])[0] == s[0];
      assert (s + [x])[1..] == s[1..] + [x];
      FirstSnoc(s[1..], x, k, key);
    }
  }

  lemma AbsorbWf<K(!new)>(d: Dedup<K>, n: ProxyNode, key: ProxyNode -> K)
    requires Wf(d, key)
    ensures Wf(Absorb(d, n, key), key)
  {
  }

  /** The merge keeps the dictionary well formed. */
  lemma {:induction false} AbsorbAllWf<K(!new)>(d: Dedup<K>, s: seq<ProxyNode>, key: ProxyNode -> K)
    requires Wf(d, key)
    ensures Wf(AbsorbAll(d, s, key), key)
  {
    if s != [] {
      AbsorbAllWf(d, s[..|s| - 1], key);
      AbsorbWf(AbsorbAll(d, s[..|s| - 1], key), s[|s| - 1], key);
    }
  }

  lemma AbsorbAllSnoc<K(!new)>(d: Dedup<K>, s: seq<ProxyNode>, x: ProxyNode, key: ProxyNode -> K)
    ensures AbsorbAll(d, s + [x], key) == Absorb(AbsorbAll(d, s, key), x, key)
  {
    assert (s + [x])[..|s|] == s;
  }

  lemma {:induction false} AbsorbAllAppend<K(!new)>(d: Dedup<K>, s: seq<ProxyNode>, t: seq<ProxyNode>, key: ProxyNode -> K)
    ensures AbsorbAll(d, s + t, key) == AbsorbAll(AbsorbAll(d, s, key), t, key)
  {
    if t == [] {
      assert s + t == s;
    } else {
      var u := t[..|t| - 1];
      AbsorbAllAppend(d, s, u, key);
      assert s + t == (s + u) + [t[|t| - 1]];
      AbsorbAllSnoc(d, s + u, t[|t| - 1], key);
    }
  }

  /** The keys of `d` are those of the eligible nodes of `s`. */
  ghost predicate KeysOf<K(!new)>(d: Dedup<K>, s: seq<ProxyNode>, key: ProxyNode -> K) {
    forall k :: k in d.table <==> First(s, k, key) < |s|
  }

  /** The node stored for a key has the lowest priority number among the
      eligible nodes of `s` with that key. */
  ghost predicate MinimalOf<K(!new)>(d: Dedup<K>, s: seq<ProxyNode>, key: ProxyNode -> K) {
    forall k, i :: k in d.table && 0 <= i < |s| && Matches(s[i], k, key) ==>
      d.table[k].priority <= s[i].priority
  }

  /** The node stored for a key is a node of `s`, and every eligible node with
      that key before it has a strictly higher priority number. */
  ghost predicate FirstWinsOf<K(!new)>(d: Dedup<K>, s: seq<ProxyNode>, key: ProxyNode -> K) {
    forall k :: k in d.table ==> exists j :: (0 <= j < |s| && s[j] == d.table[k] &&
      forall i :: 0 <= i < j && Matches(s[i], k, key) ==> s[i].priority > s[j].priority)
  }

  /** The keys are listed in the order of their first eligible node in `s`. */
  ghost predicate OrderOf<K(!new)>(d: Dedup<K>, s: seq<ProxyNode>, key: ProxyNode -> K) {
    forall a, b :: 0 <= a < b < |d.order| ==> First(s, d.order[a], key) < First(s, d.order[b], key)
  }

  lemma KeysStep<K(!new)>(p: seq<ProxyNode>, x: ProxyNode, d: Dedup<K>, key: ProxyNode -> K)
    requires KeysOf(d, p, key)
    ensures KeysOf(Absorb(d, x, key), p + [x], key)
  {
    forall k ensures k in Absorb(d, x, key).table <==> First(p + [x], k, key) < |p + [x]| {
      FirstSnoc(p, x, k, key);
    }
  }

  lemma MinimalStep<K(!new)>(p: seq<ProxyNode>, x: ProxyNode, d: Dedup<K>, key: ProxyNode -> K)
    requires KeysOf(d, p, key) && MinimalOf(d, p, key)
    ensures MinimalOf(Absorb(d, x, key), p + [x], key)
  {
    var d' := Absorb(d, x, key);
    var s := p + [x];
    forall k, i | k in d'.table && 0 <= i < |s| && Matches(s[i], k, key)
      ensures d'.table[k].priority <= s[i].priority
    {
      if i < |p| {
        assert s[i] == p[i];
        assert First(p, k, key) <= i;
        assert d.table[k].priority <= p[i].priority;
      } else {
        assert s[i] == x;
      }
    }
  }

  lemma FirstWinsStep<K(!new)>(p: seq<ProxyNode>, x: ProxyNode, d: Dedup<K>, key: ProxyNode -> K)
    requires KeysOf(d, p, key) && MinimalOf(d, p, key) && FirstWinsOf(d, p, key)
    ensures FirstWinsOf(Absorb(d, x, key), p + [x], key)
  {
    var d' := Absorb(d, x, key);
    var s := p + [x];
    forall k | k in d'.table
      ensures exists j :: (0 <= j < |s| && s[j] == d'.table[k] &&
        forall i :: 0 <= i < j && Matches(s[i], k, key) ==> s[i].priority > s[j].priority)
    {
      if k in d.table && d'.table[k] == d.table[k] {
        var j :| 0 <= j < |p| && p[j] == d.table[k] &&
          forall i :: 0 <= i < j && Matches(p[i], k, key) ==> p[i].priority > p[j].priority;
        assert s[j] == p[j];
        assert forall i :: 0 <= i < j ==> s[i] == p[i];
      } else {
        assert d'.table[k] == x && key(x) == k;
        forall i | 0 <= i < |p| && Matches(s[i], k, key)
          ensures s[i].priority > x.priority
        {
          assert s[i] == p[i];
          assert First(p, k, key) <= i;
        }
        assert s[|p|] == x;
      }
    }
  }

  lemma OrderStep<K(!new)>(p: seq<ProxyNode>, x: ProxyNode, d: Dedup<K>, key: ProxyNode -> K)
    requires Wf(d, key) && KeysOf(d, p, key) && OrderOf(d, p, key)
    ensures OrderOf(Absorb(d, x, key), p + [x], key)
  {
    var d' := Absorb(d, x, key);
    forall a, b | 0 <= a < b < |d'.order|
      ensures First(p + [x], d'.order[a], key) < First(p + [x], d'.order[b], key)
    {
      FirstSnoc(p, x, d'.order[a], key);
      FirstSnoc(p, x, d'.order[b], key);
      assert d'.order[a] == d.order[a] && d.order[a] in d.table;
      if b < |d.order| {
        assert d'.order[b] == d.order[b] && d.order[b] in d.table;
      }
    }
  }

  /** What the merge loop leaves in the dictionary, stated against its
      input: the keys are exactly those of the eligible nodes, listed by
      first arrival; the node kept for a key has the lowest priority number
      of its key, and is the first such node. */
  lemma {:induction false} MergeSpec<K(!new)>(s: seq<ProxyNode>, key: ProxyNode -> K)
    ensures var d := AbsorbAll(Empty(), s, key);
      Wf(d, key) && KeysOf(d, s, key) && MinimalOf(d, s, key) && FirstWinsOf(d, s, key) && OrderOf(d, s, key)
  {
    if s != [] {
      var p, x := s[..|s| - 1], s[|s| - 1];
      MergeSpec(p, key);
      var d := AbsorbAll(Empty(), p, key);
      AbsorbWf(d, x, key);
      KeysStep(p, x, d, key);
      MinimalStep(p, x, d, key);
      FirstWinsStep(p, x, d, key);
      OrderStep(p, x, d, key);
      assert p + [x] == s;
    }
  }

  /** The aggregator's result for the nodes of all sources, in source order. */
  function Aggregated(results: seq<seq<ProxyNode>>): seq<ProxyNode> {
    var d := AbsorbAll(Empty(), Flatten(results), Id);
    Sort(Listed(d.order, d.table), NodeLe)
  }

  /** No two nodes of `s` share an identity. */
  predicate DistinctIds(s: seq<ProxyNode>) {
    forall i, j :: 0 <= i < j < |s| ==> Id(s[i]) != Id(s[j])
  }

  /** The listed nodes of a well-formed dictionary are its stored nodes in
      key order, one per identity. */
  lemma ListedIds(d: Dedup<Identity>)
    requires Wf(d, Id)
    ensures var l := Listed(d.order, d.table);
      && |l| == |d.order|
      && (forall m :: 0 <= m < |l| ==> l[m] == d.table[d.order[m]] && Id(l[m]) == d.order[m])
      && DistinctIds(l)
  {
  }

  lemma CountOne(a: seq<ProxyNode>, m: int)
    requires DistinctIds(a) && 0 <= m < |a|
    ensures multiset(a)[a[m]] == 1
  {
    var x := a[m];
    assert a == a[..m] + [x] + a[m + 1..];
    assert x !in a[..m];
    assert x !in a[m + 1..];
  }

  lemma CountTwo<T>(s: seq<T>, i: int, j: int)
    requires 0 <= i < j < |s| && s[i] == s[j]
    ensures multiset(s)[s[i]] >= 2
  {
    assert s == s[..i] + [s[i]] + s[i + 1..j] + [s[j]] + s[j + 1..];
  }

  /** Where an element of a permutation came from. */
  lemma Origin<T>(a: seq<T>, b: seq<T>, i: int) returns (m: int)
    requires multiset(a) == multiset(b) && 0 <= i < |b|
    ensures 0 <= m < |a| && a[m] == b[i]
  {
    assert b[i] in multiset(a);
    m :| 0 <= m < |a| && a[m] == b[i];
  }

  /** Reordering keeps the identities distinct. */
  lemma PermutationDistinctIds(a: seq<ProxyNode>, b: seq<ProxyNode>)
    requires multiset(a) == multiset(b) && DistinctIds(a)
    ensures DistinctIds(b)
  {
    forall i, j | 0 <= i < j < |b| ensures Id(b[i]) != Id(b[j]) {
      if Id(b[i]) == Id(b[j]) {
        var m := Origin(a, b, i);
        var n := Origin(a, b, j);
        assert m == n;
        CountTwo(b, i, j);
        CountOne(a, m);
        assert false;
      }
    }
  }

  /** The result is sorted by (priority, address). */
  lemma AggregatedSorted(results: seq<seq<ProxyNode>>)
    ensures Sorted(Aggregated(results), NodeLe)
  {
    NodeLeTotalPreorder();
    var d := AbsorbAll(Empty(), Flatten(results), Id);
    SortSorted(Listed(d.order, d.table), NodeLe);
  }

  /** The result holds at most one node per identity. */
  lemma AggregatedDistinct(results: seq<seq<ProxyNode>>)
    ensures DistinctIds(Aggregated(results))
  {
    var d := AbsorbAll(Empty(), Flatten(results), Id);
    MergeSpec(Flatten(results), Id);
    ListedIds(d);
    SortPermutes(Listed(d.order, d.table), NodeLe);
    PermutationDistinctIds(Listed(d.order, d.table), Aggregated(results));
  }

  /** Every node of the result is an eligible input node whose priority
      number is the lowest among the eligible input nodes of its identity. */
  lemma AggregatedSound(results: seq<seq<ProxyNode>>)
    ensures var out := Aggregated(results);
      var s := Flatten(results);
      && (forall i :: 0 <= i < |out| ==> out[i] in s && Eligible(out[i]))
      && (forall i, j :: 0 <= i < |out| && 0 <= j < |s| && Matches(s[j], Id(out[i]), Id) ==>
            out[i].priority <= s[j].priority)
  {
    var s := Flatten(results);
    var d := AbsorbAll(Empty(), s, Id);
    var listed := Listed(d.order, d.table);
    var out := Aggregated(results);
    MergeSound(s);
    ListedIds(d);
    SortPermutes(listed, NodeLe);
    forall i | 0 <= i < |out|
      ensures out[i] in s && Eligible(out[i])
      ensures forall j :: 0 <= j < |s| && Matches(s[j], Id(out[i]), Id) ==> out[i].priority <= s[j].priority
    {
      var m := Origin(listed, out, i);
      var k := d.order[m];
      assert k in d.table && out[i] == d.table[k];
    }
  }

  /** Each stored node is an eligible node of the input with the lowest
      priority number of its identity. */
  lemma MergeSound(s: seq<ProxyNode>)
    ensures var d := AbsorbAll(Empty(), s, Id);
      && Wf(d, Id)
      && forall k :: k in d.table ==> (
        && d.table[k] in s && Eligible(d.table[k])
        && forall j :: 0 <= j < |s| && Matches(s[j], k, Id) ==> d.table[k].priority <= s[j].priority)
  {
    var d := AbsorbAll(Empty(), s, Id);
    MergeSpec(s, Id);
    forall k | k in d.table
      ensures d.table[k] in s && Eligible(d.table[k])
      ensures forall j :: 0 <= j < |s| && Matches(s[j], k, Id) ==> d.table[k].priority <= s[j].priority
    {
      StoredSound(s, d, k);
    }
  }

  /** A stored node is an eligible node of `s` with the lowest priority
      number of its identity. */
  lemma StoredSound(s: seq<ProxyNode>, d: Dedup<Identity>, k: Identity)
    requires Wf(d, Id) && MinimalOf(d, s, Id) && FirstWinsOf(d, s, Id) && k in d.table
    ensures d.table[k] in s && Eligible(d.table[k]) && Id(d.table[k]) == k
    ensures forall j :: 0 <= j < |s| && Matches(s[j], k, Id) ==> d.table[k].priority <= s[j].priority
  {
    var j :| 0 <= j < |s| && s[j] == d.table[k] &&
      forall i :: 0 <= i < j && Matches(s[i], k, Id) ==> s[i].priority > s[j].priority;
  }

  /** Every identity offered by an eligible input node is in the result. */
  lemma AggregatedComplete(results: seq<seq<ProxyNode>>)
    ensures var out := Aggregated(results);
      var s := Flatten(results);
      forall j :: 0 <= j < |s| && Eligible(s[j]) ==> exists i :: 0 <= i < |out| && Id(out[i]) == Id(s[j])
  {
    var s := Flatten(results);
    var d := AbsorbAll(Empty(), s, Id);
    var listed := Listed(d.order, d.table);
    var out := Aggregated(results);
    MergeSpec(s, Id);
    ListedIds(d);
    SortPermutes(listed, NodeLe);
    forall j | 0 <= j < |s| && Eligible(s[j])
      ensures exists i :: 0 <= i < |out| && Id(out[i]) == Id(s[j])
    {
      var i := Offered(s, d, out, j);
    }
  }

  lemma Offered(s: seq<ProxyNode>, d: Dedup<Identity>, out: seq<ProxyNode>, j: int) returns (i: int)
    requires Wf(d, Id) && KeysOf(d, s, Id)
    requires multiset(out) == multiset(Listed(d.order, d.table))
    requires 0 <= j < |s| && Eligible(s[j])
    ensures 0 <= i < |out| && Id(out[i]) == Id(s[j])
  {
    var k := Id(s[j]);
    assert First(s, k, Id) <= j;
    assert k in d.order;
    var m :| 0 <= m < |d.order| && d.order[m] == k;
    ListedIds(d);
    i := Origin(out, Listed(d.order, d.table), m);
  }

  /** Stability of the final sort: nodes that tie on (priority, address)
      come out in the order of their identities' first arrival. */
  lemma AggregatedStable(results: seq<seq<ProxyNode>>, c: ProxyNode)
    ensures var d := AbsorbAll(Empty(), Flatten(results), Id);
      Peers(Aggregated(results), NodeLe, c) == Peers(Listed(d.order, d.table), NodeLe, c)
  {
    NodeLeTotalPreorder();
    var d := AbsorbAll(Empty(), Flatten(results), Id);
    SortStable(Listed(d.order, d.table), NodeLe, c);
  }

  /** Two eligible nodes of different identities both reach the result, as
      they should for a key that identifies a node; `KeyString` above does
      not (see `KeyStringCollides`). */
  lemma DistinctIdentitiesKept(results: seq<seq<ProxyNode>>, a: ProxyNode, b: ProxyNode)
    requires a in Flatten(results) && b in Flatten(results)
    requires Eligible(a) && Eligible(b) && Id(a) != Id(b)
    ensures exists i, j :: (0 <= i < |Aggregated(results)| && 0 <= j < |Aggregated(results)| &&
      i != j && Id(Aggregated(results)[i]) == Id(a) && Id(Aggregated(results)[j]) == Id(b))
  {
    AggregatedDistinct(results);
    AggregatedComplete(results);
  }

  /** The same two nodes merged by the key string: they share a key, so only
      the first survives. */
  lemma KeyStringMergeLosesNode()
    ensures var a := ProxyNode("trojan", "::1", 443, "443:pw");
            var b := ProxyNode("trojan", "::1:443", 443, "pw");
            |AbsorbAll(Empty(), [a, b], KeyString).table| == 1 &&
            |AbsorbAll(Empty(), [a, b], Id).table| == 2
  {
    var a := ProxyNode("trojan", "::1", 443, "443:pw");
    var b := ProxyNode("trojan", "::1:443", 443, "pw");
    KeyStringCollides();
    assert [a, b][..1] == [a];
    assert [a][..0] == [];
    var e: Dedup<string> := Empty();
    assert AbsorbAll(Empty(), [a], KeyString) == Absorb(e, a, KeyString);
    var e2: Dedup<Identity> := Empty();
    assert AbsorbAll(Empty(), [a], Id) == Absorb(e2, a, Id);
    assert AbsorbAll(Empty(), [a, b], Id).table == map[Id(a) := a, Id(b) := b];
  }

  /** The aggregator: the insertion-ordered dictionary from node identity to
      the node kept for it. */
  class NodeAggregator {
    var order: seq<Identity>
    var table: map<Identity, ProxyNode>

    ghost predicate Valid()
      reads this
    {
      Wf(Dedup(order, table), Id)
    }

    constructor()
      ensures order == [] && table == map[]
      ensures Valid()
    {
      order := [];
      table := map[];
    }

    /** `aggregate` after the sources are fetched: `results` holds each
        enabled source's nodes, in source order. Merges them into the
        dictionary and returns its nodes sorted by (priority, address). */
    method Aggregate(results: seq<seq<ProxyNode>>) returns (all: seq<ProxyNode>)
      requires Valid()
      modifies this
      ensures Valid()
      ensures Dedup(order, table) == AbsorbAll(old(Dedup(order, table)), Flatten(results), Id)
      ensures all == Sort(Listed(order, table), NodeLe)
    {
      ghost var d0 := Dedup(order, table);
      assert results[..0] == [];
      var i := 0;
      while i < |results|
        invariant 0 <= i <= |results|
        invariant Dedup(order, table) == AbsorbAll(d0, Flatten(results[..i]), Id)
      {
        var sourceNodes := results[i];
        var j := 0;
        assert Flatten(results[..i]) + sourceNodes[..0] == Flatten(results[..i]);
        while j < |sourceNodes|
          invariant 0 <= j <= |sourceNodes|
          invariant Dedup(order, table) == AbsorbAll(d0, Flatten(results[..i]) + sourceNodes[..j], Id)
        {
          var node := sourceNodes[j];
          AbsorbAllSnoc(d0, Flatten(results[..i]) + sourceNodes[..j], node, Id);
          assert sourceNodes[..j + 1] == sourceNodes[..j] + [node];
          assert Flatten(results[..i]) + sourceNodes[..j + 1] == (Flatten(results[..i]) + sourceNodes[..j]) + [node];
          if node.address != "" && node.port != 0 {
            var uid := Id(node);
            if uid !in table || node.priority < table[uid].priority {
              if uid !in table {
                order := order + [uid];
              }
              table := table[uid := node];
            }
          }
          j := j + 1;
        }
        assert results[..i + 1][..i] == results[..i];
        assert sourceNodes[..j] == sourceNodes;
        i := i + 1;
      }
      assert results[..i] == results;
      AbsorbAllWf(d0, Flatten(results), Id);
      all := Sort(Listed(order, table), NodeLe);
    }
  }
}
