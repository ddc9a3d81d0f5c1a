/** The three output formats of the subscription merger: the sing-box
    outbounds, the Clash proxies and groups, and the base64 subscription.
    Each generator walks the first `maxNodes` nodes with their positions,
    skips the nodes its encoder refuses, and makes every emitted name unique
    by appending "-" and the node's position. */
module Generators {
  import opened Optional
  import opened Text
  import opened PyStd
  import opened ProxyNodes
  import opened Encoders
  import Base64
  import Utf8

  /** The length a sing-box tag is cut to before its index is appended. */
  const TagLimit := 50

  /** `f"{base}-{i}"`: the result ends with a digit. */
  function Indexed(base: string, i: nat): (r: string)
    ensures |r| == |base| + 1 + |IntToString(i)| && r[..|base|] == base
    ensures IsDigit(r[|r| - 1])
  {
    base + "-" + IntToString(i)
  }

  /** Whatever the bases hold, names with different indices differ. */
  lemma IndexedInjective(b1: string, i1: nat, b2: string, i2: nat)
    requires Indexed(b1, i1) == Indexed(b2, i2)
    ensures i1 == i2
  {
    RPartitionAt(b1, '-', IntToString(i1));
    RPartitionAt(b2, '-', IntToString(i2));
    assert b1 + "-" + IntToString(i1) == b1 + ['-'] + IntToString(i1);
    assert b2 + "-" + IntToString(i2) == b2 + ['-'] + IntToString(i2);
    IntToStringInjective(i1, i2);
  }

  /** The fixed names of a configuration end in a letter, and so differ from
      every generated name. */
  predicate LetterEnd(name: string) {
    name != [] && ('a' <= name[|name| - 1] <= 'z' || 'A' <= name[|name| - 1] <= 'Z')
  }

  predicate DigitEnd(name: string) {
    name != [] && IsDigit(name[|name| - 1])
  }

  predicate Distinct<T(==)>(s: seq<T>) {
    forall j, k :: 0 <= j < k < |s| ==> s[j] != s[k]
  }

  /** The positions of the nodes the encoders accept (every vmess, vless,
      trojan and ss node). */
  function Accepted(nodes: seq<ProxyNode>): (r: seq<nat>)
    ensures |r| <= |nodes|
    ensures forall j :: 0 <= j < |r| ==> r[j] < |nodes| && Encodable(nodes[r[j]].protocol)
    ensures forall j, k :: 0 <= j < k < |r| ==> r[j] < r[k]
  {
    if nodes == [] then []
    else
      var k := |nodes| - 1;
      var before := Accepted(nodes[..k]);
      assert forall j :: 0 <= j < |before| ==> nodes[..k][before[j]] == nodes[before[j]];
      before + (if Encodable(nodes[k].protocol) then [k] else [])
  }

  lemma AcceptedStep(nodes: seq<ProxyNode>, i: nat)
    requires i < |nodes|
    ensures Accepted(nodes[..i + 1]) == Accepted(nodes[..i]) + (if Encodable(nodes[i].protocol) then [i] else [])
  {
    assert nodes[..i + 1][..i] == nodes[..i];
  }

  /** "⭐" for nodes from the BPB panel, "🌐" for the others. */
  function TagPrefix(n: ProxyNode): string {
    if n.source == "bpb" then "\U{2B50}" else "\U{1F310}"
  }

  /** The sing-box tag of the node at position `i`: prefix and display
      name cut to 50 characters, then "-" and the position. */
  function SingboxTag(n: ProxyNode, i: nat): (r: string)
    ensures 0 < |r| <= TagLimit + 1 + |IntToString(i)|
    ensures r[0] == TagPrefix(n)[0]
    ensures var full := TagPrefix(n) + " " + DisplayName(n);
      && (|full| <= TagLimit ==> r == full + "-" + IntToString(i))
      && (|full| > TagLimit ==> r == full[..TagLimit] + "-" + IntToString(i))
  {
    Indexed(SliceTo(TagPrefix(n) + " " + DisplayName(n), TagLimit), i)
  }

  /** The outbound with its null-valued keys removed. */
  function DropNulls(d: Dict): (r: Dict)
    ensures forall k :: k in r <==> k in d && d[k] != JNull
    ensures forall k :: k in r ==> r[k] == d[k]
  {
    map k | k in d && d[k] != JNull :: d[k]
  }

  /** The outbound emitted for the node at position `i`, if any. */
  function EmittedOutbound(n: ProxyNode, i: nat): (r: Option<Dict>)
    ensures r.Some? <==> Encodable(n.protocol)
  {
    var o := SingboxOutbound(n, SingboxTag(n, i));
    if o.Some? then Some(DropNulls(o.value)) else None
  }

  /** The node outbounds of the sing-box configuration. */
  function SingboxOutbounds(nodes: seq<ProxyNode>): (r: seq<Dict>)
    ensures |r| <= |nodes|
  {
    if nodes == [] then []
    else
      var k := |nodes| - 1;
      var o := EmittedOutbound(nodes[k], k);
      SingboxOutbounds(nodes[..k]) + (if o.Some? then [o.value] else [])
  }

  /** The tags of the node outbounds, in the same order. */
  function SingboxTags(nodes: seq<ProxyNode>): (r: seq<string>)
    ensures |r| <= |nodes|
  {
    if nodes == [] then []
    else
      var k := |nodes| - 1;
      SingboxTags(nodes[..k]) + (if Encodable(nodes[k].protocol) then [SingboxTag(nodes[k], k)] else [])
  }

  lemma SingboxStep(nodes: seq<ProxyNode>, i: nat)
    requires i < |nodes|
    ensures var o := EmittedOutbound(nodes[i], i);
      SingboxOutbounds(nodes[..i + 1]) == SingboxOutbounds(nodes[..i]) + (if o.Some? then [o.value] else [])
  {
    assert nodes[..i + 1][..i] == nodes[..i];
  }

  lemma SingboxTagsStep(nodes: seq<ProxyNode>, i: nat)
    requires i < |nodes|
    ensures SingboxTags(nodes[..i + 1]) ==
      SingboxTags(nodes[..i]) + (if Encodable(nodes[i].protocol) then [SingboxTag(nodes[i], i)] else [])
  {
    assert nodes[..i + 1][..i] == nodes[..i];
  }

  /** The outbound emitted for a node carries the node's tag and no null. */
  lemma EmittedOutboundTagged(n: ProxyNode, i: nat)
    requires Encodable(n.protocol)
    ensures var o := EmittedOutbound(n, i).value;
      Has(o, "tag", JStr(SingboxTag(n, i))) && forall k :: k in o ==> o[k] != JNull
  {
  }

  /** Each node outbound carries its tag. */
  lemma {:induction false} SingboxOutboundsTagged(nodes: seq<ProxyNode>)
    ensures var (os, tags) := (SingboxOutbounds(nodes), SingboxTags(nodes));
      && |os| == |tags|
      && (forall j :: 0 <= j < |os| ==> Has(os[j], "tag", JStr(tags[j])))
  {
    if nodes != [] {
      var k := |nodes| - 1;
      SingboxOutboundsTagged(nodes[..k]);
      SingboxStep(nodes, k);
      SingboxTagsStep(nodes, k);
      assert nodes[..k + 1] == nodes;
      if Encodable(nodes[k].protocol) {
        EmittedOutboundTagged(nodes[k], k);
      }
    }
  }

  /** No outbound in the list holds a null. */
  predicate NullFree(os: seq<Dict>) {
    forall j, key :: 0 <= j < |os| && key in os[j] ==> os[j][key] != JNull
  }

  lemma NullFreeAppend(a: seq<Dict>, b: seq<Dict>)
    requires NullFree(a) && NullFree(b)
    ensures NullFree(a + b)
  {
    forall j, key | 0 <= j < |a + b| && key in (a + b)[j] ensures (a + b)[j][key] != JNull {
      if j >= |a| {
        assert (a + b)[j] == b[j - |a|];
      }
    }
  }

  /** No node outbound holds a null: `None` values are dropped. */
  lemma {:induction false} SingboxOutboundsNoNull(nodes: seq<ProxyNode>)
    ensures NullFree(SingboxOutbounds(nodes))
  {
    if nodes != [] {
      var k := |nodes| - 1;
      SingboxOutboundsNoNull(nodes[..k]);
      SingboxStep(nodes, k);
      assert nodes[..k + 1] == nodes;
      var o := EmittedOutbound(nodes[k], k);
      if o.Some? {
        EmittedOutboundTagged(nodes[k], k);
      }
      NullFreeAppend(SingboxOutbounds(nodes[..k]), if o.Some? then [o.value] else []);
    }
  }

  /** The `j`-th tag is that of the `j`-th accepted node. */
  lemma {:induction false} SingboxTagsAt(nodes: seq<ProxyNode>)
    ensures var (tags, pos) := (SingboxTags(nodes), Accepted(nodes));
      |tags| == |pos| && forall j :: 0 <= j < |tags| ==> tags[j] == SingboxTag(nodes[pos[j]], pos[j])
  {
    if nodes != [] {
      var k := |nodes| - 1;
      SingboxTagsAt(nodes[..k]);
      SingboxTagsStep(nodes, k);
      AcceptedStep(nodes, k);
      assert nodes[..k + 1] == nodes;
      var pos := Accepted(nodes[..k]);
      assert forall j :: 0 <= j < |pos| ==> nodes[..k][pos[j]] == nodes[pos[j]];
    }
  }

  /** Tags of nodes at different positions differ, whatever their names. */
  lemma SingboxTagsDistinct(nodes: seq<ProxyNode>)
    ensures Distinct(SingboxTags(nodes))
    ensures forall t :: t in SingboxTags(nodes) ==> DigitEnd(t)
  {
    var tags, pos := SingboxTags(nodes), Accepted(nodes);
    SingboxTagsAt(nodes);
    forall j, k | 0 <= j < k < |tags| ensures tags[j] != tags[k] {
      if tags[j] == tags[k] {
        var n1, n2 := nodes[pos[j]], nodes[pos[k]];
        IndexedInjective(SliceTo(TagPrefix(n1) + " " + DisplayName(n1), TagLimit), pos[j],
          SliceTo(TagPrefix(n2) + " " + DisplayName(n2), TagLimit), pos[k]);
      }
    }
  }

  function Strs(names: seq<string>): (r: seq<Json>)
    ensures |r| == |names| && forall j :: 0 <= j < |r| ==> r[j] == JStr(names[j])
  {
    seq(|names|, j requires 0 <= j < |names| => JStr(names[j]))
  }

  /** The `outbounds` list of the sing-box configuration: a selector over
      "auto" and every node, a URL test over every node, the node outbounds,
      then the direct, block and DNS outbounds. */
  function SingboxOutboundList(outbounds: seq<Dict>, tags: seq<string>): seq<Dict> {
    [ map["type" := JStr("selector")]["tag" := JStr("proxy")]
         ["outbounds" := JArr(Strs(["auto"] + tags))]["default" := JStr("auto")],
      map["type" := JStr("urltest")]["tag" := JStr("auto")]["outbounds" := JArr(Strs(tags))]
         ["url" := JStr("https://www.gstatic.com/generate_204")]["interval" := JStr("5m")] ]
    + outbounds
    + [ map["type" := JStr("direct")]["tag" := JStr("direct")],
        map["type" := JStr("block")]["tag" := JStr("block")],
        map["type" := JStr("dns")]["tag" := JStr("dns-out")] ]
  }

  /** The tag of an outbound, if it has one. */
  function TagOf(d: Dict): Option<string> {
    if "tag" in d && d["tag"].JStr? then Some(d["tag"].s) else None
  }

  /** Distinct generated names set among distinct fixed names are all
      distinct. */
  lemma AmongFixed(before: seq<string>, names: seq<string>, after: seq<string>)
    requires Distinct(names) && Distinct(before + after)
    requires forall t :: t in names ==> DigitEnd(t)
    requires forall t :: t in before + after ==> LetterEnd(t)
    ensures Distinct(before + names + after)
  {
    var all, fixed := before + names + after, before + after;
    var n, m := |before|, |before| + |names|;
    assert forall x :: n <= x < m ==> all[x] == names[x - n];
    assert forall x :: 0 <= x < n ==> all[x] == fixed[x];
    assert forall x :: m <= x < |all| ==> all[x] == fixed[x - |names|];
    forall j, k | 0 <= j < k < |all| ensures all[j] != all[k] {
      if n <= j < m && n <= k < m {
      } else if n <= j < m || n <= k < m {
        var fixedOne, generated := if n <= j < m then k else j, if n <= j < m then j else k;
        assert all[fixedOne] in fixed && all[generated] in names;
      }
    }
  }

  /** The tags of the sing-box outbounds that are not nodes. */
  const SingboxGroupTags := ["proxy", "auto"]
  const SingboxBuiltinTags := ["direct", "block", "dns-out"]

  /** The fixed sing-box tags are distinct and end in a letter. */
  lemma SingboxFixedTags()
    ensures Distinct(SingboxGroupTags + SingboxBuiltinTags)
    ensures forall t :: t in SingboxGroupTags + SingboxBuiltinTags ==> LetterEnd(t)
  {
    assert SingboxGroupTags + SingboxBuiltinTags == ["proxy", "auto", "direct", "block", "dns-out"];
  }

  /** The tags of the list entries, in order. */
  lemma SingboxListTags(os: seq<Dict>, tags: seq<string>)
    requires |os| == |tags| && forall j :: 0 <= j < |os| ==> Has(os[j], "tag", JStr(tags[j]))
    ensures var (list, named) := (SingboxOutboundList(os, tags), SingboxGroupTags + tags + SingboxBuiltinTags);
      |list| == |named| && forall j :: 0 <= j < |list| ==> TagOf(list[j]) == Some(named[j])
  {
  }

  /** The `outbounds` list of a generated sing-box configuration: every entry
      has a tag, no two entries share one, and every member of the two groups
      names an entry. */
  lemma SingboxConfigConsistent(nodes: seq<ProxyNode>)
    ensures var tags := SingboxTags(nodes);
      var list := SingboxOutboundList(SingboxOutbounds(nodes), tags);
      && (forall j :: 0 <= j < |list| ==> TagOf(list[j]).Some?)
      && (forall j, k :: 0 <= j < k < |list| ==> TagOf(list[j]) != TagOf(list[k]))
      && (forall t :: t in ["auto"] + tags ==> exists j :: 0 <= j < |list| && TagOf(list[j]) == Some(t))
  {
    var os, tags := SingboxOutbounds(nodes), SingboxTags(nodes);
    var named := SingboxGroupTags + tags + SingboxBuiltinTags;
    SingboxOutboundsTagged(nodes);
    SingboxTagsDistinct(nodes);
    SingboxFixedTags();
    AmongFixed(SingboxGroupTags, tags, SingboxBuiltinTags);
    SingboxListTags(os, tags);
    TaggedList(SingboxOutboundList(os, tags), named);
    forall t | t in ["auto"] + tags ensures t in named {
      if t == "auto" {
        assert named[1] == t;
      } else {
        assert t in tags;
      }
    }
  }

  /** A list whose tags are distinct names: every entry has a tag, no two
      share one, and each name tags an entry. */
  lemma TaggedList(list: seq<Dict>, named: seq<string>)
    requires |list| == |named| && Distinct(named)
    requires forall j :: 0 <= j < |list| ==> TagOf(list[j]) == Some(named[j])
    ensures forall j, k :: 0 <= j < k < |list| ==> TagOf(list[j]) != TagOf(list[k])
    ensures forall t :: t in named ==> exists j :: 0 <= j < |list| && TagOf(list[j]) == Some(t)
  {
    forall t | t in named ensures exists j :: 0 <= j < |list| && TagOf(list[j]) == Some(t) {
      var j :| 0 <= j < |named| && named[j] == t;
      assert TagOf(list[j]) == Some(t);
    }
  }

  /** The Clash name of the node at position `i`: its display name, "-" and
      the position. */
  function ClashName(n: ProxyNode, i: nat): (r: string)
    ensures r == DisplayName(n) + "-" + IntToString(i)
  {
    Indexed(DisplayName(n), i)
  }

  /** The proxy emitted for the node at position `i`, if any: the node's
      Clash entry renamed. */
  function EmittedProxy(n: ProxyNode, i: nat): (r: Option<Dict>)
    ensures r.Some? <==> Encodable(n.protocol)
    ensures r.Some? ==> Has(r.value, "name", JStr(ClashName(n, i)))
    ensures r.Some? ==> forall k :: k != "name" ==> (k in r.value <==> k in ClashProxy(n).value)
  {
    var p := ClashProxy(n);
    if p.Some? then Some(p.value["name" := JStr(ClashName(n, i))]) else None
  }

  /** The `proxies` list of the Clash configuration. */
  function ClashProxies(nodes: seq<ProxyNode>): (r: seq<Dict>)
    ensures |r| <= |nodes|
  {
    if nodes == [] then []
    else
      var k := |nodes| - 1;
      var p := EmittedProxy(nodes[k], k);
      ClashProxies(nodes[..k]) + (if p.Some? then [p.value] else [])
  }

  /** The names of the Clash proxies, in the same order. */
  function ClashNames(nodes: seq<ProxyNode>): (r: seq<string>)
    ensures |r| <= |nodes|
  {
    if nodes == [] then []
    else
      var k := |nodes| - 1;
      ClashNames(nodes[..k]) + (if Encodable(nodes[k].protocol) then [ClashName(nodes[k], k)] else [])
  }

  lemma ClashStep(nodes: seq<ProxyNode>, i: nat)
    requires i < |nodes|
    ensures var p := EmittedProxy(nodes[i], i);
      ClashProxies(nodes[..i + 1]) == ClashProxies(nodes[..i]) + (if p.Some? then [p.value] else [])
    ensures ClashNames(nodes[..i + 1]) ==
      ClashNames(nodes[..i]) + (if Encodable(nodes[i].protocol) then [ClashName(nodes[i], i)] else [])
  {
    assert nodes[..i + 1][..i] == nodes[..i];
  }

  const ProxyGroup := "\U{1F680} Proxy"
  const AutoGroup := "\U{26A1} Auto"

  /** The `proxy-groups` of the Clash configuration: a selector over the URL
      test, every proxy and DIRECT, and a URL test over every proxy. */
  function ClashGroups(names: seq<string>): seq<Dict> {
    [ map["name" := JStr(ProxyGroup)]["type" := JStr("select")]
         ["proxies" := JArr(Strs([AutoGroup] + names + ["DIRECT"]))],
      map["name" := JStr(AutoGroup)]["type" := JStr("url-test")]["proxies" := JArr(Strs(names))]
         ["url" := JStr("https://www.gstatic.com/generate_204")]["interval" := JInt(300)] ]
  }

  /** Each proxy carries its name. */
  lemma {:induction false} ClashProxiesNamed(nodes: seq<ProxyNode>)
    ensures var (ps, names) := (ClashProxies(nodes), ClashNames(nodes));
      && |ps| == |names|
      && (forall j :: 0 <= j < |ps| ==> Has(ps[j], "name", JStr(names[j])))
  {
    if nodes != [] {
      var k := |nodes| - 1;
      ClashProxiesNamed(nodes[..k]);
      ClashStep(nodes, k);
      assert nodes[..k + 1] == nodes;
    }
  }

  /** The `j`-th name is that of the `j`-th accepted node. */
  lemma {:induction false} ClashNamesAt(nodes: seq<ProxyNode>)
    ensures var (names, pos) := (ClashNames(nodes), Accepted(nodes));
      |names| == |pos| && forall j :: 0 <= j < |names| ==> names[j] == ClashName(nodes[pos[j]], pos[j])
  {
    if nodes != [] {
      var k := |nodes| - 1;
      ClashNamesAt(nodes[..k]);
      ClashStep(nodes, k);
      AcceptedStep(nodes, k);
      assert nodes[..k + 1] == nodes;
      var pos := Accepted(nodes[..k]);
      assert forall j :: 0 <= j < |pos| ==> nodes[..k][pos[j]] == nodes[pos[j]];
    }
  }

  /** Names of nodes at different positions differ, even for nodes with the
      same display name. */
  lemma ClashNamesDistinct(nodes: seq<ProxyNode>)
    ensures Distinct(ClashNames(nodes))
    ensures forall t :: t in ClashNames(nodes) ==> DigitEnd(t)
  {
    var names, pos := ClashNames(nodes), Accepted(nodes);
    ClashNamesAt(nodes);
    forall j, k | 0 <= j < k < |names| ensures names[j] != names[k] {
      if names[j] == names[k] {
        IndexedInjective(DisplayName(nodes[pos[j]]), pos[j], DisplayName(nodes[pos[k]]), pos[k]);
      }
    }
  }

  /** The members a group lists. */
  function Members(g: Dict): seq<Json> {
    if "proxies" in g && g["proxies"].JArr? then g["proxies"].items else []
  }

  /** A generated Clash configuration: the proxy names are pairwise distinct
      and differ from the group names, and every member of a group is a
      proxy, a group or DIRECT. */
  lemma ClashConfigConsistent(nodes: seq<ProxyNode>)
    ensures var names := ClashNames(nodes);
      && Distinct([ProxyGroup, AutoGroup] + names + ["DIRECT"])
      && (forall g: Dict :: g in ClashGroups(names) ==> "proxies" in g && g["proxies"].JArr?)
      && (forall g: Dict, m: Json :: g in ClashGroups(names) && m in Members(g) ==>
            m.JStr? && (m.s in names || m.s in {ProxyGroup, AutoGroup, "DIRECT"}))
  {
    var names := ClashNames(nodes);
    ClashNamesDistinct(nodes);
    AmongFixed([ProxyGroup, AutoGroup], names, ["DIRECT"]);
    forall g, m | g in ClashGroups(names) && m in Members(g)
      ensures m.JStr? && (m.s in names || m.s in {ProxyGroup, AutoGroup, "DIRECT"})
    {
      ClashGroupMember(names, g, m);
    }
  }

  /** A member of a Clash group is a proxy name, a group or DIRECT. */
  lemma ClashGroupMember(names: seq<string>, g: Dict, m: Json)
    requires g in ClashGroups(names) && m in Members(g)
    ensures m.JStr? && (m.s in names || m.s in {ProxyGroup, AutoGroup, "DIRECT"})
  {
    var gs := ClashGroups(names);
    var all := [AutoGroup] + names + ["DIRECT"];
    if g == gs[0] {
      assert Members(g) == Strs(all);
      StrsMember(all, m);
    } else {
      assert Members(g) == Strs(names);
      StrsMember(names, m);
    }
  }

  /** Each member of a list of names is one of the names. */
  lemma StrsMember(names: seq<string>, m: Json)
    requires m in Strs(names)
    ensures m.JStr? && m.s in names
  {
    var j :| 0 <= j < |names| && Strs(names)[j] == m;
  }

  /** The share links of the nodes, those the encoder refuses left out. */
  function Uris(nodes: seq<ProxyNode>, lib: Stdlib): (r: seq<string>)
    ensures |r| <= |nodes|
  {
    if nodes == [] then []
    else
      var k := |nodes| - 1;
      var u := NodeToUri(nodes[k], lib);
      Uris(nodes[..k], lib) + (if u.Some? then [u.value] else [])
  }

  /** The base64 subscription of a list of links. */
  function Subscription(uris: seq<string>): string {
    Base64.Encode(Utf8.Encode(Join(uris, "\n")))
  }

  /** Decoding a subscription, as a client does: base64, UTF-8, then one link
      per line. */
  function SubscriptionLinks(content: string): Option<seq<string>> {
    var bytes := Base64.DecodePadded(content);
    if bytes.None? then None
    else
      var text := Utf8.Decode(bytes.value);
      if text.None? then None else Some(SplitAll(text.value, '\n'))
  }

  /** A subscription of links without line breaks decodes to those links. */
  lemma SubscriptionRoundTrip(uris: seq<string>)
    requires |uris| >= 1 && forall j :: 0 <= j < |uris| ==> '\n' !in uris[j]
    ensures SubscriptionLinks(Subscription(uris)) == Some(uris)
  {
    var text := Join(uris, "\n");
    Base64.DecodeEncode(Utf8.Encode(text));
    Utf8.DecodeEncode(text);
    SplitJoin(uris, '\n');
  }

  lemma UrisStep(nodes: seq<ProxyNode>, lib: Stdlib, i: nat)
    requires i < |nodes|
    ensures var u := NodeToUri(nodes[i], lib);
      Uris(nodes[..i + 1], lib) == Uris(nodes[..i], lib) + (if u.Some? then [u.value] else [])
  {
    assert nodes[..i + 1][..i] == nodes[..i];
  }

  /** `SubscriptionMerger`, reduced to the setting the generators read. */
  class SubscriptionMerger {
    const maxNodes: int

    constructor(maxNodes: int)
      ensures this.maxNodes == maxNodes
    {
      this.maxNodes := maxNodes;
    }

    /** `generate_singbox_config`: the configuration's `outbounds` list. */
    method GenerateSingboxConfig(nodes: seq<ProxyNode>) returns (outbounds: seq<Dict>)
      ensures var selected := SliceTo(nodes, maxNodes);
        outbounds == SingboxOutboundList(SingboxOutbounds(selected), SingboxTags(selected))
    {
      var selected := SliceTo(nodes, maxNodes);
      var emitted: seq<Dict> := [];
      var tags: seq<string> := [];
      var i := 0;
      while i < |selected|
        invariant 0 <= i <= |selected|
        invariant emitted == SingboxOutbounds(selected[..i])
        invariant tags == SingboxTags(selected[..i])
      {
        var node := selected[i];
        var tag := SingboxTag(node, i);
        var outbound := SingboxOutbound(node, tag);
        SingboxStep(selected, i);
        SingboxTagsStep(selected, i);
        if outbound.Some? {
          emitted := emitted + [DropNulls(outbound.value)];
          tags := tags + [tag];
        }
        i := i + 1;
      }
      assert selected[..i] == selected;
      outbounds := SingboxOutboundList(emitted, tags);
    }

    /** `generate_clash_config`: the configuration's `proxies` and
        `proxy-groups`. */
    method GenerateClashConfig(nodes: seq<ProxyNode>) returns (proxies: seq<Dict>, groups: seq<Dict>)
      ensures var selected := SliceTo(nodes, maxNodes);
        proxies == ClashProxies(selected) && groups == ClashGroups(ClashNames(selected))
    {
      var selected := SliceTo(nodes, maxNodes);
      proxies := [];
      var names: seq<string> := [];
      var i := 0;
      while i < |selected|
        invariant 0 <= i <= |selected|
        invariant proxies == ClashProxies(selected[..i])
        invariant names == ClashNames(selected[..i])
      {
        var proxy := ClashProxy(selected[i]);
        ClashStep(selected, i);
        if proxy.Some? {
          var name := Indexed(DisplayName(selected[i]), i);
          proxies := proxies + [proxy.value["name" := JStr(name)]];
          names := names + [name];
        }
        i := i + 1;
      }
      assert selected[..i] == selected;
      groups := ClashGroups(names);
    }

    /** `generate_base64`. */
    method GenerateBase64(nodes: seq<ProxyNode>, lib: Stdlib) returns (content: string)
      ensures content == Subscription(Uris(SliceTo(nodes, maxNodes), lib))
    {
      var selected := SliceTo(nodes, maxNodes);
      var uris: seq<string> := [];
      var i := 0;
      while i < |selected|
        invariant 0 <= i <= |selected|
        invariant uris == Uris(selected[..i], lib)
      {
        var uri := NodeToUri(selected[i], lib);
        UrisStep(selected, lib, i);
        if uri.Some? {
          uris := uris + [uri.value];
        }
        i := i + 1;
      }
      assert selected[..i] == selected;
      content := Base64.Encode(Utf8.Encode(Join(uris, "\n")));
    }
  }
}
