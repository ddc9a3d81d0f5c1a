# Proxy subscription pipeline — a verified model

This project models the decision logic of a three-stage batch pipeline for
proxy subscriptions:

1. **Aggregation** (`scripts/aggregate.py`). Share links (`vmess://`,
   `vless://`, `trojan://`, `ss://`, `ssr://`) and Clash YAML `proxies`
   entries are decoded into `ProxyNode` records. The nodes of all sources are
   merged into a table keyed by node identity, where a stored node is replaced
   only by one with a strictly lower priority number. The survivors are
   sorted by `(priority, address)`.
2. **Probing** (`scripts/test_nodes.py`). Each node is checked stage by stage:
   endpoint, DNS, TCP, TLS and the IP-reputation lookup. The checker keeps a
   per-IP memo cache and computes a trust score from hosting, ASN and country.
   A node is "China friendly" when TCP succeeds, the latency is below 500 ms,
   the score is at least 30 and the country is not CN. `test_all` keeps the
   friendly nodes, sorted by latency.
3. **Re-encoding** (`scripts/merge_subs.py`). Nodes are mapped to sing-box
   outbounds, Clash proxies and share links. The three generators take the
   first `max_nodes` nodes and make tags and names unique with an index
   suffix.

Layout, one module per file under `src/`:

- `Optional`, `Text`, `Utf8`, `Base64`, `PyStd`, `UrlParse`: the parts of
  Python's library that the pipeline relies on. The following are modelled
  concretely:
  - `str.strip`, `partition`, `split` and `replace`;
  - `str()` on integers, and `int()` on ASCII decimal text;
  - CPython's lenient base64 decoder, and the base64 encoder with the
    alphabet of section 4 of RFC 4648;
  - strict UTF-8;
  - `urlsplit` as CPython 3.12.0 to 3.12.8 define it, with its `hostname`, `port` and
    `username`. It includes the bracketed-host check, which accepts an
    IPvFuture literal or an IPv6 address and raises otherwise;
  - `parse_qs` and `quote`.

  `json.loads`, `json.dumps`, `yaml.safe_load`, `unquote` and
  `ipaddress.ip_address` are fields of a
  `Stdlib` record passed as a parameter. Where a lemma needs their behaviour
  it says so in its `requires`:
  - `JsonLaw`: loads inverts dumps on flat string objects;
  - `UnquoteLaw`: unquote inverts quote.
- `ProxyNodes`: the node record and its identity.
- `NodeParser`, `ClashParser`, `Sorting` and `Aggregator`: stage 1.
  `NodeAggregator` is a class whose dictionary fields the merge updates in
  place.
- `IpChecks` and `NodeTests`: stage 2.
  - `IpChecker` is a class holding the cache.
  - `NodeTester` holds the checker.
  - DNS, TCP, TLS and the HTTP lookup enter as a `Probe` record.
- `Encoders` and `Generators`: stage 3. `SubscriptionMerger` is a class
  carrying `maxNodes`.
- `RoundTrips`: decoding what the encoders write gives back the node.

## Model

| member | source | states |
|---|---|---|
| ProxyNodes.Id | scripts/aggregate.py:35-39 | the identity is exactly (protocol, address, port, secret) of the node |
| ProxyNodes.SameId | scripts/aggregate.py:35-39 | two nodes have the same identity iff they agree on protocol, address, port and secret, whatever their name, transport, TLS, source or priority |
| ProxyNodes.KeyStringOfId | scripts/aggregate.py:35-39 | the source's `protocol:address:port:secret` key is a function of the identity |
| ProxyNodes.KeyStringCollides | scripts/aggregate.py:35-39 | two trojan nodes with different identities share one key string |
| NodeParser.ParseVmess | scripts/aggregate.py:46-70 | a body (every "vmess://" removed) that fails base64 or UTF-8 gives None, and so does decoded text that `json.loads` does not read as an object; a result is a vmess node with empty source and priority 99 |
| NodeParser.VmessFromConfig | scripts/aggregate.py:57-68 | tls holds iff the "tls" field is "tls"; port defaults to 443 and network to "tcp"; a port that int() rejects gives None |
| Base64.Repad | scripts/aggregate.py:51-53 | the padded body is the input followed by the fewest "=" that make its length a multiple of 4, and is unchanged when it already is |
| Base64.DecodeEncode | scripts/aggregate.py:51-54 | the decoder, with or without re-padding, inverts the encoder on every byte string |
| NodeParser.PortOr443 | scripts/aggregate.py:85 | a missing port or port 0 gives 443, an invalid port gives None, and any result is in 1..65535 |
| NodeParser.ParseVless | scripts/aggregate.py:73-95 | a result is a vless node with port in 1..65535; tls holds iff `security` is "tls" or "reality"; without `type` the network is "tcp" |
| NodeParser.ParseTrojan | scripts/aggregate.py:98-118 | a result is a trojan node with tls always on, port in 1..65535, and network "tcp" without `type` |
| UrlParse.SplitRejectsBracketed | scripts/aggregate.py:76-95 | `urlparse` raises on a link whose bracketed host is neither an IPv6 address nor an IPvFuture literal, so `parse_vless` and `parse_trojan` return None for it |
| NodeParser.VlessEndpoint | scripts/aggregate.py:84-86 | a link that splits and has an acceptable port gives a node whose address is the hostname (or ""), port the parsed port (443 when absent or 0) and UUID the username (or "") |
| NodeParser.TrojanEndpoint | scripts/aggregate.py:107-109 | the same for trojan: address from the hostname, port from the netloc (443 by default), password from the username |
| NodeParser.SsCredentials | scripts/aggregate.py:133-144 | user info that decodes to text with ':' splits at its first ':'; otherwise method is the re-padded user info and password is "" |
| NodeParser.SsServer | scripts/aggregate.py:145-148 | the server part splits at its last ':'; without one the port text is "443" |
| NodeParser.SsLegacy | scripts/aggregate.py:149-157 | a result's four fields rebuild the decoded body as `method:password@server:port` |
| NodeParser.ParseSs | scripts/aggregate.py:121-168 | a result is an ss node, tcp, without TLS, whose secret always contains ':'; without '#' the name is "" |
| NodeParser.ParseSsr | scripts/aggregate.py:171-202 | there is a result iff the body decodes, its text before "/?" has at least 6 ':'-fields, field 1 is an integer and field 5 decodes; address is field 0, port is int(field 1), the secret decodes field 5 |
| NodeParser.ParseLine | scripts/aggregate.py:205-222 | a result's protocol is the scheme the stripped line starts with; a line without a known scheme (an empty one included) gives None |
| NodeParser.SchemesExclusive | scripts/aggregate.py:211-220 | no stripped line starts with two of the five scheme prefixes |
| NodeParser.LineIsSs | scripts/aggregate.py:217-218 | a stripped line starting with "ss://" goes to the ss parser and no other |
| NodeParser.LineIsVmess | scripts/aggregate.py:211-212 | a stripped line starting with "vmess://" goes to the vmess parser |
| NodeParser.LineIsVless | scripts/aggregate.py:213-214 | a stripped line starting with "vless://" goes to the vless parser |
| NodeParser.LineIsTrojan | scripts/aggregate.py:215-216 | a stripped line starting with "trojan://" goes to the trojan parser |
| NodeParser.LineIsSsr | scripts/aggregate.py:219-220 | a stripped line starting with "ssr://" goes to the ssr parser |
| ClashParser.ClashEntry | scripts/aggregate.py:236-287 | an entry whose lower-cased type is not vmess, vless, trojan or ss is skipped, and only such an entry is; an appended node has that type; trojan always has tls; the ss secret is cipher + ":" + password |
| ClashParser.Collect | scripts/aggregate.py:229-292 | at most one node per entry, each of a Clash-supported protocol |
| ClashParser.Parse | scripts/aggregate.py:229-292 | the loop returns the nodes of the entries up to the first that raises |
| ClashParser.CollectSkips | scripts/aggregate.py:236-238 | removing a skipped entry does not change the result |
| ClashParser.CollectAppend | scripts/aggregate.py:233-290 | over entries that do not raise, parsing distributes over concatenation |
| Aggregator.MergeSpec | scripts/aggregate.py:365-371 | after the merge loop each identity of an eligible input node has one entry; it holds that identity's lowest priority, the first such node seen, and keys are in first-seen order |
| Aggregator.AggregatedSorted | scripts/aggregate.py:373-375 | the result is sorted by (priority, address) |
| Aggregator.AggregatedDistinct | scripts/aggregate.py:365-375 | no two result nodes share an identity |
| Aggregator.AggregatedSound | scripts/aggregate.py:365-375 | every result node is an eligible input node (non-empty address, port not 0) with the lowest priority among the input nodes of its identity |
| Aggregator.AggregatedComplete | scripts/aggregate.py:365-375 | every eligible input node's identity appears in the result |
| Aggregator.AggregatedStable | scripts/aggregate.py:373-375 | nodes equal under the sort key keep their table order |
| Aggregator.DistinctIdentitiesKept | scripts/aggregate.py:365-375 | two eligible input nodes with different identities both survive, at different positions |
| Aggregator.KeyStringMergeLosesNode | scripts/aggregate.py:368-371 | merging by the key string keeps one node where merging by identity keeps two |
| Aggregator.NodeAggregator.Aggregate | scripts/aggregate.py:365-375 | the table becomes the merge loop run over all sources from its old state, and the result is the table's values sorted by (priority, address) |
| Encoders.DisplayName | scripts/merge_subs.py:152 | the name, or `address:port` when the name is empty; never empty |
| Encoders.SplitSecret | scripts/merge_subs.py:110-119 | the method is the text before the first ':' and the password the text after it; without a ':' the method is the whole secret and the password "" |
| Encoders.Transport | scripts/merge_subs.py:123-139 | None unless ws or grpc; ws has the path and a Host header only for a non-empty host; grpc has service_name = path |
| Encoders.ServerName | scripts/merge_subs.py:141-147 | the first non-empty of sni, host, address |
| Encoders.Tls | scripts/merge_subs.py:141-147 | the TLS object has enabled and insecure true and that server name |
| Encoders.SingboxOutbound | scripts/merge_subs.py:69-121 | None exactly for protocols other than vmess, vless, trojan, ss; tag, server and port are copied; vmess and vless carry the uuid, the transport and TLS only when tls is on |
| Encoders.OutboundKeepsIdentity | scripts/merge_subs.py:69-121 | the outbound's type, server, port and uuid/password/method give back the node's identity (for ss, when the secret has ':') |
| Encoders.OutboundLosesColonlessSecret | scripts/merge_subs.py:110-119 | an ss secret without ':' comes back with a ':' appended |
| Encoders.ClashBase | scripts/merge_subs.py:152-160 | every Clash proxy starts with the display name, type, server and port |
| Encoders.ClashStreamProxy | scripts/merge_subs.py:165-200 | ws fields appear only for ws, TLS fields only when tls is on; other fields are kept |
| Encoders.ClashVmess | scripts/merge_subs.py:154-178 | uuid, alterId 0, cipher auto; with tls the servername is sni, else host |
| Encoders.ClashVless | scripts/merge_subs.py:180-202 | uuid; with tls the servername is the sni |
| Encoders.ClashProxy | scripts/merge_subs.py:149-226 | None exactly for protocols other than vmess, vless, trojan, ss |
| Encoders.ClashProxyFields | scripts/merge_subs.py:149-226 | the fields each protocol's Clash proxy carries, with TLS and ws fields present iff tls and ws; trojan always skips certificate checks |
| Encoders.VlessParams | scripts/merge_subs.py:251-261 | `type=` appears iff the network is non-empty and not "tcp", `security=tls` iff tls |
| Encoders.UriHost | scripts/merge_subs.py:250-276 | corrected encoder: an address containing ':' is bracketed, others are written as they are |
| Encoders.NodeToUriAsWritten | scripts/merge_subs.py:228-285 | the source's link encoder gives None exactly for protocols other than vmess, vless, trojan, ss |
| Encoders.NodeToUri | scripts/merge_subs.py:228-285 | the corrected link encoder gives None exactly for the same protocols |
| Encoders.BracketsOnlyIpv6 | scripts/merge_subs.py:250-276 | the corrected encoder differs from the source's only on addresses containing ':' |
| Generators.IndexedInjective | scripts/merge_subs.py:297 | two names ending in "-" + index are equal only when their indices are |
| Generators.SingboxTag | scripts/merge_subs.py:294-297 | the tag is `prefix name` cut to 50 characters, then "-" and the position |
| Generators.DropNulls | scripts/merge_subs.py:299-302 | keys whose value is None are removed and the rest kept |
| Generators.SingboxTagsDistinct | scripts/merge_subs.py:292-304 | the emitted tags are pairwise distinct and end in a digit |
| Generators.SingboxOutboundsNoNull | scripts/merge_subs.py:292-304 | no emitted outbound holds a None value |
| Generators.SingboxConfigConsistent | scripts/merge_subs.py:328-346 | every outbound of the config has a tag, the tags are pairwise distinct, and every member of the selector group is one of them |
| Generators.ClashName | scripts/merge_subs.py:374-377 | the name is the display name, "-" and the position |
| Generators.EmittedProxy | scripts/merge_subs.py:372-379 | the emitted proxy is the Clash proxy renamed, with the same keys |
| Generators.ClashNamesDistinct | scripts/merge_subs.py:372-379 | the emitted names are pairwise distinct and end in a digit |
| Generators.ClashConfigConsistent | scripts/merge_subs.py:394-407 | the group names and proxy names are distinct, and every member of a group is a proxy, a group or DIRECT |
| Generators.SubscriptionRoundTrip | scripts/merge_subs.py:416-426 | decoding the base64 subscription and splitting on newlines gives back the links |
| Generators.SubscriptionMerger.GenerateSingboxConfig | scripts/merge_subs.py:287-365 | the outbounds are the groups, the emitted outbounds of the first `maxNodes` nodes and the built-ins |
| Generators.SubscriptionMerger.GenerateClashConfig | scripts/merge_subs.py:367-414 | the proxies and groups come from the first `maxNodes` nodes |
| Generators.SubscriptionMerger.GenerateBase64 | scripts/merge_subs.py:416-426 | the content is the subscription of the links of the first `maxNodes` nodes |
| RoundTrips.SsRoundTrip | scripts/merge_subs.py:278-283 | re-parsing the ss link gives back a node with the same identity and name, every other field at its default |
| RoundTrips.VmessRoundTrip | scripts/merge_subs.py:232-248 | re-parsing the vmess link gives back the whole node, with source reset and priority 99 |
| RoundTrips.StreamRoundTrip | scripts/merge_subs.py:250-276 | re-parsing a vless or trojan link from the corrected encoder gives back the node's identity, when an address with ':' is one the splitter accepts in brackets |
| RoundTrips.ClashRoundTrip | scripts/merge_subs.py:149-226 | the Clash parser reads a Clash proxy back to a node with the same identity, named with the display name |
| RoundTrips.ClashStreamRoundTrip | scripts/merge_subs.py:154-202 | for vmess and vless the Clash proxy also gives back the TLS flag and the ws/tcp network |
| RoundTrips.LoopbackAsWrittenLost | scripts/merge_subs.py:250-266 | the source's vless link for address "::1" does not parse back |
| RoundTrips.LoopbackCorrectedKept | scripts/merge_subs.py:250-266 | the corrected link for the same node parses back with its identity |
| IpChecks.DefaultInfo | scripts/test_nodes.py:56-64 | the defaults: empty country, ASN 0, not a datacenter, score 50, no error |
| IpChecks.ParseAsnOf | scripts/test_nodes.py:80-85 | the ASN of "AS<n> <org>" is n |
| IpChecks.ParseAsn | scripts/test_nodes.py:80-85 | a blank "as" field gives 0 |
| IpChecks.Clamp | scripts/test_nodes.py:106 | the result lies in 0..100 and equals the input inside that range |
| IpChecks.TrustScore | scripts/test_nodes.py:88-106 | the score lies in 0..80; it is 80 iff not a datacenter, a trusted ASN and not CN; CN caps it at 40; an untrusted ASN at 50 |
| IpChecks.CloudflareHostingScore | scripts/test_nodes.py:88-106 | a hosting Cloudflare address in the US scores 60 |
| IpChecks.Assess | scripts/test_nodes.py:56-109 | a failed or non-success lookup keeps the defaults (and an exception records its message); a successful one takes the country, hosting flag, parsed ASN and the trust score |
| IpChecks.Checked | scripts/test_nodes.py:51-112 | a cached IP returns its cached info and leaves the cache; otherwise the assessed info is returned; afterwards the IP maps to the returned info |
| IpChecks.CheckedMemoizes | scripts/test_nodes.py:53-54 | a second check of the same IP returns the same info and changes nothing, whatever its lookup |
| IpChecks.CheckedKeepsOthers | scripts/test_nodes.py:111-112 | no other IP's entry is added, removed or changed |
| IpChecks.CheckedWf | scripts/test_nodes.py:51-112 | every cache entry records its own IP and a score in 0..80, before and after |
| IpChecks.ScoreInfo | scripts/test_nodes.py:88-106 | the step-by-step score is the specified trust score |
| IpChecks.IpChecker.CheckIp | scripts/test_nodes.py:51-112 | the info returned and the new cache are those of the specified check on the old cache |
| NodeTests.NewResult | scripts/test_nodes.py:19-28 | a fresh result has TCP and TLS off, latency 9999, no IP info, score 0, not friendly, no error |
| NodeTests.TcpOutcome | scripts/test_nodes.py:148-167 | TCP succeeds iff a connect time exists, and the latency is that time or 9999 |
| NodeTests.NodeOutcome | scripts/test_nodes.py:192-243 | every outcome is justified (friendly only when the predicate holds of its fields); the cache changes only when an IP check ran |
| NodeTests.InvalidEndpointFails | scripts/test_nodes.py:200-202 | an empty host or port 0 gives "Invalid host/port", TCP off, latency 9999, not friendly |
| NodeTests.UnresolvedFails | scripts/test_nodes.py:205-208 | a failed resolution gives "DNS resolution failed", TCP off, latency 9999, not friendly |
| NodeTests.UnreachableFails | scripts/test_nodes.py:211-217 | a TCP failure gives "TCP connection failed" and runs neither the TLS nor the IP check |
| NodeTests.FriendlyIff | scripts/test_nodes.py:192-238 | friendly iff the endpoint is valid, it resolves, TCP connects in under 500 ms, and the IP's info has score at least 30 and country not CN |
| NodeTests.TlsIrrelevant | scripts/test_nodes.py:220-238 | the TLS handshake result changes neither friendliness nor the cache |
| NodeTests.PlainNodeTlsOk | scripts/test_nodes.py:220-224 | a node without TLS that connects has tls_ok |
| NodeTests.FailedLookupStillFriendly | scripts/test_nodes.py:56-64 | a fast node whose first lookup fails is friendly with score 50 |
| NodeTests.ChineseIpNeverFriendly | scripts/test_nodes.py:233-238 | a first lookup reporting CN makes the node unfriendly |
| NodeTests.Outcomes | scripts/test_nodes.py:250-258 | one justified result per node, in order |
| NodeTests.Summarize | scripts/test_nodes.py:265-273 | the attached summary copies the result, with the IP's country or "" |
| NodeTests.Annotate | scripts/test_nodes.py:264-273 | every node gets the summary of its own result |
| NodeTests.Passing | scripts/test_nodes.py:275-277 | exactly the friendly annotated nodes are kept |
| NodeTests.PassingCounts | scripts/test_nodes.py:275-277 | each friendly node is kept as many times as it occurs, and no other node is kept |
| NodeTests.PassingAppend | scripts/test_nodes.py:275-277 | the filter keeps input order: filtering a concatenation concatenates the filtered parts |
| NodeTests.TestedSorted | scripts/test_nodes.py:284 | the returned nodes are sorted by latency |
| NodeTests.TestedPermutesPassing | scripts/test_nodes.py:275-284 | the returned nodes are a permutation of the friendly nodes |
| NodeTests.TestedStable | scripts/test_nodes.py:284 | nodes with equal latency keep their input order |
| NodeTests.TestedAreFriendly | scripts/test_nodes.py:233-284 | every returned node's summary satisfies the friendliness predicate |
| NodeTests.FriendlyAreTested | scripts/test_nodes.py:264-284 | every node whose result is friendly is returned |
| NodeTests.NodeTester.TestNode | scripts/test_nodes.py:192-243 | the result and the new cache are the specified outcome on the old cache |
| NodeTests.NodeTester.TestEach | scripts/test_nodes.py:250-258 | the results and cache are the specified outcomes of all nodes in order |
| NodeTests.NodeTester.TestAll | scripts/test_nodes.py:245-286 | the returned list is the friendly annotated nodes sorted by latency, and the count is its length |
| NodeTests.KeepFriendly | scripts/test_nodes.py:264-277 | the loop keeps exactly the friendly nodes, in order, and counts them |

## Left out

- Network, sockets and clocks: `fetch_source`, `fetch_bpb_subscription`, the HTTP request in `check_ip`, `resolve_host`, `test_tcp`, `test_tls` and the latency measurement. Their results are inputs: a `Lookup` value for the IP service and a `Probe` for DNS, TCP and TLS.
- Concurrency: the semaphores and `gather` in `aggregate` and `test_all`. The model runs the fetches and the `test_node` calls one after another, in source order.
- The `check_ip` cache race is not modelled. Concurrent `test_node` calls read the cache (scripts/test_nodes.py:53), await the lookup, then write it (scripts/test_nodes.py:111). Two nodes with the same IP can both miss the cache, both run the lookup, and the last write wins. In the model the second node always finds the first one's entry.
- File and configuration I/O: the constructors that read settings, `save_nodes`, `save_results`, `merge_and_generate` and `scripts/main.py`. `maxNodes` is a constructor argument.
- The constant DNS, route, inbound and rule blocks of the generated configs, and the YAML/JSON serialisation of the configs. The model keeps the outbound, proxy and group lists.
- MD5 in `unique_id`: the merge is keyed by the identity tuple, which is injective, as the digest is meant to be.
- `json.loads`, `json.dumps`, `yaml.safe_load` and `unquote` are abstract. Their laws are assumed only where a lemma's `requires` names them.
- The outer `except` of `test_node` guards only network calls, which are inputs here. `node_id` is always "" in the source and in the model.
- `test_all` writes a `test_result` into each node dictionary. The model returns new `TestedNode` values holding the node and its summary instead of updating the dictionaries in place.
- Floating point: `Json` has no float case, and latencies are whole milliseconds. So the model does not cover a JSON or YAML port written as a float (such as `443.0`), which `int()` truncates to an integer in the source (scripts/aggregate.py:60 and :243).
- `int()` on text: `ParseInt` accepts ASCII decimal digits, with single underscores between digits, an optional sign and surrounding whitespace, as Python does. Python also accepts non-ASCII Unicode decimal digits; text holding them gives None in the model.
- UrlParse.Hostname: lower-cases ASCII letters only. Python's `str.lower` also lower-cases non-ASCII letters, so for a non-ASCII host the model's address keeps their case.
- UrlParse.UrlSplit: the NFKC check those versions apply to a non-ASCII netloc (`_checknetloc`) is not modelled. A netloc whose NFKC form adds a '/', '?', '#', '@' or ':' raises in Python and splits in the model.
- `ipaddress.ip_address` is abstract: the bracketed-host check asks a `Stdlib` field whether the text is an IPv6 address.
- The merge is first-seen-wins among equal priorities, so its result depends on arrival order. The model follows the code, and `MergeSpec` states which node wins.
- The `"/"` default of the ws path in `_get_transport`: node dictionaries always carry a `path` key, so the default never applies and the path is the node's own.
- Non-string JSON or YAML values in fields the parsers treat as strings (a numeric password or name, an empty `servername:` that loads as null) are modelled as malformed input. The vmess link parser returns None for them, where Python builds a node holding the value.
- ClashParser.ClashEntry: a non-string value in one of its string fields gives `Abort`, so `Parse` returns only the nodes before that entry. Python stores the value in the node, appends it and goes on with the remaining entries (scripts/aggregate.py:240-287).
- NodeParser.ParseSs: states the secret shape and the no-fragment name. The full SIP002 path, including the unquoted name after the last '#', is stated through `RoundTrips.SsRoundTrip`.
- RoundTrips.SsRoundTrip: requires the address to contain no '/' or '@' and the secret to contain ':'. Those are the inputs the source's own split can recover.
- RoundTrips.StreamRoundTrip: recovers the identity but not the query fields or the name. It requires the address and uuid to be free of URL delimiters and the port to be in 1..65535. An address with ':' must also be one the splitter accepts in brackets: an IPv6 address or an IPvFuture literal.
- RoundTrips.VmessRoundTrip: depends on `JsonLaw`, because `json.loads` and `json.dumps` are abstract.
- RoundTrips.ClashRoundTrip: the name comes back as the display name, and ss needs a ':' in the secret.

## Findings

| source | as written | input that shows it | evidently intended | confidence | as-written member | corrected member |
|---|---|---|---|---|---|---|
| scripts/aggregate.py:35-39 | the identity key is the string `protocol:address:port:secret`, which is not injective when the address or secret contains ':' | trojan `::1` port 443 secret `443:pw`, and trojan `::1:443` port 443 secret `pw`: both give `trojan:::1:443:443:pw`, and the merge keeps one of them | one entry per distinct (protocol, address, port, secret) | not executed | Aggregator.KeyStringMergeLosesNode | Aggregator.DistinctIdentitiesKept |
| scripts/merge_subs.py:250-276 | vless and trojan links write the address unbracketed, so an IPv6 address makes `urlparse` misread the host and port | vless node `::1`, port 443, uuid `u` gives `vless://u@::1:443?#`; the splitter reads its port text as `:1:443`, which is not a valid port, and `parse_vless` returns None | bracket addresses that contain ':', as section 3.2.2 of RFC 3986 requires, so the link parses back | not executed | RoundTrips.LoopbackAsWrittenLost | RoundTrips.StreamRoundTrip |
