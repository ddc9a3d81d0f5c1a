/** The IP reputation check of the node tester: the ip-api.com reply is
    turned into an info record with a trust score, and every answer is
    memoized per IP. The HTTP request itself is not modelled; its outcome is
    a `Lookup` parameter. */
module IpChecks {
  import opened Optional
  import opened Text

  /** The ASNs of the CDNs and clouds the checker trusts: Cloudflare, Akamai,
      Amazon, Google and Microsoft. */
  const TrustedAsns: set<int> := {13335, 20940, 16509, 15169, 8075}

  /** The ASNs the checker distrusts; the list is empty. */
  const BlockedAsns: set<int> := {}

  /** The info record `check_ip` returns. */
  datatype IpInfo = IpInfo(
    ip: string,
    country: string,
    asn: int,
    org: string,
    isDatacenter: bool,
    isVpn: bool,
    trustScore: int,
    error: Option<string>)

  /** The record before the lookup: no country, ASN 0, score 50. */
  function DefaultInfo(ip: string): (r: IpInfo)
    ensures r.ip == ip && r.country == "" && r.asn == 0 && r.org == ""
    ensures !r.isDatacenter && !r.isVpn && r.trustScore == 50 && r.error.None?
  {
    IpInfo(ip, "", 0, "", false, false, 50, None)
  }

  /** How the lookup went: it raised (a timeout, a connection error, a body
      that is not JSON), or it answered with an HTTP status and the fields of
      the JSON body. */
  datatype Lookup =
    | Raised(message: string)
    | Answered(httpStatus: int, status: string, countryCode: string, org: string, asText: string, hosting: bool)

  /** The ASN in an "as" field such as "AS13335 Cloudflare, Inc.": the first
      word with every "AS" removed, read as an integer; 0 when the field is
      empty, blank or not of that form. */
  function ParseAsn(asText: string): (r: int)
    ensures (forall i :: 0 <= i < |asText| ==> IsSpace(asText[i])) ==> r == 0
  {
    if asText == [] then 0
    else
      match FirstWord(asText)
      case None => 0
      case Some(word) =>
        match ParseInt(ReplaceAll(word, "AS", ""))
        case None => 0
        case Some(v) => v
  }

  lemma TakeWordAt(w: string, rest: string)
    requires forall i :: 0 <= i < |w| ==> !IsSpace(w[i])
    ensures TakeWord(w + " " + rest) == w
  {
    if w != [] {
      assert (w + " " + rest)[1..] == w[1..] + " " + rest;
      TakeWordAt(w[1..], rest);
    }
  }

  lemma NoAsInDigits(d: string)
    requires forall i :: 0 <= i < |d| ==> IsDigit(d[i])
    ensures !Occurs(d, "AS")
  {
    forall i | 0 <= i && i + 2 <= |d| ensures !OccursAt(d, "AS", i) {
      assert d[i..i + 2][0] == d[i];
    }
  }

  /** The first word of a word, a space and more text is that word. */
  lemma FirstWordOf(word: string, rest: string)
    requires word != [] && forall i :: 0 <= i < |word| ==> !IsSpace(word[i])
    ensures FirstWord(word + " " + rest) == Some(word)
  {
    var text := word + " " + rest;
    assert !IsSpace(text[0]);
    assert LStrip(text) == text;
    TakeWordAt(word, rest);
  }

  /** Removing "AS" from "AS" and digits leaves the digits. */
  lemma StripAs(digits: string)
    requires forall i :: 0 <= i < |digits| ==> IsDigit(digits[i])
    ensures ReplaceAll("AS" + digits, "AS", "") == digits
  {
    ReplaceLeading("AS", digits, "");
    NoAsInDigits(digits);
    ReplaceAbsent(digits, "AS", "");
  }

  /** The ASN of an "AS<number> <organisation>" field is the number. */
  lemma ParseAsnOf(n: nat, org: string)
    ensures ParseAsn("AS" + NatToString(n) + " " + org) == n
  {
    var digits := NatToString(n);
    var word := "AS" + digits;
    assert forall i :: 0 <= i < |word| ==> !IsSpace(word[i]) by {
      assert forall i :: 2 <= i < |word| ==> word[i] == digits[i - 2];
    }
    FirstWordOf(word, org);
    StripAs(digits);
    ParseIntToString(n);
    assert word + " " + org == "AS" + NatToString(n) + " " + org;
  }

  /** `max(0, min(100, score))`. */
  function Clamp(score: int): (r: int)
    ensures 0 <= r <= 100
    ensures 0 <= score <= 100 ==> r == score
    ensures score < 0 ==> r == 0
    ensures score > 100 ==> r == 100
  {
    if score < 0 then 0 else if score > 100 then 100 else score
  }

  /** The trust score: 50, minus 20 for a datacenter address, plus 30 for a
      trusted ASN, minus 50 for a blocked ASN, minus 40 for a Chinese address,
      then clamped to [0, 100]. */
  function TrustScore(isDatacenter: bool, asn: int, country: string): (r: int)
    ensures 0 <= r <= 80
    ensures r == 80 <==> !isDatacenter && asn in TrustedAsns && country != "CN"
    ensures country == "CN" ==> r <= 40
    ensures asn !in TrustedAsns ==> r <= 50
  {
    Clamp(50
      + (if isDatacenter then -20 else 0)
      + (if asn in TrustedAsns then 30 else 0)
      + (if asn in BlockedAsns then -50 else 0)
      + (if country == "CN" then -40 else 0))
  }

  /** A datacenter address behind Cloudflare in the US scores 60. */
  lemma CloudflareHostingScore()
    ensures TrustScore(true, 13335, "US") == 60
  {
  }

  /** The info for an IP not yet cached: the defaults, with the error when
      the lookup raised, or with the reply's fields and their score when it
      succeeded. */
  function Assess(ip: string, lookup: Lookup): (r: IpInfo)
    ensures r.ip == ip && 0 <= r.trustScore <= 80
    ensures !Succeeded(lookup) ==> r.country == "" && r.asn == 0 && !r.isDatacenter && r.trustScore == 50
    ensures lookup.Raised? ==> r.error == Some(lookup.message)
    ensures Succeeded(lookup) ==> (
      && r.country == lookup.countryCode && r.isDatacenter == lookup.hosting
      && r.asn == ParseAsn(lookup.asText)
      && r.trustScore == TrustScore(lookup.hosting, r.asn, lookup.countryCode))
  {
    match lookup
    case Raised(message) => DefaultInfo(ip).(error := Some(message))
    case Answered(code, status, countryCode, org, asText, hosting) =>
      if code == 200 && status == "success" then
        var asn := ParseAsn(asText);
        IpInfo(ip, countryCode, asn, org, hosting, false, TrustScore(hosting, asn, countryCode), None)
      else DefaultInfo(ip)
  }

  /** The lookup answered 200 with status "success". */
  predicate Succeeded(lookup: Lookup) {
    lookup.Answered? && lookup.httpStatus == 200 && lookup.status == "success"
  }

  /** One `check_ip` call on a cache: the info returned and the new cache. */
  function Checked(cache: map<string, IpInfo>, ip: string, lookup: Lookup): (r: (IpInfo, map<string, IpInfo>))
    ensures ip in cache ==> r == (cache[ip], cache)
    ensures ip !in cache ==> r.0 == Assess(ip, lookup)
    ensures r.1 == cache[ip := r.0]
  {
    if ip in cache then (cache[ip], cache)
    else
      var info := Assess(ip, lookup);
      (info, cache[ip := info])
  }

  /** A second check of the same IP returns the first answer and leaves the
      cache alone, whatever the network would say. */
  lemma CheckedMemoizes(cache: map<string, IpInfo>, ip: string, first: Lookup, second: Lookup)
    ensures var (info, after) := Checked(cache, ip, first);
      Checked(after, ip, second) == (info, after)
  {
  }

  /** Checking one IP changes no other cache entry. */
  lemma CheckedKeepsOthers(cache: map<string, IpInfo>, ip: string, lookup: Lookup, other: string)
    requires other != ip
    ensures var after := Checked(cache, ip, lookup).1;
      (other in after <==> other in cache) && (other in cache ==> after[other] == cache[other])
  {
  }

  /** Every cached info is about its own IP and scores within [0, 80]. */
  predicate CacheWf(cache: map<string, IpInfo>) {
    forall ip :: ip in cache ==> cache[ip].ip == ip && 0 <= cache[ip].trustScore <= 80
  }

  /** Checks keep the cache well formed. */
  lemma CheckedWf(cache: map<string, IpInfo>, ip: string, lookup: Lookup)
    requires CacheWf(cache)
    ensures CacheWf(Checked(cache, ip, lookup).1)
    ensures var info := Checked(cache, ip, lookup).0;
      info.ip == ip && 0 <= info.trustScore <= 80
  {
  }

  /** The scoring of `check_ip`: adjustments applied one after another to a
      running score, then clamped. */
  method ScoreInfo(isDatacenter: bool, asn: int, country: string) returns (score: int)
    ensures score == TrustScore(isDatacenter, asn, country)
  {
    score := 50;
    if isDatacenter {
      score := score - 20;
    }
    if asn in TrustedAsns {
      score := score + 30;
    }
    if asn in BlockedAsns {
      score := score - 50;
    }
    if country == "CN" {
      score := score - 40;
    }
    score := Clamp(score);
  }

  /** `IPChecker`: the memo of lookups by IP. */
  class IpChecker {
    var cache: map<string, IpInfo>

    ghost predicate Valid()
      reads this
    {
      CacheWf(cache)
    }

    constructor()
      ensures cache == map[] && Valid()
    {
      cache := map[];
    }

    /** `check_ip`: the cached info when there is one; otherwise the info
        built from the lookup and remembered. */
    method CheckIp(ip: string, lookup: Lookup) returns (info: IpInfo)
      requires Valid()
      modifies this
      ensures Valid()
      ensures (info, cache) == Checked(old(cache), ip, lookup)
    {
      if ip in cache {
        return cache[ip];
      }
      info := DefaultInfo(ip);
      match lookup {
        case Raised(message) =>
          info := info.(error := Some(message));
        case Answered(code, status, countryCode, org, asText, hosting) =>
          if code == 200 && status == "success" {
            info := info.(country := countryCode, org := org, isDatacenter := hosting);
            info := info.(asn := ParseAsn(asText));
            var score := ScoreInfo(hosting, info.asn, countryCode);
            info := info.(trustScore := score);
          }
      }
      assert info == Assess(ip, lookup);
      cache := cache[ip := info];
    }
  }
}
