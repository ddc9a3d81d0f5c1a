/** The Python `str` and `int` operations the pipeline relies on, written out
    with the exact semantics CPython gives them: whitespace stripping,
    `partition`/`rpartition` (what `split(c, 1)` and `rsplit(c, 1)` unpack to),
    `split(c)`, `split()`'s first word, `replace`, `int(str)` and `str(int)`. */
module Text {
  import opened Optional

  /** The characters Python's `str.isspace()` (and so `strip`, `split()` and
      `int()`) treats as whitespace. */
  predicate IsSpace(c: char) {
    c == ' ' || '\t' <= c <= '\r' || '\U{1c}' <= c <= '\U{1f}' || c == '\U{85}' || c == '\U{a0}'
    || c == '\U{1680}' || '\U{2000}' <= c <= '\U{200a}' || c == '\U{2028}' || c == '\U{2029}'
    || c == '\U{202f}' || c == '\U{205f}' || c == '\U{3000}'
  }

  /** `s.lstrip()`: the longest suffix of `s` that does not start with whitespace. */
  function LStrip(s: string): (r: string)
    ensures |r| <= |s| && r == s[|s| - |r|..]
    ensures forall i :: 0 <= i < |s| - |r| ==> IsSpace(s[i])
    ensures r == [] || !IsSpace(r[0])
  {
    if s != [] && IsSpace(s[0]) then LStrip(s[1..]) else s
  }

  /** `s.rstrip()`: the longest prefix of `s` that does not end with whitespace. */
  function RStrip(s: string): (r: string)
    ensures |r| <= |s| && r == s[..|r|]
    ensures forall i :: |r| <= i < |s| ==> IsSpace(s[i])
    ensures r == [] || !IsSpace(r[|r| - 1])
  {
    if s != [] && IsSpace(s[|s| - 1]) then RStrip(s[..|s| - 1]) else s
  }

  /** `s.strip()`. */
  function Strip(s: string): string {
    RStrip(LStrip(s))
  }

  lemma StripKeeps(s: string)
    requires s != [] && !IsSpace(s[0]) && !IsSpace(s[|s| - 1])
    ensures Strip(s) == s
  {
  }

  /** Index of the first `c` in `s`, or -1 (`str.find`). */
  function IndexOf(s: string, c: char): (r: int)
    ensures -1 <= r < |s|
    ensures r < 0 <==> c !in s
    ensures 0 <= r ==> s[r] == c && c !in s[..r]
  {
    if s == [] then -1
    else if s[0] == c then 0
    else
      var k := IndexOf(s[1..], c);
      if k < 0 then -1
      else
        assert s[..k + 1] == [s[0]] + s[1..][..k];
        k + 1
  }

  /** Index of the last `c` in `s`, or -1 (`str.rfind`). */
  function LastIndexOf(s: string, c: char): (r: int)
    ensures -1 <= r < |s|
    ensures r < 0 <==> c !in s
    ensures 0 <= r ==> s[r] == c && c !in s[r + 1..]
  {
    if s == [] then -1
    else if s[|s| - 1] == c then |s| - 1
    else
      var k := LastIndexOf(s[..|s| - 1], c);
      assert 0 <= k ==> s[k + 1..] == s[..|s| - 1][k + 1..] + [s[|s| - 1]];
      k
  }

  /** The three parts of Python's `partition`/`rpartition` around one separator. */
  datatype Parts = Parts(before: string, found: bool, after: string)

  /** `s.partition(c)`; `s.split(c, 1)` unpacks into two names exactly when `found`. */
  function Partition(s: string, c: char): (r: Parts)
    ensures r.found <==> c in s
    ensures r.found ==> s == r.before + [c] + r.after && c !in r.before
    ensures !r.found ==> r.before == s && r.after == ""
  {
    var k := IndexOf(s, c);
    if k < 0 then Parts(s, false, "")
    else
      assert s == s[..k] + [c] + s[k + 1..];
      Parts(s[..k], true, s[k + 1..])
  }

  /** `s.rpartition(c)`; `s.rsplit(c, 1)` unpacks into two names exactly when `found`. */
  function RPartition(s: string, c: char): (r: Parts)
    ensures r.found <==> c in s
    ensures r.found ==> s == r.before + [c] + r.after && c !in r.after
    ensures !r.found ==> r.before == "" && r.after == s
  {
    var k := LastIndexOf(s, c);
    if k < 0 then Parts("", false, s)
    else
      assert s == s[..k] + [c] + s[k + 1..];
      Parts(s[..k], true, s[k + 1..])
  }

  /** The separator found first is the one after a separator-free prefix. */
  lemma {:induction false} PartitionAt(x: string, c: char, y: string)
    requires c !in x
    ensures Partition(x + [c] + y, c) == Parts(x, true, y)
  {
    var s := x + [c] + y;
    var k := IndexOf(s, c);
    assert forall i :: 0 <= i < |x| ==> s[i] == x[i];
    assert s[|x|] == c;
    assert k <= |x|;
    assert s[..k] == x;
  }

  /** The separator found last is the one before a separator-free suffix. */
  lemma {:induction false} RPartitionAt(x: string, c: char, y: string)
    requires c !in y
    ensures RPartition(x + [c] + y, c) == Parts(x, true, y)
  {
    var s := x + [c] + y;
    var k := LastIndexOf(s, c);
    assert s[|x|] == c;
    assert k >= |x| by {
      var tail := s[k + 1..];
      assert forall j :: k < j < |s| ==> tail[j - k - 1] == s[j];
    }
    assert k <= |x| by {
      assert forall j :: |x| < j < |s| ==> s[j] == y[j - |x| - 1];
    }
    assert s[..k] == x && s[k + 1..] == y;
  }

  /** `sep.join(parts)`. */
  function Join(parts: seq<string>, sep: string): string {
    if |parts| == 0 then ""
    else if |parts| == 1 then parts[0]
    else parts[0] + sep + Join(parts[1..], sep)
  }

  /** `s.split(c)`. */
  function SplitAll(s: string, c: char): (r: seq<string>)
    ensures |r| >= 1
    ensures forall i :: 0 <= i < |r| ==> c !in r[i]
    ensures Join(r, [c]) == s
    decreases |s|
  {
    var p := Partition(s, c);
    if p.found then [p.before] + SplitAll(p.after, c) else [s]
  }

  /** Splitting a joined list on a separator none of its parts holds gives the list back. */
  lemma {:induction false} SplitJoin(parts: seq<string>, c: char)
    requires |parts| >= 1 && forall i :: 0 <= i < |parts| ==> c !in parts[i]
    ensures SplitAll(Join(parts, [c]), c) == parts
  {
    if |parts| > 1 {
      PartitionAt(parts[0], c, Join(parts[1..], [c]));
      SplitJoin(parts[1..], c);
      assert [parts[0]] + parts[1..] == parts;
    }
  }

  /** `s[i:i+|pat|] == pat`. */
  predicate OccursAt(s: string, pat: string, i: int) {
    0 <= i && i + |pat| <= |s| && s[i..i + |pat|] == pat
  }

  ghost predicate Occurs(s: string, pat: string) {
    exists i :: OccursAt(s, pat, i)
  }

  /** `s.replace(pat, repl)`: every non-overlapping occurrence, scanning left to right. */
  function ReplaceAll(s: string, pat: string, repl: string): string
    requires pat != []
    decreases |s|
  {
    if |s| < |pat| then s
    else if s[..|pat|] == pat then repl + ReplaceAll(s[|pat|..], pat, repl)
    else [s[0]] + ReplaceAll(s[1..], pat, repl)
  }

  lemma {:induction false} ReplaceAbsent(s: string, pat: string, repl: string)
    requires pat != [] && !Occurs(s, pat)
    ensures ReplaceAll(s, pat, repl) == s
    decreases |s|
  {
    if |s| >= |pat| {
      assert !OccursAt(s, pat, 0);
      assert s[0..|pat|] == s[..|pat|];
      forall i | 0 <= i && i + |pat| <= |s| - 1
        ensures !OccursAt(s[1..], pat, i)
      {
        assert !OccursAt(s, pat, i + 1);
        assert s[1..][i..i + |pat|] == s[i + 1..i + 1 + |pat|];
      }
      ReplaceAbsent(s[1..], pat, repl);
    }
  }

  lemma ReplaceLeading(pat: string, rest: string, repl: string)
    requires pat != []
    ensures ReplaceAll(pat + rest, pat, repl) == repl + ReplaceAll(rest, pat, repl)
  {
    assert (pat + rest)[..|pat|] == pat;
    assert (pat + rest)[|pat|..] == rest;
  }

  /** The prefix of `s` before the first occurrence of `pat`: `s.split(pat)[0]`. */
  function BeforeFirst(s: string, pat: string): (r: string)
    requires pat != []
    ensures |r| <= |s| && r == s[..|r|]
    ensures r == s || OccursAt(s, pat, |r|)
    ensures forall i :: 0 <= i < |r| ==> !OccursAt(s, pat, i)
    decreases |s|
  {
    if |s| < |pat| then s
    else if s[..|pat|] == pat then ""
    else
      var r := [s[0]] + BeforeFirst(s[1..], pat);
      assert forall i :: 1 <= i < |r| ==> (OccursAt(s, pat, i) ==> OccursAt(s[1..], pat, i - 1)) by {
        forall i | 1 <= i < |r| && OccursAt(s, pat, i) ensures OccursAt(s[1..], pat, i - 1) {
          assert s[1..][i - 1..i - 1 + |pat|] == s[i..i + |pat|];
        }
      }
      assert OccursAt(s[1..], pat, |r| - 1) ==> OccursAt(s, pat, |r|) by {
        if OccursAt(s[1..], pat, |r| - 1) {
          assert s[1..][|r| - 1..|r| - 1 + |pat|] == s[|r|..|r| + |pat|];
        }
      }
      r
  }

  /** The first whitespace-free run of `s`. */
  function TakeWord(s: string): (r: string)
    ensures |r| <= |s| && r == s[..|r|]
    ensures forall i :: 0 <= i < |r| ==> !IsSpace(r[i])
    ensures |r| == |s| || IsSpace(s[|r|])
  {
    if s == [] || IsSpace(s[0]) then [] else [s[0]] + TakeWord(s[1..])
  }

  /** `s.split()[0]`, or `None` where that raises IndexError (blank `s`). */
  function FirstWord(s: string): (r: Option<string>)
    ensures r.None? <==> forall i :: 0 <= i < |s| ==> IsSpace(s[i])
  {
    var t := LStrip(s);
    if t == [] then None else Some(TakeWord(t))
  }

  predicate IsDigit(c: char) {
    '0' <= c <= '9'
  }

  /** What `int()` accepts after the optional sign: decimal digits, single
      underscores allowed only between two digits. */
  predicate DigitRun(t: string) {
    && |t| > 0 && IsDigit(t[0]) && IsDigit(t[|t| - 1])
    && forall i :: 0 <= i < |t| ==> IsDigit(t[i]) || (t[i] == '_' && 0 < i < |t| - 1 && IsDigit(t[i + 1]))
  }

  /** The number a digit run denotes, underscores ignored. */
  function DigitsValue(t: string): nat {
    if t == [] then 0
    else if IsDigit(t[|t| - 1]) then DigitsValue(t[..|t| - 1]) * 10 + (t[|t| - 1] as int - '0' as int)
    else DigitsValue(t[..|t| - 1])
  }

  /** Python's `int(s)` on a `str`, `None` where it raises ValueError.
      (Non-ASCII decimal digits, which Python also accepts, are not modelled.) */
  function ParseInt(s: string): Option<int> {
    var t := Strip(s);
    if |t| > 0 && (t[0] == '-' || t[0] == '+') then
      var v: int := DigitsValue(t[1..]);
      if DigitRun(t[1..]) then Some(if t[0] == '-' then -v else v)
      else None
    else if DigitRun(t) then Some(DigitsValue(t))
    else None
  }

  function DigitChar(d: nat): char
    requires d < 10
  {
    ('0' as int + d) as char
  }

  /** `str(n)` for `n >= 0`. */
  function NatToString(n: nat): (r: string)
    ensures |r| > 0 && forall i :: 0 <= i < |r| ==> IsDigit(r[i])
  {
    if n < 10 then [DigitChar(n)] else NatToString(n / 10) + [DigitChar(n % 10)]
  }

  /** `str(n)`. */
  function IntToString(n: int): (r: string)
    ensures |r| > 0 && IsDigit(r[|r| - 1])
    ensures forall i :: 0 <= i < |r| ==> IsDigit(r[i]) || (i == 0 && r[i] == '-')
  {
    if n < 0 then "-" + NatToString(-n) else NatToString(n)
  }

  lemma {:induction false} NatToStringValue(n: nat)
    ensures DigitRun(NatToString(n)) && DigitsValue(NatToString(n)) == n
  {
    var r := NatToString(n);
    if n >= 10 {
      NatToStringValue(n / 10);
      assert r[..|r| - 1] == NatToString(n / 10);
    }
  }

  lemma ParseUnsigned(b: string)
    requires DigitRun(b)
    ensures ParseInt(b) == Some(DigitsValue(b))
  {
    StripKeeps(b);
  }

  /** `int("-" + b)` for a digit run `b`. */
  lemma ParseSigned(t: string, b: string, n: int)
    requires t == "-" + b && DigitRun(b) && DigitsValue(b) == -n
    ensures ParseInt(t) == Some(n)
  {
    StripKeeps(t);
    assert t[1..] == b;
  }

  lemma {:induction false} ParseIntToStringNonNegative(n: int)
    requires n >= 0
    ensures ParseInt(IntToString(n)) == Some(n)
  {
    NatToStringValue(n);
    ParseUnsigned(NatToString(n));
  }

  lemma {:induction false} ParseIntToStringNegative(n: int)
    requires n < 0
    ensures ParseInt(IntToString(n)) == Some(n)
  {
    NatToStringValue(-n);
    ParseSigned(IntToString(n), NatToString(-n), n);
  }

  /** `int(str(n)) == n`. */
  lemma ParseIntToString(n: int)
    ensures ParseInt(IntToString(n)) == Some(n)
  {
    if n < 0 {
      ParseIntToStringNegative(n);
    } else {
      ParseIntToStringNonNegative(n);
    }
  }

  /** Distinct integers print differently. */
  lemma IntToStringInjective(m: int, n: int)
    requires IntToString(m) == IntToString(n)
    ensures m == n
  {
    ParseIntToString(m);
    ParseIntToString(n);
  }

  /** `int(s)` raises on text that ends in an ASCII letter. */
  lemma LetterEndNotInt(s: string)
    requires s != [] && ('a' <= s[|s| - 1] <= 'z' || 'A' <= s[|s| - 1] <= 'Z')
    ensures ParseInt(s) == None
  {
    var c := s[|s| - 1];
    StripLast(s);
    var t := Strip(s);
    assert !DigitRun(t) by {
      assert !IsDigit(t[|t| - 1]);
    }
    assert !DigitRun(t[1..]) by {
      assert |t| > 1 ==> t[1..][|t| - 2] == c;
    }
  }

  /** Stripping text that ends in a non-space keeps its last character. */
  lemma StripLast(s: string)
    requires s != [] && !IsSpace(s[|s| - 1])
    ensures Strip(s) != [] && Strip(s)[|Strip(s)| - 1] == s[|s| - 1]
  {
    var l := LStrip(s);
    assert !(|s| - 1 < |s| - |l|);
    assert l == s[|s| - |l|..];
    assert l[|l| - 1] == s[|s| - 1];
  }

  function LowerChar(c: char): char {
    if 'A' <= c <= 'Z' then (c as int + 32) as char else c
  }

  /** `s.lower()` restricted to ASCII letters (other characters are kept). */
  function AsciiLower(s: string): (r: string)
    ensures |r| == |s| && forall i :: 0 <= i < |s| ==> r[i] == LowerChar(s[i])
  {
    seq(|s|, i requires 0 <= i < |s| => LowerChar(s[i]))
  }

  /** No ASCII upper-case letter: what lower-casing leaves unchanged. */
  predicate NoUpper(s: string) {
    forall i :: 0 <= i < |s| ==> !('A' <= s[i] <= 'Z')
  }

  lemma LowerKeeps(s: string)
    requires NoUpper(s)
    ensures AsciiLower(s) == s
  {
  }

  /** `c * n`. */
  function Repeat(c: char, n: nat): (r: string)
    ensures |r| == n && forall i :: 0 <= i < n ==> r[i] == c
  {
    seq(n, _ => c)
  }

  /** `a <= b` on Python strings: code point by code point, a proper prefix
      first. */
  predicate StrLe(a: string, b: string) {
    a == [] || (b != [] && (a[0] < b[0] || (a[0] == b[0] && StrLe(a[1..], b[1..]))))
  }

  /** Any two strings are ordered one way or the other. */
  lemma {:induction false} StrLeTotal(a: string, b: string)
    ensures StrLe(a, b) || StrLe(b, a)
  {
    if a != [] && b != [] && a[0] == b[0] {
      StrLeTotal(a[1..], b[1..]);
    }
  }

  lemma {:induction false} StrLeTrans(a: string, b: string, c: string)
    requires StrLe(a, b) && StrLe(b, c)
    ensures StrLe(a, c)
  {
    if a != [] && a[0] == b[0] && b[0] == c[0] {
      StrLeTrans(a[1..], b[1..], c[1..]);
    }
  }

  /** Strings ordered both ways are equal. */
  lemma {:induction false} StrLeAntisymmetric(a: string, b: string)
    requires StrLe(a, b) && StrLe(b, a)
    ensures a == b
  {
    if a != [] {
      StrLeAntisymmetric(a[1..], b[1..]);
      assert a == [a[0]] + a[1..] && b == [b[0]] + b[1..];
    }
  }
}
