/** Python's `list.sort(key=...)`: a stable sort, here by a total preorder
    `le` ("the key of a is at most the key of b"). Specified as insertion
    sort, which is the unique stable ordering: the result is sorted, a
    permutation of the input, and keeps the input order among elements with
    equal keys. */
module Sorting {

  /** `le` is total and transitive, as "key(a) <= key(b)" is. */
  ghost predicate TotalPreorder<T(!new)>(le: (T, T) -> bool) {
    && (forall a, b :: le(a, b) || le(b, a))
    && (forall a, b, c :: le(a, b) && le(b, c) ==> le(a, c))
  }

  predicate Sorted<T>(s: seq<T>, le: (T, T) -> bool) {
    forall i, j :: 0 <= i < j < |s| ==> le(s[i], s[j])
  }

  /** Equal keys. */
  predicate Equiv<T>(le: (T, T) -> bool, a: T, b: T) {
    le(a, b) && le(b, a)
  }

  /** The elements of `s` whose key equals the key of `c`, in order. */
  function Peers<T>(s: seq<T>, le: (T, T) -> bool, c: T): (r: seq<T>)
    ensures |r| <= |s|
  {
    if s == [] then []
    else (if Equiv(le, s[0], c) then [s[0]] else []) + Peers(s[1..], le, c)
  }

  /** Puts `x` after every element whose key is at most its own. */
  function Insert<T>(x: T, s: seq<T>, le: (T, T) -> bool): (r: seq<T>)
    ensures |r| == |s| + 1
  {
    if s == [] then [x]
    else if le(s[0], x) then [s[0]] + Insert(x, s[1..], le)
    else [x] + s
  }

  /** The stable sort of `s`. */
  function Sort<T>(s: seq<T>, le: (T, T) -> bool): (r: seq<T>)
    ensures |r| == |s|
  {
    if s == [] then []
    else Insert(s[|s| - 1], Sort(s[..|s| - 1], le), le)
  }

  lemma {:induction false} InsertSorted<T(!new)>(x: T, s: seq<T>, le: (T, T) -> bool)
    requires TotalPreorder(le) && Sorted(s, le)
    ensures Sorted(Insert(x, s, le), le)
  {
    if s != [] && le(s[0], x) {
      SortedTail(s, le);
      InsertSorted(x, s[1..], le);
      var r := Insert(x, s[1..], le);
      InsertPermutes(x, s[1..], le);
      assert forall k :: 0 <= k < |r| ==> le(s[0], r[k]) by {
        forall k | 0 <= k < |r| ensures le(s[0], r[k]) {
          assert r[k] in multiset(s[1..]) + multiset{x};
          if r[k] in multiset(s[1..]) {
            var m :| 0 <= m < |s[1..]| && s[1..][m] == r[k];
            assert s[1..][m] == s[m + 1];
          }
        }
      }
    } else if s != [] {
      assert le(x, s[0]);
      assert forall k :: 0 <= k < |s| ==> le(x, s[k]);
    }
  }

  /** The result is ordered by the key. */
  lemma {:induction false} SortSorted<T(!new)>(s: seq<T>, le: (T, T) -> bool)
    requires TotalPreorder(le)
    ensures Sorted(Sort(s, le), le)
  {
    if s != [] {
      SortSorted(s[..|s| - 1], le);
      InsertSorted(s[|s| - 1], Sort(s[..|s| - 1], le), le);
    }
  }

  lemma {:induction false} PeersAppend<T>(a: seq<T>, b: seq<T>, le: (T, T) -> bool, c: T)
    ensures Peers(a + b, le, c) == Peers(a, le, c) + Peers(b, le, c)
  {
    if a == [] {
      assert a + b == b;
    } else {
      PeersAppend(a[1..], b, le, c);
      assert a + b == [a[0]] + (a[1..] + b);
      PeersCons(a[0], a[1..] + b, le, c);
      assert a == [a[0]] + a[1..];
      PeersCons(a[0], a[1..], le, c);
    }
  }

  /** In a sorted sequence, `x` lands after its peers: the peers of any key
      in the result are those of `s`, with `x` appended when it is one of them. */
  lemma {:induction false} InsertPeers<T(!new)>(x: T, s: seq<T>, le: (T, T) -> bool, c: T)
    requires TotalPreorder(le) && Sorted(s, le)
    ensures Peers(Insert(x, s, le), le, c) ==
      Peers(s, le, c) + (if Equiv(le, x, c) then [x] else [])
  {
    if s == [] {
    } else if le(s[0], x) {
      SortedTail(s, le);
      InsertPeers(x, s[1..], le, c);
      assert Insert(x, s, le) == [s[0]] + Insert(x, s[1..], le);
      PeersCons(s[0], Insert(x, s[1..], le), le, c);
      assert s == [s[0]] + s[1..];
      PeersCons(s[0], s[1..], le, c);
    } else {
      PeersCons(x, s, le, c);
      if Equiv(le, x, c) {
        AllAbove(x, s, le, c);
        NoPeers(s, le, c);
      }
    }
  }

  lemma SortedTail<T>(s: seq<T>, le: (T, T) -> bool)
    requires s != [] && Sorted(s, le)
    ensures Sorted(s[1..], le)
  {
    forall i, j | 0 <= i < j < |s| - 1 ensures le(s[1..][i], s[1..][j]) {
      assert s[1..][i] == s[i + 1] && s[1..][j] == s[j + 1];
    }
  }

  lemma PeersCons<T>(a: T, t: seq<T>, le: (T, T) -> bool, c: T)
    ensures Peers([a] + t, le, c) == (if Equiv(le, a, c) then [a] else []) + Peers(t, le, c)
  {
    assert ([a] + t)[1..] == t;
  }

  /** Every element of a sorted sequence that starts above `x` is above `x`,
      so none of them has the key of `x`. */
  lemma AllAbove<T(!new)>(x: T, s: seq<T>, le: (T, T) -> bool, c: T)
    requires TotalPreorder(le) && Sorted(s, le)
    requires s != [] && !le(s[0], x) && Equiv(le, x, c)
    ensures forall k :: 0 <= k < |s| ==> !Equiv(le, s[k], c)
  {
    forall k | 0 <= k < |s| ensures !Equiv(le, s[k], c) {
      assert le(s[0], s[k]);
    }
  }

  lemma {:induction false} NoPeers<T>(s: seq<T>, le: (T, T) -> bool, c: T)
    requires forall k :: 0 <= k < |s| ==> !Equiv(le, s[k], c)
    ensures Peers(s, le, c) == []
  {
    if s != [] {
      NoPeers(s[1..], le, c);
    }
  }

  /** Stability: elements with equal keys keep their input order. */
  lemma {:induction false} SortStable<T(!new)>(s: seq<T>, le: (T, T) -> bool, c: T)
    requires TotalPreorder(le)
    ensures Peers(Sort(s, le), le, c) == Peers(s, le, c)
  {
    if s != [] {
      var init, x := s[..|s| - 1], s[|s| - 1];
      SortStable(init, le, c);
      SortSorted(init, le);
      InsertPeers(x, Sort(init, le), le, c);
      PeersAppend(init, [x], le, c);
      PeersOne(x, le, c);
      SortSnoc(s, le);
    }
  }

  lemma SortSnoc<T>(s: seq<T>, le: (T, T) -> bool)
    requires s != []
    ensures s == s[..|s| - 1] + [s[|s| - 1]]
    ensures Sort(s, le) == Insert(s[|s| - 1], Sort(s[..|s| - 1], le), le)
  {
  }

  lemma {:induction false} InsertPermutes<T>(x: T, s: seq<T>, le: (T, T) -> bool)
    ensures multiset(Insert(x, s, le)) == multiset(s) + multiset{x}
  {
    if s != [] && le(s[0], x) {
      InsertPermutes(x, s[1..], le);
      assert s == [s[0]] + s[1..];
    }
  }

  /** The result is a permutation of the input. */
  lemma {:induction false} SortPermutes<T>(s: seq<T>, le: (T, T) -> bool)
    ensures multiset(Sort(s, le)) == multiset(s)
  {
    if s != [] {
      SortSnoc(s, le);
      SortPermutes(s[..|s| - 1], le);
      InsertPermutes(s[|s| - 1], Sort(s[..|s| - 1], le), le);
    }
  }

  lemma PeersOne<T>(x: T, le: (T, T) -> bool, c: T)
    ensures Peers([x], le, c) == if Equiv(le, x, c) then [x] else []
  {
    assert [x][1..] == [];
  }

  /** A sequence that is already sorted is left as it is. */
  lemma {:induction false} SortKeepsSorted<T>(s: seq<T>, le: (T, T) -> bool)
    requires Sorted(s, le)
    ensures Sort(s, le) == s
  {
    if s != [] {
      var init, x := s[..|s| - 1], s[|s| - 1];
      SortKeepsSorted(init, le);
      InsertAtEnd(x, init, le);
      assert init + [x] == s;
    }
  }

  lemma {:induction false} InsertAtEnd<T>(x: T, s: seq<T>, le: (T, T) -> bool)
    requires forall k :: 0 <= k < |s| ==> le(s[k], x)
    ensures Insert(x, s, le) == s + [x]
  {
    if s != [] {
      InsertAtEnd(x, s[1..], le);
      assert [s[0]] + (s[1..] + [x]) == s + [x];
    }
  }
}
