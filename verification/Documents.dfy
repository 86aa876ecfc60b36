/** The query stages the code uses on a collection: match, sort by creation time descending,
    group with `$first`, and the laws that relate them. A collection is a sequence of documents
    in insertion order. */
module Documents {
  import opened Sequences

  function Filter<T>(s: seq<T>, p: T -> bool): (r: seq<T>) {
    if s == [] then []
    else if p(s[0]) then [s[0]] + Filter(s[1..], p)
    else Filter(s[1..], p)
  }

  function Map<T, U>(s: seq<T>, f: T -> U): (r: seq<U>)
    ensures |r| == |s| && forall i | 0 <= i < |s| :: r[i] == f(s[i])
  {
    seq(|s|, i requires 0 <= i < |s| => f(s[i]))
  }

  predicate HasKey<T, K(==)>(s: seq<T>, key: T -> K, k: K) {
    exists i | 0 <= i < |s| :: key(s[i]) == k
  }

  /** The first document of every key, in order of first appearance. */
  function FirstPer<T, K(==)>(s: seq<T>, key: T -> K): seq<T> {
    if s == [] then []
    else
      var front, last := s[..|s| - 1], s[|s| - 1];
      FirstPer(front, key) + if HasKey(front, key, key(last)) then [] else [last]
  }

  function NewerFirst<T>(time: T -> int): (T, T) -> bool { (a, b) => time(a) >= time(b) }

  /** Sort by time descending, then keep the first document of every key. */
  function LatestPer<T, K(==)>(docs: seq<T>, key: T -> K, time: T -> int): seq<T> {
    FirstPer(StableSort(docs, NewerFirst(time)), key)
  }

  // ----- filtering ----------------------------------------------------------

  lemma {:induction false} FilterConcat<T>(s: seq<T>, t: seq<T>, p: T -> bool)
    ensures Filter(s + t, p) == Filter(s, p) + Filter(t, p)
  {
    if s == [] {
      assert s + t == t;
    } else {
      assert (s + t)[1..] == s[1..] + t;
      FilterConcat(s[1..], t, p);
    }
  }

  lemma {:induction false} FilterMember<T>(s: seq<T>, p: T -> bool, x: T)
    ensures x in Filter(s, p) <==> x in s && p(x)
  {
    if s != [] { FilterMember(s[1..], p, x); }
  }

  lemma {:induction false} FilterAgrees<T>(s: seq<T>, p: T -> bool, q: T -> bool)
    requires forall i | 0 <= i < |s| :: p(s[i]) == q(s[i])
    ensures Filter(s, p) == Filter(s, q)
  {
    if s != [] {
      assert forall i | 0 <= i < |s[1..]| :: s[1..][i] == s[i + 1];
      FilterAgrees(s[1..], p, q);
    }
  }

  lemma {:induction false} FilterNone<T>(s: seq<T>, p: T -> bool)
    requires forall i | 0 <= i < |s| :: !p(s[i])
    ensures Filter(s, p) == []
  {
    if s != [] {
      assert forall i | 0 <= i < |s[1..]| :: s[1..][i] == s[i + 1];
      FilterNone(s[1..], p);
    }
  }

  /** A filter can be run after one that is weaker. */
  lemma {:induction false} FilterNarrow<T>(s: seq<T>, wide: T -> bool, p: T -> bool)
    requires forall i | 0 <= i < |s| :: p(s[i]) ==> wide(s[i])
    ensures Filter(Filter(s, wide), p) == Filter(s, p)
  {
    if s != [] {
      assert forall i | 0 <= i < |s[1..]| :: s[1..][i] == s[i + 1];
      FilterNarrow(s[1..], wide, p);
    }
  }

  /** Rewriting documents commutes with a filter whose verdict it keeps. */
  lemma {:induction false} FilterMap<T, U>(s: seq<T>, f: T -> U, p: U -> bool, q: T -> bool)
    requires forall i | 0 <= i < |s| :: p(f(s[i])) == q(s[i])
    ensures Filter(Map(s, f), p) == Map(Filter(s, q), f)
  {
    if s != [] {
      assert forall i | 0 <= i < |s[1..]| :: s[1..][i] == s[i + 1];
      FilterMap(s[1..], f, p, q);
      assert Map(s, f)[1..] == Map(s[1..], f);
    }
  }

  lemma {:induction false} FilterDistinct<T>(s: seq<T>, p: T -> bool)
    requires Distinct(s)
    ensures Distinct(Filter(s, p))
  {
    if s != [] {
      FilterDistinct(s[1..], p);
      var r := Filter(s[1..], p);
      forall i | 0 <= i < |r| ensures r[i] != s[0] {
        FilterMember(s[1..], p, r[i]);
      }
    }
  }

  // ----- the latest document of every key -----------------------------------

  /** A document is kept exactly when no earlier document has its key. */
  lemma {:induction false} FirstPerMember<T, K>(s: seq<T>, key: T -> K, d: T)
    ensures d in FirstPer(s, key)
       <==> exists i | 0 <= i < |s| :: s[i] == d && !HasKey(s[..i], key, key(d))
  {
    if s != [] {
      var n := |s| - 1;
      var front, last := s[..n], s[n];
      FirstPerMember(front, key, d);
      assert forall i | 0 <= i <= n :: front[..i] == s[..i];
      assert s[..n] == front;
      if d in FirstPer(s, key) {
        if d in FirstPer(front, key) {
          var i :| 0 <= i < n && front[i] == d && !HasKey(front[..i], key, key(d));
          assert s[i] == d && !HasKey(s[..i], key, key(d));
        } else {
          assert s[n] == d && !HasKey(s[..n], key, key(d));
        }
      }
      if i :| 0 <= i < |s| && s[i] == d && !HasKey(s[..i], key, key(d)) {
        if i < n {
          assert front[i] == d && !HasKey(front[..i], key, key(d));
        }
      }
    }
  }

  lemma {:induction false} FirstPerKeys<T, K>(s: seq<T>, key: T -> K)
    ensures forall k :: HasKey(FirstPer(s, key), key, k) <==> HasKey(s, key, k)
    ensures Distinct(Map(FirstPer(s, key), key))
  {
    if s != [] {
      var n := |s| - 1;
      var front, last := s[..n], s[n];
      FirstPerKeys(front, key);
      var kept, r := FirstPer(front, key), FirstPer(s, key);
      forall k ensures HasKey(r, key, k) <==> HasKey(s, key, k) {
        HasKeyConcat(kept, if HasKey(front, key, key(last)) then [] else [last], key, k);
        HasKeyConcat(front, [last], key, k);
        assert s == front + [last];
      }
      if !HasKey(front, key, key(last)) {
        assert !HasKey(kept, key, key(last));
        assert forall i | 0 <= i < |kept| :: Map(r, key)[i] == Map(kept, key)[i];
      }
    }
  }

  lemma HasKeyConcat<T, K>(s: seq<T>, t: seq<T>, key: T -> K, k: K)
    ensures HasKey(s + t, key, k) <==> HasKey(s, key, k) || HasKey(t, key, k)
  {
    if i :| 0 <= i < |s| && key(s[i]) == k { assert key((s + t)[i]) == k; }
    if i :| 0 <= i < |t| && key(t[i]) == k { assert key((s + t)[|s| + i]) == k; }
  }

  /** No two documents of one key have the same creation time. */
  ghost predicate DistinctTimes<T, K>(docs: seq<T>, key: T -> K, time: T -> int) {
    forall i, j | 0 <= i < j < |docs| && key(docs[i]) == key(docs[j]) :: time(docs[i]) != time(docs[j])
  }

  ghost predicate IsLatest<T, K>(docs: seq<T>, key: T -> K, time: T -> int, d: T) {
    d in docs && forall e | e in docs && key(e) == key(d) :: time(e) <= time(d)
  }

  ghost predicate NeverOlderFirst<T>(s: seq<T>, time: T -> int) {
    forall i, j | 0 <= i < j < |s| :: time(s[i]) >= time(s[j])
  }

  lemma SortedNewerFirst<T>(docs: seq<T>, time: T -> int)
    ensures NeverOlderFirst(StableSort(docs, NewerFirst(time)), time)
  {
    SortIsSorted(docs, NewerFirst(time));
    var s := StableSort(docs, NewerFirst(time));
    forall i, j | 0 <= i < j < |s| ensures time(s[i]) >= time(s[j]) {
      assert NewerFirst(time)(s[i], s[j]);
    }
  }

  lemma SortKeepsTimesDistinct<T, K>(docs: seq<T>, key: T -> K, time: T -> int)
    requires DistinctTimes(docs, key, time)
    ensures DistinctTimes(StableSort(docs, NewerFirst(time)), key, time)
  {
    var s := StableSort(docs, NewerFirst(time));
    SortIsPermutation(docs, NewerFirst(time));
    assert Distinct(docs);
    DistinctPermutation(docs, s);
    forall i, j | 0 <= i < j < |s| && key(s[i]) == key(s[j]) ensures time(s[i]) != time(s[j]) {
      SortMember(docs, NewerFirst(time), s[i]);
      SortMember(docs, NewerFirst(time), s[j]);
      var a :| 0 <= a < |docs| && docs[a] == s[i];
      var b :| 0 <= b < |docs| && docs[b] == s[j];
    }
  }

  lemma LatestIsFirst<T, K>(s: seq<T>, key: T -> K, time: T -> int, i: nat)
    requires i < |s| && NeverOlderFirst(s, time) && DistinctTimes(s, key, time)
    ensures IsLatest(s, key, time, s[i]) <==> !HasKey(s[..i], key, key(s[i]))
  {
    if HasKey(s[..i], key, key(s[i])) {
      var j :| 0 <= j < i && key(s[..i][j]) == key(s[i]);
      assert s[j] in s && time(s[j]) >= time(s[i]) && time(s[j]) != time(s[i]);
    } else {
      forall j | 0 <= j < i ensures key(s[j]) != key(s[i]) {
        assert s[..i][j] == s[j];
      }
      forall e | e in s && key(e) == key(s[i]) ensures time(e) <= time(s[i]) {
        var j :| 0 <= j < |s| && s[j] == e;
        assert i <= j;
      }
    }
  }

  lemma FirstOfSorted<T, K>(s: seq<T>, key: T -> K, time: T -> int, d: T)
    requires NeverOlderFirst(s, time) && DistinctTimes(s, key, time)
    ensures d in FirstPer(s, key) <==> IsLatest(s, key, time, d)
  {
    FirstPerMember(s, key, d);
    forall i | 0 <= i < |s| ensures IsLatest(s, key, time, s[i]) <==> !HasKey(s[..i], key, key(s[i])) {
      LatestIsFirst(s, key, time, i);
    }
    hide NeverOlderFirst, DistinctTimes, HasKey, FirstPer;
    if IsLatest(s, key, time, d) {
      var i :| 0 <= i < |s| && s[i] == d;
      assert !HasKey(s[..i], key, key(d));
    }
  }

  /** With distinct creation times in every key the read keeps exactly the newest document of every key. */
  lemma LatestPerMember<T, K>(docs: seq<T>, key: T -> K, time: T -> int, d: T)
    requires DistinctTimes(docs, key, time)
    ensures d in LatestPer(docs, key, time) <==> IsLatest(docs, key, time, d)
  {
    var s := StableSort(docs, NewerFirst(time));
    SortedNewerFirst(docs, time);
    SortKeepsTimesDistinct(docs, key, time);
    FirstOfSorted(s, key, time, d);
    LatestAfterSort(docs, key, time, d);
  }

  lemma LatestAfterSort<T, K>(docs: seq<T>, key: T -> K, time: T -> int, d: T)
    ensures IsLatest(StableSort(docs, NewerFirst(time)), key, time, d) <==> IsLatest(docs, key, time, d)
  {
    var s := StableSort(docs, NewerFirst(time));
    SortMember(docs, NewerFirst(time), d);
    if IsLatest(s, key, time, d) {
      forall e | e in docs && key(e) == key(d) ensures time(e) <= time(d) {
        SortMember(docs, NewerFirst(time), e);
      }
    }
    if IsLatest(docs, key, time, d) {
      forall e | e in s && key(e) == key(d) ensures time(e) <= time(d) {
        SortMember(docs, NewerFirst(time), e);
      }
    }
  }

  /** The read returns one document per key that occurs. */
  lemma LatestPerKeys<T, K>(docs: seq<T>, key: T -> K, time: T -> int)
    ensures Distinct(Map(LatestPer(docs, key, time), key))
  {
    FirstPerKeys(StableSort(docs, NewerFirst(time)), key);
  }

  // ----- rewriting documents ------------------------------------------------

  lemma {:induction false} InsertMap<T>(x: T, s: seq<T>, f: T -> T, le: (T, T) -> bool)
    requires forall a, b | a in [x] + s && b in [x] + s :: le(f(a), f(b)) == le(a, b)
    ensures Insert(f(x), Map(s, f), le) == Map(Insert(x, s, le), f)
  {
    if s != [] {
      assert x in [x] + s && s[0] in [x] + s;
      if !le(x, s[0]) {
        assert forall y | y in [x] + s[1..] :: y in [x] + s;
        InsertMap(x, s[1..], f, le);
        assert Map(s, f)[1..] == Map(s[1..], f);
      }
    }
  }

  lemma {:induction false} SortMap<T>(s: seq<T>, f: T -> T, le: (T, T) -> bool)
    requires forall a, b | a in s && b in s :: le(f(a), f(b)) == le(a, b)
    ensures StableSort(Map(s, f), le) == Map(StableSort(s, le), f)
  {
    if s != [] {
      assert forall y | y in s[1..] :: y in s;
      SortMap(s[1..], f, le);
      assert Map(s, f)[1..] == Map(s[1..], f);
      var r := StableSort(s[1..], le);
      forall y | y in [s[0]] + r ensures y in s { SortMember(s[1..], le, y); }
      InsertMap(s[0], r, f, le);
    }
  }

  lemma {:induction false} FirstPerMap<T, K>(s: seq<T>, f: T -> T, key: T -> K)
    requires forall i | 0 <= i < |s| :: key(f(s[i])) == key(s[i])
    ensures FirstPer(Map(s, f), key) == Map(FirstPer(s, key), f)
  {
    if s != [] {
      var n := |s| - 1;
      FirstPerMap(s[..n], f, key);
      assert Map(s, f)[..n] == Map(s[..n], f);
      var front, k := s[..n], key(s[n]);
      assert HasKey(Map(front, f), key, k) <==> HasKey(front, key, k) by {
        if i :| 0 <= i < n && key(front[i]) == k { assert key(Map(front, f)[i]) == k; }
        if i :| 0 <= i < n && key(Map(front, f)[i]) == k { assert key(front[i]) == k; }
      }
    }
  }

  /** Rewriting that keeps keys and times commutes with the read. */
  lemma LatestPerMap<T, K>(docs: seq<T>, f: T -> T, key: T -> K, time: T -> int)
    requires forall i | 0 <= i < |docs| :: key(f(docs[i])) == key(docs[i]) && time(f(docs[i])) == time(docs[i])
    ensures LatestPer(Map(docs, f), key, time) == Map(LatestPer(docs, key, time), f)
  {
    var le := NewerFirst(time);
    forall a, b | a in docs && b in docs ensures le(f(a), f(b)) == le(a, b) {
    }
    SortMap(docs, f, le);
    var s := StableSort(docs, le);
    forall i | 0 <= i < |s| ensures key(f(s[i])) == key(s[i]) {
      SortMember(docs, le, s[i]);
    }
    FirstPerMap(s, f, key);
  }
}
