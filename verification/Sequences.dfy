/** Sums over sequences and the stable sort that JavaScript's `Array.prototype.sort`
    and the database's `$sort` stage perform. */
module Sequences {

  datatype Option<+T> = None | Some(value: T)

  datatype Result<+T, +E> = Ok(value: T) | Err(error: E)

  // ----- sums ---------------------------------------------------------------

  function Sum<T>(s: seq<T>, f: T -> int): int {
    if s == [] then 0 else f(s[0]) + Sum(s[1..], f)
  }

  lemma {:induction false} SumConcat<T>(s: seq<T>, t: seq<T>, f: T -> int)
    ensures Sum(s + t, f) == Sum(s, f) + Sum(t, f)
  {
    if s == [] {
      assert s + t == t;
    } else {
      assert (s + t)[1..] == s[1..] + t;
      SumConcat(s[1..], t, f);
    }
  }

  function Without<T>(s: seq<T>, i: nat): seq<T>
    requires i < |s|
  {
    s[..i] + s[i + 1..]
  }

  lemma WithoutMultiset<T>(s: seq<T>, i: nat)
    requires i < |s|
    ensures multiset(Without(s, i)) == multiset(s) - multiset{s[i]}
  {
    assert s == s[..i] + [s[i]] + s[i + 1..];
  }

  lemma SumWithout<T>(s: seq<T>, i: nat, f: T -> int)
    requires i < |s|
    ensures Sum(s, f) == f(s[i]) + Sum(Without(s, i), f)
  {
    var front, here, back := s[..i], [s[i]], s[i + 1..];
    assert s == front + (here + back);
    SumConcat(front, here + back, f);
    SumConcat(here, back, f);
    SumConcat(front, back, f);
    assert Sum(here, f) == f(s[i]) + Sum(here[1..], f);
  }

  lemma {:induction false} SumPermutation<T>(s: seq<T>, t: seq<T>, f: T -> int)
    requires multiset(s) == multiset(t)
    ensures Sum(s, f) == Sum(t, f)
    decreases |s|
  {
    if s == [] {
      assert |t| == |multiset(t)| == 0;
    } else {
      assert s[0] in multiset(t);
      var i :| 0 <= i < |t| && t[i] == s[0];
      WithoutMultiset(t, i);
      WithoutMultiset(s, 0);
      SumPermutation(Without(s, 0), Without(t, i), f);
      SumWithout(t, i, f);
      SumWithout(s, 0, f);
    }
  }

  // ----- distinct elements --------------------------------------------------

  ghost predicate Distinct<T>(s: seq<T>) {
    forall i, j | 0 <= i < j < |s| :: s[i] != s[j]
  }

  lemma DistinctAppend<T>(s: seq<T>, t: seq<T>)
    requires Distinct(s) && Distinct(t) && forall x | x in s :: x !in t
    ensures Distinct(s + t)
  {
    forall i, j | 0 <= i < j < |s + t| ensures (s + t)[i] != (s + t)[j] {
      if i < |s| <= j { assert s[i] in s && t[j - |s|] in t; }
    }
  }

  lemma {:induction false} DistinctMultiplicity<T>(s: seq<T>, x: T)
    requires Distinct(s)
    ensures multiset(s)[x] <= 1
  {
    if s != [] {
      DistinctMultiplicity(s[1..], x);
      assert s == [s[0]] + s[1..];
      assert s[0] !in multiset(s[1..]);
    }
  }

  lemma DistinctPermutation<T>(s: seq<T>, t: seq<T>)
    requires multiset(s) == multiset(t)
    requires Distinct(s)
    ensures Distinct(t)
  {
    forall i, j | 0 <= i < j < |t| ensures t[i] != t[j] {
      DistinctMultiplicity(s, t[i]);
      WithoutMultiset(t, i);
      assert Without(t, i)[j - 1] == t[j];
      assert t[j] in multiset(Without(t, i));
    }
  }

  lemma DistinctSameMembers<T>(s: seq<T>, t: seq<T>)
    requires Distinct(s) && Distinct(t)
    requires forall x :: x in s <==> x in t
    ensures multiset(s) == multiset(t)
  {
    forall x ensures multiset(s)[x] == multiset(t)[x] {
      DistinctMultiplicity(s, x);
      DistinctMultiplicity(t, x);
      assert x in s <==> x in multiset(s);
      assert x in t <==> x in multiset(t);
    }
  }

  lemma SetHasMember<T>(s: set<T>)
    ensures s == {} || exists x :: x in s
  {
    if forall x :: x !in s { assert s == {}; }
  }

  lemma SomeMember<T>(s: set<T>) returns (x: T)
    requires s != {}
    ensures x in s
  {
    SetHasMember(s);
    x :| x in s;
  }

  // ----- searching ----------------------------------------------------------

  function IndexOf<T(==)>(s: seq<T>, x: T): (i: nat)
    requires x in s
    ensures i < |s| && s[i] == x && forall j | 0 <= j < i :: s[j] != x
  {
    if s[0] == x then 0 else 1 + IndexOf(s[1..], x)
  }

  // ----- selecting ----------------------------------------------------------

  /** The results of `f` on `s`, in order, leaving out the elements it maps to None. */
  function Collect<T, U>(s: seq<T>, f: T -> Option<U>): seq<U> {
    if s == [] then []
    else (match f(s[0]) case Some(u) => [u] case None => []) + Collect(s[1..], f)
  }

  lemma {:induction false} CollectConcat<T, U>(s: seq<T>, t: seq<T>, f: T -> Option<U>)
    ensures Collect(s + t, f) == Collect(s, f) + Collect(t, f)
  {
    if s == [] {
      assert s + t == t;
    } else {
      assert (s + t)[1..] == s[1..] + t;
      CollectConcat(s[1..], t, f);
    }
  }

  lemma CollectWithout<T, U>(s: seq<T>, i: nat, f: T -> Option<U>)
    requires i < |s|
    ensures multiset(Collect(s, f)) == multiset(Collect([s[i]], f)) + multiset(Collect(Without(s, i), f))
  {
    hide Collect;
    var front, here, back := s[..i], [s[i]], s[i + 1..];
    assert s == front + (here + back);
    CollectConcat(front, here + back, f);
    CollectConcat(here, back, f);
    CollectConcat(front, back, f);
    BagsCommute(Collect(front, f), Collect(here, f), Collect(back, f));
  }

  lemma BagsCommute<T>(a: seq<T>, b: seq<T>, c: seq<T>)
    ensures multiset(a + (b + c)) == multiset(b) + multiset(a + c)
  {
  }

  lemma {:induction false} CollectPermutation<T, U>(s: seq<T>, t: seq<T>, f: T -> Option<U>)
    requires multiset(s) == multiset(t)
    ensures multiset(Collect(s, f)) == multiset(Collect(t, f))
    decreases |s|
  {
    if s == [] {
      assert |t| == |multiset(t)| == 0;
    } else {
      assert s[0] in multiset(t);
      var i :| 0 <= i < |t| && t[i] == s[0];
      WithoutMultiset(t, i);
      WithoutMultiset(s, 0);
      CollectPermutation(Without(s, 0), Without(t, i), f);
      CollectWithout(t, i, f);
      CollectWithout(s, 0, f);
    }
  }

  // ----- stable sort --------------------------------------------------------

  ghost predicate TotalPreorderOn<T>(s: seq<T>, le: (T, T) -> bool) {
    && (forall a, b | a in s && b in s :: le(a, b) || le(b, a))
    && (forall a, b, c | a in s && b in s && c in s :: le(a, b) && le(b, c) ==> le(a, c))
  }

  ghost predicate SortedBy<T>(s: seq<T>, le: (T, T) -> bool) {
    forall i, j | 0 <= i < j < |s| :: le(s[i], s[j])
  }

  function Insert<T>(x: T, s: seq<T>, le: (T, T) -> bool): seq<T> {
    if s == [] || le(x, s[0]) then [x] + s else [s[0]] + Insert(x, s[1..], le)
  }

  /** Stable: an element is put before the elements of equal rank that came after it. */
  function StableSort<T>(s: seq<T>, le: (T, T) -> bool): seq<T> {
    if s == [] then [] else Insert(s[0], StableSort(s[1..], le), le)
  }

  lemma {:induction false} InsertIsPermutation<T>(x: T, s: seq<T>, le: (T, T) -> bool)
    ensures multiset(Insert(x, s, le)) == multiset{x} + multiset(s)
    ensures |Insert(x, s, le)| == 1 + |s|
  {
    if s == [] || le(x, s[0]) {
    } else {
      InsertIsPermutation(x, s[1..], le);
      assert s == [s[0]] + s[1..];
    }
  }

  lemma {:induction false} SortIsPermutation<T>(s: seq<T>, le: (T, T) -> bool)
    ensures multiset(StableSort(s, le)) == multiset(s)
    ensures |StableSort(s, le)| == |s|
  {
    if s != [] {
      SortIsPermutation(s[1..], le);
      InsertIsPermutation(s[0], StableSort(s[1..], le), le);
      assert s == [s[0]] + s[1..];
    }
  }

  lemma SortMember<T>(s: seq<T>, le: (T, T) -> bool, x: T)
    ensures x in StableSort(s, le) <==> x in s
  {
    SortIsPermutation(s, le);
    assert x in StableSort(s, le) <==> x in multiset(StableSort(s, le));
  }

  lemma {:induction false} InsertKeepsSorted<T>(x: T, s: seq<T>, le: (T, T) -> bool)
    requires TotalPreorderOn([x] + s, le)
    requires SortedBy(s, le)
    ensures SortedBy(Insert(x, s, le), le)
  {
    var all := [x] + s;
    assert x in all && forall y | y in s :: y in all;
    if s == [] {
    } else if le(x, s[0]) {
      forall j | 0 <= j < |s| ensures le(x, s[j]) {
        assert s[0] in all && s[j] in all;
      }
    } else {
      var rest := s[1..];
      assert forall y | y in [x] + rest :: y in all;
      InsertKeepsSorted(x, rest, le);
      InsertIsPermutation(x, rest, le);
      var r := Insert(x, rest, le);
      forall j | 0 <= j < |r| ensures le(s[0], r[j]) {
        assert r[j] in multiset(r);
        assert s[0] in all;
        if r[j] != x {
          assert r[j] in multiset(rest);
          var k :| 0 <= k < |rest| && rest[k] == r[j];
          assert s[k + 1] == r[j];
        }
      }
    }
  }

  lemma {:induction false} SortIsSorted<T>(s: seq<T>, le: (T, T) -> bool)
    requires TotalPreorderOn(s, le)
    ensures SortedBy(StableSort(s, le), le)
  {
    if s != [] {
      assert forall y | y in s[1..] :: y in s;
      SortIsSorted(s[1..], le);
      var sorted := StableSort(s[1..], le);
      forall y | y in [s[0]] + sorted ensures y in s {
        SortMember(s[1..], le, y);
      }
      InsertKeepsSorted(s[0], StableSort(s[1..], le), le);
    }
  }

  /** Nothing is ranked before the element at i, and what is ranked level with it comes later. */
  ghost predicate IsFirstLeast<T>(s: seq<T>, le: (T, T) -> bool, i: nat) {
    && i < |s|
    && (forall k | 0 <= k < |s| :: le(s[i], s[k]))
    && forall k | 0 <= k < i :: !le(s[k], s[i])
  }

  lemma {:induction false} SortedHeadIsFirstLeast<T>(s: seq<T>, le: (T, T) -> bool) returns (i: nat)
    requires s != [] && TotalPreorderOn(s, le)
    ensures StableSort(s, le) != [] && IsFirstLeast(s, le, i) && s[i] == StableSort(s, le)[0]
  {
    if |s| == 1 {
      i := 0;
      assert s[0] in s;
    } else {
      assert forall x | x in s[1..] :: x in s;
      var k := SortedHeadIsFirstLeast(s[1..], le);
      assert forall m | 0 <= m < |s[1..]| :: s[1..][m] == s[m + 1];
      assert forall m | 0 <= m < |s| :: s[m] in s;
      if le(s[0], s[k + 1]) {
        i := 0;
        forall m | 0 <= m < |s| ensures le(s[0], s[m]) {
          assert m > 0 ==> le(s[k + 1], s[1..][m - 1]);
        }
      } else {
        i := k + 1;
        forall m | 0 <= m < |s| ensures le(s[i], s[m]) {
          assert m > 0 ==> le(s[k + 1], s[1..][m - 1]);
        }
        forall m | 0 <= m < i ensures !le(s[m], s[i]) {
          assert m > 0 ==> !le(s[1..][m - 1], s[1..][k]);
        }
      }
    }
  }
}
