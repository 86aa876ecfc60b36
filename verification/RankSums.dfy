/** What the Mann-Whitney statistic means, without ranks: counts over pairs of observations.
    The lemmas here connect rank sums to those counts. */
module RankSums {
  import opened Sequences

  // ----- counting values ----------------------------------------------------

  function IsBelow(v: real): real -> int { w => if w < v then 1 else 0 }

  function IsTied(v: real): real -> int { w => if w == v then 1 else 0 }

  /** How many of `s` are smaller than `v`. */
  function Below(s: seq<real>, v: real): int { Sum(s, IsBelow(v)) }

  /** How many of `s` equal `v`. */
  function Tied(s: seq<real>, v: real): int { Sum(s, IsTied(v)) }

  /** How many of `s` are greater than `v`. */
  function Above(s: seq<real>, v: real): int { |s| - Below(s, v) - Tied(s, v) }

  /** The number of pairs (a, b) with x[a] > y[b]. */
  function Wins(x: seq<real>, y: seq<real>): int {
    if x == [] then 0 else Below(y, x[0]) + Wins(x[1..], y)
  }

  /** The number of pairs (a, b) with x[a] == y[b]. */
  function Draws(x: seq<real>, y: seq<real>): int {
    if x == [] then 0 else Tied(y, x[0]) + Draws(x[1..], y)
  }

  lemma {:induction false} CountBounds(s: seq<real>, v: real)
    ensures 0 <= Below(s, v) && 0 <= Tied(s, v) && Below(s, v) + Tied(s, v) <= |s|
  {
    if s != [] { CountBounds(s[1..], v); }
  }

  lemma {:induction false} PairCountBounds(x: seq<real>, y: seq<real>)
    ensures 0 <= Wins(x, y) && 0 <= Draws(x, y)
  {
    if x != [] {
      CountBounds(y, x[0]);
      PairCountBounds(x[1..], y);
    }
  }

  lemma {:induction false} NothingBeatsEmpty(y: seq<real>)
    ensures Wins(y, []) == 0 && Draws(y, []) == 0
  {
    if y != [] { NothingBeatsEmpty(y[1..]); }
  }

  lemma {:induction false} AddOpponent(y: seq<real>, x: seq<real>)
    requires x != []
    ensures Wins(y, x) == Above(y, x[0]) + Wins(y, x[1..])
    ensures Draws(y, x) == Tied(y, x[0]) + Draws(y, x[1..])
  {
    if y != [] { AddOpponent(y[1..], x); }
  }

  /** Every pair is a win for exactly one side or a draw. */
  lemma {:induction false} PairTrichotomy(x: seq<real>, y: seq<real>)
    ensures Wins(x, y) + Wins(y, x) + Draws(x, y) == |x| * |y|
    ensures Draws(x, y) == Draws(y, x)
  {
    if x == [] {
      NothingBeatsEmpty(y);
    } else {
      PairTrichotomy(x[1..], y);
      AddOpponent(y, x);
      assert |x| * |y| == |x[1..]| * |y| + |y|;
    }
  }

  // ----- rank sums ----------------------------------------------------------

  /** Twice the fractional rank of `v` in `all`: the mean position of the values tied with it. */
  function DoubleRank(all: seq<real>): real -> int { v => 2 * Below(all, v) + Tied(all, v) + 1 }

  lemma {:induction false} RankSumSplits(x: seq<real>, u: seq<real>, w: seq<real>)
    ensures Sum(x, DoubleRank(u + w)) == |x| + 2 * Wins(x, u) + Draws(x, u) + 2 * Wins(x, w) + Draws(x, w)
  {
    if x != [] {
      SumConcat(u, w, IsBelow(x[0]));
      SumConcat(u, w, IsTied(x[0]));
      RankSumSplits(x[1..], u, w);
    }
  }

  /** The double rank sum of x in the pooled sample exceeds its least possible value,
      nx(nx + 1), by two for each pair x wins and one for each draw. */
  lemma RankSumIsPairCount(x: seq<real>, y: seq<real>, pooled: seq<real>)
    requires multiset(pooled) == multiset(x + y)
    ensures Sum(x, DoubleRank(pooled)) == |x| * (|x| + 1) + 2 * Wins(x, y) + Draws(x, y)
  {
    RankSumSplits(x, x, y);
    PairTrichotomy(x, x);
    DoubleRankPermutation(x, pooled, x + y);
  }

  lemma {:induction false} DoubleRankPermutation(x: seq<real>, s: seq<real>, t: seq<real>)
    requires multiset(s) == multiset(t)
    ensures Sum(x, DoubleRank(s)) == Sum(x, DoubleRank(t))
  {
    if x != [] {
      SumPermutation(s, t, IsBelow(x[0]));
      SumPermutation(s, t, IsTied(x[0]));
      DoubleRankPermutation(x[1..], s, t);
    }
  }

  /** The fractional ranks of n values sum to n(n + 1)/2, whatever the ties. */
  lemma RanksSumToTriangle(s: seq<real>)
    ensures Sum(s, DoubleRank(s)) == |s| * (|s| + 1)
  {
    RankSumIsPairCount(s, [], s);
    assert s + [] == s;
    NothingBeatsEmpty(s);
  }

  // ----- runs of equal values in a sorted list ------------------------------

  /** Positions lo..hi hold exactly the copies of `v`, as they do in a sorted list. */
  ghost predicate IsRun(s: seq<real>, lo: nat, hi: nat, v: real)
    requires lo <= hi <= |s|
  {
    && (forall k | 0 <= k < lo :: s[k] < v)
    && (forall k | lo <= k < hi :: s[k] == v)
    && (forall k | hi <= k < |s| :: s[k] > v)
  }

  lemma {:induction false} SumConstant(s: seq<real>, f: real -> int, c: int)
    requires forall k | 0 <= k < |s| :: f(s[k]) == c
    ensures Sum(s, f) == c * |s|
  {
    if s != [] {
      assert forall k | 0 <= k < |s[1..]| :: s[1..][k] == s[k + 1];
      SumConstant(s[1..], f, c);
    }
  }

  lemma RunCounts(s: seq<real>, lo: nat, hi: nat, v: real)
    requires lo <= hi <= |s|
    requires IsRun(s, lo, hi, v)
    ensures Below(s, v) == lo && Tied(s, v) == hi - lo
  {
    assert s == s[..lo] + (s[lo..hi] + s[hi..]);
    SumThree(s, lo, hi, IsBelow(v));
    SumThree(s, lo, hi, IsTied(v));
    SumConstant(s[..lo], IsBelow(v), 1);
    SumConstant(s[lo..hi], IsBelow(v), 0);
    SumConstant(s[hi..], IsBelow(v), 0);
    SumConstant(s[..lo], IsTied(v), 0);
    SumConstant(s[lo..hi], IsTied(v), 1);
    SumConstant(s[hi..], IsTied(v), 0);
  }

  lemma SumThree(s: seq<real>, lo: nat, hi: nat, f: real -> int)
    requires lo <= hi <= |s|
    ensures Sum(s, f) == Sum(s[..lo], f) + Sum(s[lo..hi], f) + Sum(s[hi..], f)
  {
    hide Sum;
    var a, b, c := s[..lo], s[lo..hi], s[hi..];
    assert s == a + (b + c);
    SumConcat(a, b + c, f);
    SumConcat(b, c, f);
  }

  // ----- tie correction -----------------------------------------------------

  /** The share of one observation in the tie sum: a group of g equal values
      contributes g * (g*g - 1) == g*g*g - g in all. */
  function TieWeight(all: seq<real>): real -> int { v => Tied(all, v) * Tied(all, v) - 1 }

  /** The sum of g*g*g - g over every group of equal values. */
  function TieSum(all: seq<real>): int { Sum(all, TieWeight(all)) }

  /** `top` is the greatest value of `s`. */
  ghost predicate IsGreatest(s: seq<real>, top: real) {
    top in s && forall v | v in s :: v <= top
  }

  lemma {:induction false} SumBounds(s: seq<real>, f: real -> int, high: int)
    requires forall k | 0 <= k < |s| :: 0 <= f(s[k]) <= high
    ensures 0 <= Sum(s, f) <= |s| * high
  {
    if s != [] {
      assert forall k | 0 <= k < |s[1..]| :: s[1..][k] == s[k + 1];
      SumBounds(s[1..], f, high);
      Distribute(|s| - 1, 1, high);
    }
  }

  lemma Distribute(a: int, b: int, c: int)
    ensures (a + b) * c == a * c + b * c
  {
  }

  lemma Grow(a: nat, b: nat, c: nat)
    requires a <= b
    ensures a * c <= b * c
  {
  }

  lemma TiedPositive(s: seq<real>, v: real)
    requires v in s
    ensures 1 <= Tied(s, v) <= |s|
  {
    var i :| 0 <= i < |s| && s[i] == v;
    SumWithout(s, i, IsTied(v));
    CountBounds(Without(s, i), v);
  }

  /** As TieWeight, but nothing for the values that are not below `top`. */
  function LowTieWeight(all: seq<real>, top: real): real -> int {
    v => if v < top then Tied(all, v) * Tied(all, v) - 1 else 0
  }

  lemma {:induction false} SumAgrees(s: seq<real>, f: real -> int, g: real -> int)
    requires forall k | 0 <= k < |s| :: f(s[k]) == g(s[k])
    ensures Sum(s, f) == Sum(s, g)
  {
    if s != [] {
      assert forall k | 0 <= k < |s[1..]| :: s[1..][k] == s[k + 1];
      SumAgrees(s[1..], f, g);
    }
  }

  function Cube(n: int): int { n * n * n }

  lemma RunTieWeights(s: seq<real>, lo: nat, hi: nat, v: real)
    requires lo <= hi <= |s|
    requires IsRun(s, lo, hi, v)
    ensures Sum(s[lo..hi], TieWeight(s)) == Cube(hi - lo) - (hi - lo)
  {
    RunCounts(s, lo, hi, v);
    var g := hi - lo;
    SumConstant(s[lo..hi], TieWeight(s), g * g - 1);
    assert (g * g - 1) * g == Cube(g) - g;
  }

  /** The runs before the last one of a sorted list carry all of the tie sum below the top. */
  lemma PrefixTieWeights(s: seq<real>, lo: nat, top: real)
    requires lo <= |s| && IsRun(s, lo, |s|, top)
    ensures Sum(s[..lo], TieWeight(s)) == Sum(s, LowTieWeight(s, top))
  {
    SumAgrees(s[..lo], TieWeight(s), LowTieWeight(s, top));
    SumConstant(s[lo..], LowTieWeight(s, top), 0);
    assert s == s[..lo] + s[lo..];
    SumConcat(s[..lo], s[lo..], LowTieWeight(s, top));
  }

  /** Leaving out the group of the greatest value keeps the tie sum strictly below n*n*n - n. */
  lemma LowTieSumBounds(s: seq<real>, top: real)
    requires top in s
    ensures 0 <= Sum(s, LowTieWeight(s, top))
    ensures |s| >= 2 ==> Sum(s, LowTieWeight(s, top)) < Cube(|s|) - |s|
  {
    hide Sum, Tied;
    var f := LowTieWeight(s, top);
    var i :| 0 <= i < |s| && s[i] == top;
    var rest := Without(s, i);
    SumWithout(s, i, f);
    forall k | 0 <= k < |rest| ensures 0 <= f(rest[k]) <= |s| * |s| - 1 {
      assert rest[k] == s[if k < i then k else k + 1];
      WeightBounds(s, rest[k]);
    }
    SumBounds(rest, f, |s| * |s| - 1);
    CubeBound(|s|);
  }

  lemma CubeBound(n: nat)
    requires n >= 1
    ensures n >= 2 ==> (n - 1) * (n * n - 1) < Cube(n) - n
  {
    if n >= 2 {
      Grow(2, n, n);
      Distribute(n, -1, n * n - 1);
    }
  }

  lemma WeightBounds(s: seq<real>, v: real)
    requires v in s
    ensures 0 <= Tied(s, v) * Tied(s, v) - 1 <= |s| * |s| - 1
  {
    TiedPositive(s, v);
    var g := Tied(s, v);
    Grow(1, g, g);
    Grow(g, |s|, g);
    Grow(g, |s|, |s|);
  }

  lemma {:induction false} TieSumSplits(obs: seq<real>, all: seq<real>, top: real)
    requires forall k | 0 <= k < |obs| :: obs[k] <= top
    ensures Sum(obs, TieWeight(all)) == Sum(obs, LowTieWeight(all, top)) + Tied(obs, top) * TieWeight(all)(top)
  {
    if obs != [] {
      assert forall k | 0 <= k < |obs[1..]| :: obs[1..][k] == obs[k + 1];
      TieSumSplits(obs[1..], all, top);
      Distribute(if obs[0] == top then 1 else 0, Tied(obs[1..], top), TieWeight(all)(top));
    }
  }
}
