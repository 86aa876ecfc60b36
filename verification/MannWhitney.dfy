/** The rank statistic of `tools.ts`: entries are sorted in place, their ranks are rewritten in
    place to tie averages, and the rank sums give U by a closed form. Numbers are `real`. */
module MannWhitney {
  import opened Sequences
  import opened RankSums

  datatype Sample = X | Y

  class Entry {
    const group: Sample
    const val: real
    var rank: real

    constructor (group: Sample, val: real)
      ensures this.group == group && this.val == val
    {
      this.group, this.val, this.rank := group, val, 0.0;
    }
  }

  function EntryLe(a: Entry, b: Entry): bool { a.val <= b.val }

  function ValueOf(): Entry -> Option<real> { (e: Entry) => Some(e.val) }

  function ValueIn(g: Sample): Entry -> Option<real> {
    (e: Entry) => if e.group == g then Some(e.val) else None
  }

  /** The values of the entries, in order. */
  function Values(es: seq<Entry>): (vals: seq<real>)
    ensures |vals| == |es|
    ensures forall k | 0 <= k < |es| :: vals[k] == es[k].val
  {
    CollectValues(es);
    Collect(es, ValueOf())
  }

  /** The values of the entries of one sample, in order. */
  function ValuesIn(es: seq<Entry>, g: Sample): seq<real> { Collect(es, ValueIn(g)) }

  lemma {:induction false} CollectValues(es: seq<Entry>)
    ensures |Collect(es, ValueOf())| == |es|
    ensures forall k | 0 <= k < |es| :: Collect(es, ValueOf())[k] == es[k].val
  {
    if es != [] { CollectValues(es[1..]); }
  }

  // ----- ranking ------------------------------------------------------------

  ghost predicate AscendingEntries(es: seq<Entry>) {
    forall i, j | 0 <= i < j < |es| :: es[i].val <= es[j].val
  }

  ghost predicate HasNaiveRanks(es: seq<Entry>)
    reads es
  {
    forall k | 0 <= k < |es| :: es[k].rank == (k + 1) as real
  }

  ghost predicate HasFractionalRanks(es: seq<Entry>)
    reads es
  {
    forall k | 0 <= k < |es| :: es[k].rank == FractionalRank(Values(es), es[k].val)
  }

  function HalfOf(n: int): real { n as real / 2.0 }

  /** The number of smaller values plus half of one more than the number of equal values. */
  function FractionalRank(vals: seq<real>, v: real): real { HalfOf(DoubleRank(vals)(v)) }

  /** Sorts the entries by value and numbers them 1, 2, ... in that order. */
  method Standard(a: array<Entry>)
    requires Distinct(a[..])
    modifies a, a[..]
    ensures multiset(a[..]) == old(multiset(a[..]))
    ensures Distinct(a[..]) && AscendingEntries(a[..])
    ensures HasNaiveRanks(a[..])
  {
    ghost var before := a[..];
    SortEntries(a);
    DistinctPermutation(before, a[..]);
    forall k | 0 <= k < a.Length ensures a[k] in before {
      assert a[k] in multiset(a[..]);
    }
    AssignNaiveRanks(a[..]);
  }

  method AssignNaiveRanks(es: seq<Entry>)
    requires Distinct(es)
    modifies es
    ensures HasNaiveRanks(es)
  {
    for i := 1 to |es| + 1
      invariant forall k | 0 <= k < i - 1 :: es[k].rank == (k + 1) as real
    {
      es[i - 1].rank := i as real;
    }
  }

  /** The library's stable in-place sort. */
  method SortEntries(a: array<Entry>)
    modifies a
    ensures a[..] == StableSort(old(a[..]), EntryLe)
    ensures multiset(a[..]) == old(multiset(a[..]))
    ensures AscendingEntries(a[..])
  {
    var sorted := StableSort(a[..], EntryLe);
    SortIsPermutation(a[..], EntryLe);
    SortIsSorted(a[..], EntryLe);
    forall i | 0 <= i < a.Length { a[i] := sorted[i]; }
    assert a[..] == sorted;
    forall i, j | 0 <= i < j < a.Length ensures a[i].val <= a[j].val {
      assert EntryLe(sorted[i], sorted[j]);
    }
  }

  /** Sorts, numbers, and gives tied entries the mean of their numbers. */
  method Fractional(a: array<Entry>)
    requires Distinct(a[..])
    modifies a, a[..]
    ensures multiset(a[..]) == old(multiset(a[..]))
    ensures AscendingEntries(a[..])
    ensures HasFractionalRanks(a[..])
  {
    ghost var before := a[..];
    Standard(a);
    forall k | 0 <= k < a.Length ensures a[k] in before {
      assert a[k] in multiset(a[..]);
    }
    AverageTies(a[..]);
  }

  method AverageTies(es: seq<Entry>)
    requires Distinct(es) && AscendingEntries(es)
    requires HasNaiveRanks(es)
    modifies es
    ensures HasFractionalRanks(es)
  {
    hide Values, FractionalRank;
    ghost var target := seq(|es|, k requires 0 <= k < |es| => FractionalRank(Values(es), es[k].val));
    var pos := 0;
    while pos < |es|
      invariant 0 <= pos <= |es|
      invariant forall k | 0 <= k < pos :: es[k].rank == target[k]
      invariant forall k | pos <= k < |es| :: es[k].rank == (k + 1) as real
      invariant 0 < pos < |es| ==> es[pos - 1].val < es[pos].val
    {
      var sum, i := SumRun(es, pos);
      var endPos := pos + i + 1;
      RunRanks(es, pos, endPos);
      MeanRank(pos, i + 1);
      SetRanks(es, pos, endPos, sum / (i + 1) as real);
      pos := endPos;
    }
  }

  method SetRanks(es: seq<Entry>, start: nat, end: nat, mean: real)
    requires Distinct(es)
    requires start <= end <= |es|
    modifies es
    ensures forall k | 0 <= k < |es| :: es[k].rank == if start <= k < end then mean else old(es[k].rank)
  {
    var pos := start;
    while pos < end
      invariant start <= pos <= end
      invariant forall k | 0 <= k < |es| :: es[k].rank == if start <= k < pos then mean else old(es[k].rank)
    {
      es[pos].rank := mean;
      pos := pos + 1;
    }
  }

  /** Adds up the ranks of the run of equal values at `pos`; the run is pos..pos + i + 1. */
  method SumRun(es: seq<Entry>, pos: nat) returns (sum: real, i: nat)
    requires pos < |es| && AscendingEntries(es)
    requires forall k | pos <= k < |es| :: es[k].rank == (k + 1) as real
    ensures pos + i + 1 <= |es|
    ensures forall k | pos <= k <= pos + i :: es[k].val == es[pos].val
    ensures pos + i + 1 < |es| ==> es[pos].val < es[pos + i + 1].val
    ensures sum == NaiveSum(pos, i + 1) as real
  {
    sum, i := 0.0, 0;
    while pos + i + 1 < |es| && es[pos + i].val == es[pos + i + 1].val
      invariant pos + i < |es|
      invariant forall k | pos <= k <= pos + i :: es[k].val == es[pos].val
      invariant sum == NaiveSum(pos, i) as real
    {
      sum := sum + es[pos + i].rank;
      i := i + 1;
    }
    sum := sum + es[pos + i].rank;
  }

  /** In a sorted list the members of a run have the middle rank of the run. */
  lemma RunRanks(es: seq<Entry>, start: nat, end: nat)
    requires start < end <= |es| && AscendingEntries(es)
    requires forall k | start <= k < end :: es[k].val == es[start].val
    requires start > 0 ==> es[start - 1].val < es[start].val
    requires end < |es| ==> es[start].val < es[end].val
    ensures forall k | start <= k < end :: FractionalRank(Values(es), es[k].val) == HalfOf(start + end + 1)
  {
    assert IsRun(Values(es), start, end, es[start].val);
    RunCounts(Values(es), start, end, es[start].val);
  }

  /** The sum of the n naive ranks start + 1, ..., start + n. */
  function NaiveSum(start: nat, n: nat): int {
    if n == 0 then 0 else NaiveSum(start, n - 1) + start + n
  }

  lemma {:induction false} NaiveSumClosed(start: nat, n: nat)
    ensures 2 * NaiveSum(start, n) == n * (start + (start + n) + 1)
  {
    if n > 0 { NaiveSumClosed(start, n - 1); }
  }

  lemma MeanRank(start: nat, n: nat)
    requires n > 0
    ensures NaiveSum(start, n) as real / n as real == HalfOf(start + (start + n) + 1)
  {
    NaiveSumClosed(start, n);
    MeanOfDouble(NaiveSum(start, n), n, start + (start + n) + 1);
  }

  lemma MeanOfDouble(sum: int, n: int, m: int)
    requires n > 0 && 2 * sum == n * m
    ensures sum as real / n as real == HalfOf(m)
  {
    ProductAsReal(n, m);
    QuotientOfProduct(n as real, HalfOf(m));
  }

  lemma ProductAsReal(n: int, m: int)
    ensures (n * m) as real == n as real * m as real
  {
  }

  lemma QuotientOfProduct(n: real, h: real)
    requires n != 0.0
    ensures n * h / n == h
  {
  }

  // ----- pooling the two samples --------------------------------------------

  /** The entries of sample g hold exactly the values of x. */
  ghost predicate Holds(es: seq<Entry>, g: Sample, x: seq<real>) {
    multiset(ValuesIn(es, g)) == multiset(x)
  }

  lemma HoldsPush(es: seq<Entry>, g: Sample, x: seq<real>, e: Entry)
    requires Holds(es, g, x)
    ensures e.group == g ==> Holds(es + [e], g, [e.val] + x)
    ensures e.group != g ==> Holds(es + [e], g, x)
  {
    CollectConcat(es, [e], ValueIn(g));
    var own := ValuesIn(es, g);
    if e.group == g {
      assert ValuesIn(es + [e], g) == own + [e.val];
      assert multiset(own + [e.val]) == multiset(own) + multiset{e.val};
    } else {
      assert ValuesIn(es + [e], g) == own;
    }
  }

  lemma HoldsPermutation(s: seq<Entry>, t: seq<Entry>, g: Sample, x: seq<real>)
    requires multiset(s) == multiset(t) && Holds(s, g, x)
    ensures Holds(t, g, x)
  {
    CollectPermutation(s, t, ValueIn(g));
  }

  lemma {:induction false} SamplesMakeUpAll(es: seq<Entry>)
    ensures multiset(Values(es)) == multiset(ValuesIn(es, X)) + multiset(ValuesIn(es, Y))
  {
    if es != [] {
      SamplesMakeUpAll(es[1..]);
      assert Values(es) == [es[0].val] + Values(es[1..]);
    }
  }

  function Other(g: Sample): Sample { if g == X then Y else X }

  /** Pushes the values of one sample from last to first. */
  method PushSample(list: seq<Entry>, g: Sample, values: seq<real>) returns (r: seq<Entry>)
    requires Distinct(list) && Holds(list, g, [])
    ensures Distinct(r)
    ensures forall e | e in r :: e in list || fresh(e)
    ensures Holds(r, g, values)
    ensures ValuesIn(r, Other(g)) == ValuesIn(list, Other(g))
  {
    hide Collect, ValuesIn;
    r := list;
    var n := |values|;
    assert values[n..] == [];
    while n > 0
      invariant 0 <= n <= |values|
      invariant Distinct(r)
      invariant forall e | e in r :: e in list || fresh(e)
      invariant Holds(r, g, values[n..])
      invariant ValuesIn(r, Other(g)) == ValuesIn(list, Other(g))
    {
      n := n - 1;
      var e := new Entry(g, values[n]);
      HoldsPush(r, g, values[n + 1..], e);
      OtherPush(r, e);
      assert values[n..] == [values[n]] + values[n + 1..];
      r := r + [e];
    }
    assert values[0..] == values;
  }

  lemma OtherPush(es: seq<Entry>, e: Entry)
    ensures ValuesIn(es + [e], Other(e.group)) == ValuesIn(es, Other(e.group))
  {
    CollectConcat(es, [e], ValueIn(Other(e.group)));
  }

  lemma NothingHeld()
    ensures forall g :: Holds([], g, []) && ValuesIn([], g) == []
  {
  }

  method Rank(x: seq<real>, y: seq<real>) returns (ranked: array<Entry>)
    ensures Holds(ranked[..], X, x) && Holds(ranked[..], Y, y)
    ensures AscendingEntries(ranked[..])
    ensures HasFractionalRanks(ranked[..])
  {
    hide Collect, ValuesIn, Values, AscendingEntries, FractionalRank;
    NothingHeld();
    var combined := PushSample([], X, x);
    combined := PushSample(combined, Y, y);
    assert Holds(combined, X, x) && Holds(combined, Y, y);
    ranked := new Entry[|combined|](i requires 0 <= i < |combined| => combined[i]);
    assert ranked[..] == combined;
    forall k | 0 <= k < ranked.Length ensures fresh(ranked[k]) {
      assert ranked[k] in combined;
    }
    Fractional(ranked);
    HoldsPermutation(combined, ranked[..], X, x);
    HoldsPermutation(combined, ranked[..], Y, y);
  }

  // ----- the statistic ------------------------------------------------------

  /** `tcf` is None where the division 0/0 makes it NaN. */
  datatype Statistic = Statistic(tcf: Option<real>, ux: real, uy: real, big: real, small: real)

  /** Pairs won by x, a draw counting one half. */
  function PairScore(x: seq<real>, y: seq<real>): real { HalfOf(2 * Wins(x, y) + Draws(x, y)) }

  function Greatest(s: seq<real>): real
    requires s != []
  {
    if |s| == 1 || s[0] >= Greatest(s[1..]) then s[0] else Greatest(s[1..])
  }

  lemma {:induction false} GreatestIsGreatest(s: seq<real>)
    requires s != []
    ensures IsGreatest(s, Greatest(s))
  {
    if |s| > 1 {
      GreatestIsGreatest(s[1..]);
      assert s == [s[0]] + s[1..];
    }
  }

  /** The tie sum over the groups below the greatest value. */
  function TieSumBelowTop(all: seq<real>): int {
    if all == [] then 0 else Sum(all, LowTieWeight(all, Greatest(all)))
  }

  function TieFactor(tieSum: int, n: int): Option<real> {
    if Cube(n) - n == 0 then None else Some(1.0 - tieSum as real / (Cube(n) - n) as real)
  }

  function ExpectedStatistic(x: seq<real>, y: seq<real>): Statistic {
    var ux, uy := PairScore(y, x), PairScore(x, y);
    Statistic(TieFactor(TieSumBelowTop(x + y), |x| + |y|), ux, uy,
              if ux > uy then ux else uy, if ux < uy then ux else uy)
  }

  method ComputeStatistic(x: seq<real>, y: seq<real>) returns (r: Statistic)
    ensures r == ExpectedStatistic(x, y)
  {
    hide Wins, Draws, TieSumBelowTop, AscendingEntries, Values, ValuesIn;
    hide Collect, Sum, HasFractionalRanks, LeavesOutLastRun, Holds, PairScore;
    var ranked := Rank(x, y);
    ghost var es := ranked[..];
    var nr, nx, ny := ranked.Length, |x|, |y|;
    var ranksumX, ranksumY, t := SumRanksAndTies(ranked);
    LengthsAdd(es, x, y);
    RankSumOfX(es, x, y);
    TiesOfPool(es, x, y, t);
    ClosedForm(x, y, ranksumX);
    var tcf := if nr * nr * nr - nr == 0 then None else Some(1.0 - t as real / (nr * nr * nr - nr) as real);
    var ux := (nx * ny) as real + (nx * (nx + 1)) as real / 2.0 - ranksumX;
    var uy := (nx * ny) as real - ux;
    r := Statistic(tcf, ux, uy, if ux > uy then ux else uy, if ux < uy then ux else uy);
  }

  /** The loop over the ranked entries: rank sums of the two samples, and the tie sum t. */
  method SumRanksAndTies(ranked: array<Entry>) returns (ranksumX: real, ranksumY: real, t: int)
    requires AscendingEntries(ranked[..]) && HasFractionalRanks(ranked[..])
    ensures ranksumX == HalfOf(Sum(ValuesIn(ranked[..], X), DoubleRank(Values(ranked[..]))))
    ensures ranksumY == HalfOf(Sum(ValuesIn(ranked[..], Y), DoubleRank(Values(ranked[..]))))
    ensures LeavesOutLastRun(ranked[..], t)
  {
    hide ClosedRuns, Collect, Values, ValuesIn, AscendingEntries;
    ghost var es := ranked[..];
    var nr := ranked.Length;
    BeforeFirst(es);
    ranksumX, ranksumY := 0.0, 0.0;
    var i, nt := 0, 1;
    t := 0;
    while i < nr
      invariant 0 <= i <= nr
      invariant ranksumX == HalfOf(Sum(ValuesIn(es[..i], X), DoubleRank(Values(es))))
      invariant ranksumY == HalfOf(Sum(ValuesIn(es[..i], Y), DoubleRank(Values(es))))
      invariant i == 0 ==> t == 0 && nt == 1
      invariant i > 0 ==> ClosedRuns(es, i, nt, t)
    {
      if i > 0 {
        if ranked[i].val == ranked[i - 1].val {
          ExtendRun(es, i, nt, t);
          nt := nt + 1;
        } else {
          CloseRun(es, i, nt, t);
          if nt > 1 {
            t := t + Cube(nt) - nt;
            nt := 1;
          }
        }
      } else {
        FirstRun(es);
      }
      AddRank(es, i, X);
      AddRank(es, i, Y);
      if ranked[i].group == X {
        ranksumX := ranksumX + ranked[i].rank;
      } else {
        ranksumY := ranksumY + ranked[i].rank;
      }
      i := i + 1;
    }
    assert es[..nr] == es;
  }

  lemma BeforeFirst(es: seq<Entry>)
    ensures forall g :: ValuesIn(es[..0], g) == []
  {
  }

  lemma FirstRun(es: seq<Entry>)
    requires es != []
    ensures ClosedRuns(es, 1, 1, 0)
  {
    assert es[..0] == [];
  }

  lemma AddRank(es: seq<Entry>, i: nat, g: Sample)
    requires i < |es|
    ensures Sum(ValuesIn(es[..i + 1], g), DoubleRank(Values(es)))
         == Sum(ValuesIn(es[..i], g), DoubleRank(Values(es)))
            + if es[i].group == g then DoubleRank(Values(es))(es[i].val) else 0
  {
    assert es[..i + 1] == es[..i] + [es[i]];
    CollectConcat(es[..i], [es[i]], ValueIn(g));
    SumConcat(ValuesIn(es[..i], g), ValuesIn([es[i]], g), DoubleRank(Values(es)));
  }

  ghost predicate LeavesOutLastRun(es: seq<Entry>, t: int) {
    if es == [] then t == 0 else exists nt :: ClosedRuns(es, |es|, nt, t)
  }

  lemma LengthsAdd(es: seq<Entry>, x: seq<real>, y: seq<real>)
    requires Holds(es, X, x) && Holds(es, Y, y)
    ensures multiset(Values(es)) == multiset(x + y)
    ensures |es| == |x| + |y|
  {
    SamplesMakeUpAll(es);
    assert |multiset(Values(es))| == |es| && |multiset(x + y)| == |x + y|;
  }

  lemma RankSumOfX(es: seq<Entry>, x: seq<real>, y: seq<real>)
    requires Holds(es, X, x) && Holds(es, Y, y)
    ensures Sum(ValuesIn(es, X), DoubleRank(Values(es))) == |x| * (|x| + 1) + 2 * Wins(x, y) + Draws(x, y)
  {
    LengthsAdd(es, x, y);
    SumPermutation(ValuesIn(es, X), x, DoubleRank(Values(es)));
    RankSumIsPairCount(x, y, Values(es));
  }

  lemma TiesOfPool(es: seq<Entry>, x: seq<real>, y: seq<real>, t: int)
    requires Holds(es, X, x) && Holds(es, Y, y)
    requires AscendingEntries(es) && LeavesOutLastRun(es, t)
    ensures t == TieSumBelowTop(x + y)
  {
    LengthsAdd(es, x, y);
    if es != [] {
      var nt :| ClosedRuns(es, |es|, nt, t);
      FinalTies(es, x + y, nt, t);
    }
  }

  lemma ClosedForm(x: seq<real>, y: seq<real>, ranksumX: real)
    requires ranksumX == HalfOf(|x| * (|x| + 1) + 2 * Wins(x, y) + Draws(x, y))
    ensures (|x| * |y|) as real + (|x| * (|x| + 1)) as real / 2.0 - ranksumX == PairScore(y, x)
    ensures (|x| * |y|) as real - PairScore(y, x) == PairScore(x, y)
  {
    hide Wins, Draws;
    PairTrichotomy(x, y);
    ShareHalves(|x| * |y|, |x| * (|x| + 1), Wins(x, y), Wins(y, x), Draws(x, y));
  }

  lemma ShareHalves(pairs: int, least: int, wins: int, losses: int, draws: int)
    requires wins + losses + draws == pairs
    ensures pairs as real + least as real / 2.0 - HalfOf(least + 2 * wins + draws) == HalfOf(2 * losses + draws)
    ensures pairs as real - HalfOf(2 * losses + draws) == HalfOf(2 * wins + draws)
  {
  }

  /** After i entries: the current run has nt members so far, and t is the tie sum of the runs before it. */
  ghost predicate ClosedRuns(es: seq<Entry>, i: nat, nt: int, t: int)
    requires i <= |es|
  {
    && 1 <= nt <= i
    && (forall k | i - nt <= k < i :: es[k].val == es[i - 1].val)
    && (i - nt > 0 ==> es[i - nt - 1].val < es[i - nt].val)
    && t == Sum(Values(es[..i - nt]), TieWeight(Values(es)))
  }

  lemma ExtendRun(es: seq<Entry>, i: nat, nt: int, t: int)
    requires 0 < i < |es| && ClosedRuns(es, i, nt, t) && es[i].val == es[i - 1].val
    ensures ClosedRuns(es, i + 1, nt + 1, t)
  {
  }

  lemma ValuesSlice(es: seq<Entry>, lo: nat, hi: nat)
    requires lo <= hi <= |es|
    ensures Values(es[lo..hi]) == Values(es)[lo..hi]
  {
  }

  lemma CloseRun(es: seq<Entry>, i: nat, nt: int, t: int)
    requires 0 < i < |es| && ClosedRuns(es, i, nt, t) && AscendingEntries(es)
    requires es[i].val != es[i - 1].val
    ensures ClosedRuns(es, i + 1, 1, t + Cube(nt) - nt)
  {
    RunWeight(es, i, nt, t);
  }

  lemma RunWeight(es: seq<Entry>, i: nat, nt: int, t: int)
    requires 0 < i <= |es| && ClosedRuns(es, i, nt, t) && AscendingEntries(es)
    requires i < |es| ==> es[i].val != es[i - 1].val
    ensures Sum(Values(es[..i]), TieWeight(Values(es))) == t + Cube(nt) - nt
    ensures IsRun(Values(es), i - nt, i, es[i - 1].val)
  {
    var vals, lo := Values(es), i - nt;
    RunIsRun(es, i, nt, t);
    ValuesSplit(es, lo, i);
    hide *;
    RunTieWeights(vals, lo, i, es[i - 1].val);
    SumConcat(Values(es[..lo]), vals[lo..i], TieWeight(vals));
  }

  lemma RunIsRun(es: seq<Entry>, i: nat, nt: int, t: int)
    requires 0 < i <= |es| && ClosedRuns(es, i, nt, t) && AscendingEntries(es)
    requires i < |es| ==> es[i].val != es[i - 1].val
    ensures t == Sum(Values(es[..i - nt]), TieWeight(Values(es)))
    ensures IsRun(Values(es), i - nt, i, es[i - 1].val)
  {
  }

  lemma ValuesSplit(es: seq<Entry>, lo: nat, hi: nat)
    requires lo <= hi <= |es|
    ensures Values(es[..hi]) == Values(es[..lo]) + Values(es)[lo..hi]
  {
    hide Collect;
  }

  /** At the end of the loop the last run has not been added to t. */
  lemma FinalTies(es: seq<Entry>, pooled: seq<real>, nt: int, t: int)
    requires es != [] && ClosedRuns(es, |es|, nt, t) && AscendingEntries(es)
    requires multiset(Values(es)) == multiset(pooled)
    ensures pooled != [] && t == TieSumBelowTop(pooled)
  {
    var vals, lo, top := Values(es), |es| - nt, es[|es| - 1].val;
    RunWeight(es, |es|, nt, t);
    ValuesSlice(es, 0, lo);
    PrefixTieWeights(vals, lo, top);
    GreatestOfPool(vals, pooled, top);
    SumPermutation(vals, pooled, LowTieWeight(vals, top));
    WeightsPermutation(pooled, vals, pooled, top);
  }

  lemma GreatestOfPool(vals: seq<real>, pooled: seq<real>, top: real)
    requires multiset(vals) == multiset(pooled) && IsGreatest(vals, top)
    ensures pooled != [] && Greatest(pooled) == top
  {
    assert top in multiset(vals);
    assert top in multiset(pooled) && top in pooled;
    GreatestIsGreatest(pooled);
    var g := Greatest(pooled);
    assert g in multiset(vals) && g in vals;
  }

  lemma {:induction false} WeightsPermutation(obs: seq<real>, s: seq<real>, t: seq<real>, top: real)
    requires multiset(s) == multiset(t)
    ensures Sum(obs, LowTieWeight(s, top)) == Sum(obs, LowTieWeight(t, top))
  {
    if obs != [] {
      SumPermutation(s, t, IsTied(obs[0]));
      WeightsPermutation(obs[1..], s, t, top);
    }
  }

  // ----- what the statistic is worth ----------------------------------------

  /** U is a pair count: both halves are non-negative and share out all nx * ny pairs. */
  lemma StatisticSharesPairs(x: seq<real>, y: seq<real>)
    ensures var r := ExpectedStatistic(x, y);
            && r.ux + r.uy == (|x| * |y|) as real
            && 0.0 <= r.small <= r.big <= (|x| * |y|) as real
            && multiset{r.small, r.big} == multiset{r.ux, r.uy}
  {
    hide Wins, Draws, TieSumBelowTop;
    PairTrichotomy(x, y);
    PairCountBounds(x, y);
    PairCountBounds(y, x);
    ShareHalves(|x| * |y|, 0, Wins(x, y), Wins(y, x), Draws(x, y));
  }

  /** The correction factor is a number exactly when there are two values or more, and it is
      then positive, so the variance of U is positive for two non-empty samples. */
  lemma TieFactorInRange(x: seq<real>, y: seq<real>)
    ensures var tcf := ExpectedStatistic(x, y).tcf;
            && (tcf.Some? <==> |x| + |y| >= 2)
            && (tcf.Some? ==> 0.0 < tcf.value <= 1.0)
  {
    var n := |x| + |y|;
    if n >= 2 {
      CubeGrows(n);
      GreatestIsGreatest(x + y);
      LowTieSumBounds(x + y, Greatest(x + y));
      var t, d := TieSumBelowTop(x + y), Cube(n) - n;
      RatioBelowOne(t, d);
    }
  }

  lemma CubeGrows(n: nat)
    requires n >= 2
    ensures Cube(n) > n
  {
    Grow(2, n, n);
    Grow(4, n * n, n);
  }

  lemma RatioBelowOne(t: nat, d: nat)
    requires t < d
    ensures 0.0 <= t as real / d as real < 1.0
  {
    assert t as real / d as real * d as real == t as real;
  }

  /** The code's tie sum is the full one over all tie groups exactly when the greatest value of
      the two samples together occurs once: the loop never adds the last group. */
  lemma TieSumCompleteIff(x: seq<real>, y: seq<real>)
    requires x + y != []
    ensures TieSumBelowTop(x + y) == TieSum(x + y) <==> Tied(x + y, Greatest(x + y)) == 1
  {
    GreatestIsGreatest(x + y);
    TiedPositive(x + y, Greatest(x + y));
    assert forall k | 0 <= k < |x + y| :: (x + y)[k] in x + y;
    TieSumSplits(x + y, x + y, Greatest(x + y));
    var g := Tied(x + y, Greatest(x + y));
    assert g * (g * g - 1) == Cube(g) - g;
    if g >= 2 { CubeGrows(g); }
  }

  /** Two samples of the same single value: nothing is counted as tied, where the full sum makes the variance zero. */
  lemma TiedTopIsMissed()
    ensures ExpectedStatistic([1.0], [1.0]).tcf == Some(1.0)
    ensures TieSum([1.0] + [1.0]) == 6 && TieFactor(TieSum([1.0] + [1.0]), 2) == Some(0.0)
  {
    var all := [1.0] + [1.0];
    assert all == [1.0, 1.0] && all[1..] == [1.0] && [1.0][1..] == [];
    GreatestIsGreatest(all);
    assert Greatest(all) == 1.0;
    assert Tied([1.0], 1.0) == 1 && Tied(all, 1.0) == 2;
    assert Sum([1.0], TieWeight(all)) == 3 && TieSum(all) == 6;
    assert Sum([1.0], LowTieWeight(all, 1.0)) == 0 && TieSumBelowTop(all) == 0;
  }

  /** Swapping the samples swaps the halves of U and leaves everything else as it is. */
  lemma SwapSamples(x: seq<real>, y: seq<real>)
    ensures var r := ExpectedStatistic(x, y);
            ExpectedStatistic(y, x) == r.(ux := r.uy, uy := r.ux)
  {
    PairTrichotomy(x, y);
    assert multiset(x + y) == multiset(y + x);
    assert |x + y| == |y + x|;
    if x + y != [] {
      var top := Greatest(x + y);
      GreatestIsGreatest(x + y);
      GreatestOfPool(x + y, y + x, top);
      SumPermutation(x + y, y + x, LowTieWeight(x + y, top));
      WeightsPermutation(y + x, x + y, y + x, top);
    }
  }

  // ----- the test -----------------------------------------------------------

  datatype Alternative = Less | Greater | TwoSided

  /** z is shift / sqrt(variance); for the two-sided test its absolute value is taken and the
      p-value is doubled. The variance is None where the code divides 0 by 0. */
  datatype Test = Test(u: real, shift: real, variance: Option<real>, factor: int)

  function Variance(tcf: real, nx: real, ny: real): real { tcf * nx * ny * (nx + ny + 1.0) / 12.0 }

  function MannWhitneyTest(x: seq<real>, y: seq<real>, alt: Alternative := TwoSided, corr: bool := true): Test {
    var nx, ny := |x| as real, |y| as real;
    var s := ExpectedStatistic(x, y);
    var mu := nx * ny / 2.0 + if corr then 0.5 else 0.0;
    var variance := match s.tcf
      case None => None
      case Some(tcf) => Some(Variance(tcf, nx, ny));
    match alt
    case Less => Test(s.small, s.ux - mu, variance, 1)
    case Greater => Test(s.small, s.uy - mu, variance, 1)
    case TwoSided => Test(s.small, if s.big >= mu then s.big - mu else mu - s.big, variance, 2)
  }

  /** The test divides by a positive standard deviation exactly when neither sample is empty. */
  lemma TestIsDefinedIff(x: seq<real>, y: seq<real>, alt: Alternative, corr: bool)
    ensures var v := MannWhitneyTest(x, y, alt, corr).variance;
            v.Some? && v.value > 0.0 <==> x != [] && y != []
  {
    hide TieSumBelowTop;
    TieFactorInRange(x, y);
    var s := ExpectedStatistic(x, y);
    if s.tcf.Some? {
      var nx, ny := |x| as real, |y| as real;
      if x != [] && y != [] {
        ProductPositive(s.tcf.value, nx, ny, nx + ny + 1.0);
      } else {
        assert nx * ny == 0.0;
        assert s.tcf.value * nx * ny == s.tcf.value * (nx * ny);
      }
    }
  }

  lemma ProductPositive(a: real, b: real, c: real, d: real)
    requires a > 0.0 && b > 0.0 && c > 0.0 && d > 0.0
    ensures a * b * c * d / 12.0 > 0.0
  {
    assert a * b > 0.0;
    assert a * b * c > 0.0;
  }

  function Mirror(alt: Alternative): Alternative {
    match alt case Less => Greater case Greater => Less case TwoSided => TwoSided
  }

  /** Asking whether x is smaller than y is asking whether y is greater than x. */
  lemma MirrorTest(x: seq<real>, y: seq<real>, alt: Alternative, corr: bool)
    ensures MannWhitneyTest(x, y, alt, corr) == MannWhitneyTest(y, x, Mirror(alt), corr)
  {
    hide ExpectedStatistic, Variance;
    SwapSamples(x, y);
    var nx, ny := |x| as real, |y| as real;
    assert nx * ny == ny * nx;
    if ExpectedStatistic(x, y).tcf.Some? {
      VarianceCommutes(ExpectedStatistic(x, y).tcf.value, nx, ny);
    }
  }

  lemma VarianceCommutes(tcf: real, nx: real, ny: real)
    ensures Variance(tcf, nx, ny) == Variance(tcf, ny, nx)
  {
    assert tcf * nx * ny == tcf * ny * nx;
  }
}
