/** The distribution behind the rank test: all ways to split values without ties into nx of one sample and ny of the
    other, and the mean and the variance of U over them. */
module Splits {
  import opened Sequences
  import opened Documents
  import opened RankSums
  import opened MannWhitney

  /** For values in descending order: which of them are x's. */
  type Split = seq<bool>

  function Put(b: bool): Split -> Split { (w: Split) => [b] + w }

  function Splits(nx: nat, ny: nat): seq<Split> {
    if nx == 0 && ny == 0 then [[]]
    else if nx == 0 then Map(Splits(nx, ny - 1), Put(false))
    else if ny == 0 then Map(Splits(nx - 1, ny), Put(true))
    else Map(Splits(nx - 1, ny), Put(true)) + Map(Splits(nx, ny - 1), Put(false))
  }

  function Count(w: Split, b: bool): nat { if w == [] then 0 else Count(w[1..], b) + if w[0] == b then 1 else 0 }

  lemma InPut(ws: seq<Split>, b: bool, w: Split)
    ensures w in Map(ws, Put(b)) <==> w != [] && w[0] == b && w[1..] in ws
  {
    if w in Map(ws, Put(b)) {
      var i :| 0 <= i < |ws| && Map(ws, Put(b))[i] == w;
      assert w == [b] + ws[i];
    }
    if w != [] && w[0] == b && w[1..] in ws {
      var i :| 0 <= i < |ws| && ws[i] == w[1..];
      assert Map(ws, Put(b))[i] == [b] + w[1..] == w;
    }
  }

  lemma InSplits(nx: nat, ny: nat, w: Split)
    requires nx > 0 || ny > 0
    ensures w == [] ==> w !in Splits(nx, ny)
    ensures w != [] && w[0] ==> (w in Splits(nx, ny) <==> nx > 0 && w[1..] in Splits(nx - 1, ny))
    ensures w != [] && !w[0] ==> (w in Splits(nx, ny) <==> ny > 0 && w[1..] in Splits(nx, ny - 1))
  {
    hide Map, Put;
    if nx > 0 { InPut(Splits(nx - 1, ny), true, w); }
    if ny > 0 { InPut(Splits(nx, ny - 1), false, w); }
  }

  /** Every split is there … */
  lemma {:induction false} SplitsAreAll(nx: nat, ny: nat, w: Split)
    ensures w in Splits(nx, ny) <==> Count(w, true) == nx && Count(w, false) == ny
    decreases nx + ny
  {
    hide Splits;
    CountsAdd(w);
    if nx == 0 && ny == 0 {
      NoValues(w);
    } else {
      InSplits(nx, ny, w);
      if w != [] && w[0] && nx > 0 { SplitsAreAll(nx - 1, ny, w[1..]); }
      if w != [] && !w[0] && ny > 0 { SplitsAreAll(nx, ny - 1, w[1..]); }
    }
  }

  lemma NoValues(w: Split)
    ensures w in Splits(0, 0) <==> w == []
  {
  }

  lemma {:induction false} CountsAdd(w: Split)
    ensures Count(w, true) + Count(w, false) == |w|
  {
    if w != [] { CountsAdd(w[1..]); }
  }

  lemma PutDistinct(ws: seq<Split>, b: bool)
    requires Distinct(ws)
    ensures Distinct(Map(ws, Put(b)))
  {
    forall i, j | 0 <= i < j < |ws| ensures Map(ws, Put(b))[i] != Map(ws, Put(b))[j] {
      assert ([b] + ws[i])[1..] == ws[i] && ([b] + ws[j])[1..] == ws[j];
    }
  }

  /** … and there once. */
  lemma {:induction false} SplitsDistinct(nx: nat, ny: nat)
    ensures Distinct(Splits(nx, ny))
    decreases nx + ny
  {
    if nx != 0 {
      SplitsDistinct(nx - 1, ny);
      PutDistinct(Splits(nx - 1, ny), true);
    }
    if ny != 0 {
      SplitsDistinct(nx, ny - 1);
      PutDistinct(Splits(nx, ny - 1), false);
    }
    if nx != 0 && ny != 0 {
      var xs, ys := Map(Splits(nx - 1, ny), Put(true)), Map(Splits(nx, ny - 1), Put(false));
      forall w | w in xs ensures w !in ys {
        InPut(Splits(nx - 1, ny), true, w);
        InPut(Splits(nx, ny - 1), false, w);
      }
      DistinctAppend(xs, ys);
    }
  }

  // ----- how many there are -------------------------------------------------

  function Number(nx: nat, ny: nat): nat { |Splits(nx, ny)| }

  lemma {:induction false} NumberShares(nx: nat, ny: nat)
    ensures Number(nx, ny) > 0
    ensures nx > 0 ==> nx * Number(nx, ny) == (nx + ny) * Number(nx - 1, ny)
    ensures ny > 0 ==> ny * Number(nx, ny) == (nx + ny) * Number(nx, ny - 1)
    decreases nx + ny
  {
    if nx > 0 { NumberShares(nx - 1, ny); }
    if ny > 0 { NumberShares(nx, ny - 1); }
    if nx > 0 && ny > 0 {
      ShareOut(nx, ny, Number(nx, ny), Number(nx - 1, ny), Number(nx, ny - 1));
    }
  }

  lemma ShareOut(a: int, b: int, c: int, c1: int, c2: int)
    requires c == c1 + c2 && b * c1 == a * c2
    ensures a * c == (a + b) * c1 && b * c == (a + b) * c2
  {
  }

  // ----- the pairs of a split -----------------------------------------------

  function XsOf(w: Split): seq<real> {
    if w == [] then [] else (if w[0] then [|w| as real] else []) + XsOf(w[1..])
  }

  function YsOf(w: Split): seq<real> {
    if w == [] then [] else (if w[0] then [] else [|w| as real]) + YsOf(w[1..])
  }

  /** Twice the deviation of U from nx * ny / 2. */
  function Deviation(nx: nat, ny: nat): Split -> int { (w: Split) => 2 * Wins(XsOf(w), YsOf(w)) - nx * ny }

  function Squared(nx: nat, ny: nat): Split -> int {
    (w: Split) => (2 * Wins(XsOf(w), YsOf(w)) - nx * ny) * (2 * Wins(XsOf(w), YsOf(w)) - nx * ny)
  }

  lemma {:induction false} CountAbove(s: seq<real>, v: real)
    requires forall k | 0 <= k < |s| :: s[k] < v
    ensures Below(s, v) == |s| && Tied(s, v) == 0
  {
    if s != [] { CountAbove(s[1..], v); }
  }

  lemma {:induction false} SplitIsSplit(w: Split)
    ensures |XsOf(w)| == Count(w, true) && |YsOf(w)| == Count(w, false)
    ensures forall k | 0 <= k < |XsOf(w)| :: 0.0 < XsOf(w)[k] <= |w| as real
    ensures forall k | 0 <= k < |YsOf(w)| :: 0.0 < YsOf(w)[k] <= |w| as real
  {
    if w != [] { SplitIsSplit(w[1..]); }
  }

  /** A greatest x beats every y, and a greatest y none. */
  lemma WinsOfPut(w: Split, b: bool)
    ensures Wins(XsOf([b] + w), YsOf([b] + w)) == Wins(XsOf(w), YsOf(w)) + if b then Count(w, false) else 0
    ensures Draws(XsOf([b] + w), YsOf([b] + w)) == Draws(XsOf(w), YsOf(w))
  {
    var v, x, y := |[b] + w| as real, XsOf(w), YsOf(w);
    assert ([b] + w)[1..] == w;
    SplitIsSplit(w);
    if b {
      CountAbove(y, v);
      assert XsOf([b] + w) == [v] + x && ([v] + x)[1..] == x;
      assert YsOf([b] + w) == y;
    } else {
      CountAbove(x, v);
      assert YsOf([b] + w) == [v] + y && ([v] + y)[1..] == y;
      assert XsOf([b] + w) == x;
      AddOpponent(x, [v] + y);
    }
  }

  // ----- mean and variance --------------------------------------------------

  /** What one more value on top adds to the deviation of every split. */
  function Step(nx: int, ny: int, b: bool): int { if b then ny else -nx }

  lemma DeviationOfPut(w: Split, b: bool, nx: nat, ny: nat, mx: nat, my: nat)
    requires Count(w, false) == ny
    requires mx == (if b then nx + 1 else nx) && my == if b then ny else ny + 1
    ensures Deviation(mx, my)([b] + w) == Deviation(nx, ny)(w) + Step(nx, ny, b)
  {
    hide Wins, XsOf, YsOf;
    WinsOfPut(w, b);
    assert (nx + 1) * ny == nx * ny + ny && nx * (ny + 1) == nx * ny + nx;
  }

  lemma {:induction false} MeanOfPut(ws: seq<Split>, b: bool, nx: nat, ny: nat, mx: nat, my: nat)
    requires forall w | w in ws :: Count(w, true) == nx && Count(w, false) == ny
    requires mx == (if b then nx + 1 else nx) && my == if b then ny else ny + 1
    ensures Sum(Map(ws, Put(b)), Deviation(mx, my)) == Sum(ws, Deviation(nx, ny)) + Step(nx, ny, b) * |ws|
  {
    hide Wins, XsOf, YsOf, Step, Deviation;
    if ws != [] {
      MeanOfPut(ws[1..], b, nx, ny, mx, my);
      assert Map(ws, Put(b))[0] == [b] + ws[0];
      assert Map(ws, Put(b))[1..] == Map(ws[1..], Put(b));
      DeviationOfPut(ws[0], b, nx, ny, mx, my);
      assert Step(nx, ny, b) * |ws| == Step(nx, ny, b) + Step(nx, ny, b) * |ws[1..]|;
    }
  }

  /** The sum of the squares after a step of all n deviations, from the sums of squares and deviations before. */
  function Moved(step: int, squares: int, sum: int, n: int): int { squares + 2 * step * sum + step * step * n }

  lemma {:induction false} SquaresOfPut(ws: seq<Split>, b: bool, nx: nat, ny: nat, mx: nat, my: nat)
    requires forall w | w in ws :: Count(w, true) == nx && Count(w, false) == ny
    requires mx == (if b then nx + 1 else nx) && my == if b then ny else ny + 1
    ensures Sum(Map(ws, Put(b)), Squared(mx, my))
         == Moved(Step(nx, ny, b), Sum(ws, Squared(nx, ny)), Sum(ws, Deviation(nx, ny)), |ws|)
  {
    hide Moved, Step, Deviation, Squared, Count;
    if ws == [] {
      NothingMoved(Step(nx, ny, b));
    } else {
      var first, rest := ws[0], ws[1..];
      SquaresOfPut(rest, b, nx, ny, mx, my);
      assert Map(ws, Put(b))[0] == [b] + first;
      assert Map(ws, Put(b))[1..] == Map(rest, Put(b));
      SquareMoves(first, b, nx, ny, mx, my, Sum(rest, Squared(nx, ny)), Sum(rest, Deviation(nx, ny)), |rest|);
      assert Sum(ws, Squared(nx, ny)) == Squared(nx, ny)(first) + Sum(rest, Squared(nx, ny));
      assert Sum(ws, Deviation(nx, ny)) == Deviation(nx, ny)(first) + Sum(rest, Deviation(nx, ny));
      assert Sum(Map(ws, Put(b)), Squared(mx, my))
          == Squared(mx, my)([b] + first) + Sum(Map(rest, Put(b)), Squared(mx, my));
      hide *;
    }
  }

  lemma NothingMoved(step: int)
    ensures Moved(step, 0, 0, 0) == 0
  {
  }

  lemma SquareMoves(w: Split, b: bool, nx: nat, ny: nat, mx: nat, my: nat, squares: int, sum: int, n: nat)
    requires Count(w, false) == ny
    requires mx == (if b then nx + 1 else nx) && my == if b then ny else ny + 1
    ensures Squared(mx, my)([b] + w) + Moved(Step(nx, ny, b), squares, sum, n)
         == Moved(Step(nx, ny, b), Squared(nx, ny)(w) + squares, Deviation(nx, ny)(w) + sum, n + 1)
  {
    DeviationOfPut(w, b, nx, ny, mx, my);
    SquareOf([b] + w, mx, my);
    SquareOf(w, nx, ny);
    hide Squared, Deviation, Step;
    AddSquare(Deviation(nx, ny)(w), Step(nx, ny, b), squares, sum, n);
  }

  lemma SquareOf(w: Split, nx: nat, ny: nat)
    ensures Squared(nx, ny)(w) == Deviation(nx, ny)(w) * Deviation(nx, ny)(w)
  {
  }

  lemma AddSquare(d: int, step: int, squares: int, sum: int, n: nat)
    ensures (d + step) * (d + step) + Moved(step, squares, sum, n) == Moved(step, d * d + squares, d + sum, n + 1)
  {
  }

  lemma EachIsSplit(nx: nat, ny: nat)
    ensures forall w | w in Splits(nx, ny) :: Count(w, true) == nx && Count(w, false) == ny
  {
    forall w | w in Splits(nx, ny) ensures Count(w, true) == nx && Count(w, false) == ny {
      SplitsAreAll(nx, ny, w);
    }
  }

  /** Three times the mean of the squared doubled deviation. */
  function Third(nx: int, ny: int): int { nx * ny * (nx + ny + 1) }

  /** U deviates from nx * ny / 2 by nothing on the whole, and by its variance squared. */
  lemma {:induction false} Moments(nx: nat, ny: nat)
    ensures Sum(Splits(nx, ny), Deviation(nx, ny)) == 0
    ensures 3 * Sum(Splits(nx, ny), Squared(nx, ny)) == Third(nx, ny) * Number(nx, ny)
    decreases nx + ny, 1
  {
    if nx == 0 || ny == 0 {
      MomentsOfOne(nx, ny);
      NoThird(nx, ny);
      assert 0 * Number(nx, ny) == 0;
    } else {
      MomentsOfTwo(nx, ny);
    }
    hide *;
  }

  lemma MomentsOfTwo(nx: nat, ny: nat)
    requires nx > 0 && ny > 0
    ensures Sum(Splits(nx, ny), Deviation(nx, ny)) == 0
    ensures 3 * Sum(Splits(nx, ny), Squared(nx, ny)) == Third(nx, ny) * Number(nx, ny)
    decreases nx + ny, 0
  {
    var xs, ys := Map(Splits(nx - 1, ny), Put(true)), Map(Splits(nx, ny - 1), Put(false));
    assert Splits(nx, ny) == xs + ys by { hide Map, Put; }
    hide Splits, Map, Put, Sum, Deviation, Squared, Third, Growth, Drift;
    MomentsOfPut(nx - 1, ny, true, nx, ny);
    MomentsOfPut(nx, ny - 1, false, nx, ny);
    NumberShares(nx, ny);
    SumConcat(xs, ys, Deviation(nx, ny));
    SumConcat(xs, ys, Squared(nx, ny));
    hide *;
    MomentsAdd(nx, ny, Number(nx, ny), Number(nx - 1, ny), Number(nx, ny - 1),
               Sum(xs, Squared(nx, ny)), Sum(ys, Squared(nx, ny)));
  }

  lemma MomentsOfPut(nx: nat, ny: nat, b: bool, mx: nat, my: nat)
    requires mx == (if b then nx + 1 else nx) && my == if b then ny else ny + 1
    ensures Sum(Map(Splits(nx, ny), Put(b)), Deviation(mx, my)) == Drift(nx, ny, b, Number(nx, ny))
    ensures 3 * Sum(Map(Splits(nx, ny), Put(b)), Squared(mx, my)) == Growth(nx, ny, b, Number(nx, ny))
    decreases nx + ny, 2
  {
    Moments(nx, ny);
    EachIsSplit(nx, ny);
    MeanOfPut(Splits(nx, ny), b, nx, ny, mx, my);
    SquaresOfPut(Splits(nx, ny), b, nx, ny, mx, my);
    var squares, n := Sum(Splits(nx, ny), Squared(nx, ny)), Number(nx, ny);
    hide Splits, Map, Put, Sum, Deviation, Squared, Growth, Moved, Third, Step;
    Factor(nx, ny, b, squares, n);
  }

  function Drift(nx: int, ny: int, b: bool, n: int): int { Step(nx, ny, b) * n }

  function Growth(nx: int, ny: int, b: bool, n: int): int {
    (Third(nx, ny) + 3 * Step(nx, ny, b) * Step(nx, ny, b)) * n
  }

  lemma Factor(nx: int, ny: int, b: bool, squares: int, n: int)
    requires 3 * squares == Third(nx, ny) * n
    ensures 3 * Moved(Step(nx, ny, b), squares, 0, n) == Growth(nx, ny, b, n)
  {
    hide Third, Step;
  }

  lemma MomentsOfOne(nx: nat, ny: nat)
    requires nx == 0 || ny == 0
    ensures Sum(Splits(nx, ny), Deviation(nx, ny)) == 0 == Sum(Splits(nx, ny), Squared(nx, ny))
  {
    EachIsSplit(nx, ny);
    forall w | w in Splits(nx, ny) ensures Deviation(nx, ny)(w) == 0 == Squared(nx, ny)(w) {
      hide *;
      NothingDeviates(w, nx, ny);
    }
    hide Splits, Deviation, Squared;
    SumOfNothing(Splits(nx, ny), Deviation(nx, ny));
    SumOfNothing(Splits(nx, ny), Squared(nx, ny));
  }

  lemma NothingDeviates(w: Split, nx: nat, ny: nat)
    requires nx == 0 || ny == 0
    requires Count(w, true) == nx && Count(w, false) == ny
    ensures Deviation(nx, ny)(w) == 0 == Squared(nx, ny)(w)
  {
    SplitIsSplit(w);
    NothingBeatsEmpty(XsOf(w));
    assert nx * ny == 0 && Wins(XsOf(w), YsOf(w)) == 0;
    hide Wins, XsOf, YsOf, Count;
  }

  lemma {:induction false} SumOfNothing(ws: seq<Split>, f: Split -> int)
    requires forall w | w in ws :: f(w) == 0
    ensures Sum(ws, f) == 0
  {
    if ws != [] { SumOfNothing(ws[1..], f); }
  }

  lemma NoThird(nx: int, ny: int)
    requires nx == 0 || ny == 0
    ensures Third(nx, ny) == 0
  {
  }

  lemma MomentsAdd(a: int, b: int, c: int, c1: int, c2: int, s1: int, s2: int)
    requires a > 0 && b > 0 && a * c == (a + b) * c1 && b * c == (a + b) * c2
    requires 3 * s1 == Growth(a - 1, b, true, c1) && 3 * s2 == Growth(a, b - 1, false, c2)
    ensures Drift(a - 1, b, true, c1) + Drift(a, b - 1, false, c2) == 0
    ensures 3 * (s1 + s2) == Third(a, b) * c
  {
    var n, m1, m2 := a + b, (a - 1) * b * (a + b) + 3 * b * b, a * (b - 1) * (a + b) + 3 * a * a;
    GrowthIs(a, b, c1, c2);
    ThirdIs(a, b);
    hide *;
    assert n * (b * c1) == b * (a * c) == n * (a * c2);
    Cancel(n, b * c1, a * c2);
    AddUp(n, a, b, c, c1, c2, m1, m2);
    assert n * (Third(a, b) * c) == (n * Third(a, b)) * c;
    Cancel(n, 3 * (s1 + s2), Third(a, b) * c);
  }

  lemma GrowthIs(a: int, b: int, c1: int, c2: int)
    ensures Growth(a - 1, b, true, c1) == ((a - 1) * b * (a + b) + 3 * b * b) * c1
    ensures Growth(a, b - 1, false, c2) == (a * (b - 1) * (a + b) + 3 * a * a) * c2
    ensures Drift(a - 1, b, true, c1) == b * c1
    ensures Drift(a, b - 1, false, c2) == -(a * c2)
  {
  }

  lemma ThirdIs(a: int, b: int)
    ensures ((a - 1) * b * (a + b) + 3 * b * b) * a + (a * (b - 1) * (a + b) + 3 * a * a) * b == (a + b) * Third(a, b)
  {
  }

  lemma AddUp(n: int, a: int, b: int, c: int, c1: int, c2: int, m1: int, m2: int)
    requires a * c == n * c1 && b * c == n * c2
    ensures n * (m1 * c1 + m2 * c2) == (m1 * a + m2 * b) * c
  {
    assert n * (m1 * c1) == m1 * (a * c);
    assert n * (m2 * c2) == m2 * (b * c);
  }

  lemma Cancel(n: int, u: int, v: int)
    requires n > 0 && n * u == n * v
    ensures u == v
  {
  }

  // ----- the test against the distribution ----------------------------------

  function Won(): Split -> int { (w: Split) => Wins(XsOf(w), YsOf(w)) }

  function MeanOfU(nx: nat, ny: nat): real
    requires Number(nx, ny) > 0
  {
    Sum(Splits(nx, ny), Won()) as real / Number(nx, ny) as real
  }

  function VarianceOfU(nx: nat, ny: nat): real
    requires Number(nx, ny) > 0
  {
    Sum(Splits(nx, ny), Squared(nx, ny)) as real / 4.0 / Number(nx, ny) as real
  }

  lemma {:induction false} SumOfDeviations(ws: seq<Split>, nx: nat, ny: nat)
    ensures Sum(ws, Deviation(nx, ny)) == 2 * Sum(ws, Won()) - nx * ny * |ws|
  {
    if ws != [] {
      SumOfDeviations(ws[1..], nx, ny);
      assert Deviation(nx, ny)(ws[0]) == 2 * Won()(ws[0]) - nx * ny;
      hide Deviation, Won;
    }
    OneMore(nx * ny, |ws|);
  }

  lemma OneMore(pairs: int, n: nat)
    ensures pairs * 0 == 0 && pairs * n == pairs + pairs * (n - 1)
  {
  }

  /** The code's centre and variance of U are its mean and its mean squared deviation over all splits. */
  lemma VarianceIsSpread(nx: nat, ny: nat)
    ensures Number(nx, ny) > 0
    ensures MeanOfU(nx, ny) == nx as real * ny as real / 2.0
    ensures VarianceOfU(nx, ny) == Variance(1.0, nx as real, ny as real)
  {
    NumberShares(nx, ny);
    Moments(nx, ny);
    SumOfDeviations(Splits(nx, ny), nx, ny);
    hide Splits, Sum, Deviation, Squared, Third;
    Divide(nx, ny, Number(nx, ny), Sum(Splits(nx, ny), Won()), Sum(Splits(nx, ny), Squared(nx, ny)));
  }

  lemma Divide(nx: nat, ny: nat, n: nat, won: int, squares: int)
    requires n > 0 && 2 * won == nx * ny * n && 3 * squares == Third(nx, ny) * n
    ensures won as real / n as real == nx as real * ny as real / 2.0
    ensures squares as real / 4.0 / n as real == Variance(1.0, nx as real, ny as real)
  {
    Quotient(2 * won, nx * ny, n);
    Quotient(3 * squares, Third(nx, ny), n);
  }

  lemma Quotient(whole: int, part: int, n: nat)
    requires n > 0 && whole == part * n
    ensures whole as real / n as real == part as real
  {
  }

  /** The values of a split make the statistic the number of pairs an x wins, with nothing tied. */
  lemma SplitStatistic(w: Split)
    ensures ExpectedStatistic(XsOf(w), YsOf(w)).uy == Won()(w) as real
    ensures |XsOf(w)| == Count(w, true) && |YsOf(w)| == Count(w, false)
    ensures Distinct(XsOf(w) + YsOf(w))
  {
    SplitIsSplit(w);
    NoDraws(w);
    DistinctValues(w);
  }

  lemma {:induction false} NoDraws(w: Split)
    ensures Draws(XsOf(w), YsOf(w)) == 0
  {
    if w != [] {
      assert w == [w[0]] + w[1..];
      WinsOfPut(w[1..], w[0]);
      NoDraws(w[1..]);
    }
  }

  lemma {:induction false} DistinctValues(w: Split)
    ensures Distinct(XsOf(w) + YsOf(w))
  {
    if w != [] {
      var v, x, y := |w| as real, XsOf(w[1..]), YsOf(w[1..]);
      DistinctValues(w[1..]);
      SplitIsSplit(w[1..]);
      assert multiset(XsOf(w) + YsOf(w)) == multiset([v] + (x + y));
      hide *;
      forall u | u in x + y ensures u != v {
        var k :| 0 <= k < |x + y| && (x + y)[k] == u;
        assert u == if k < |x| then x[k] else y[k - |x|];
      }
      DistinctAppend([v], x + y);
      DistinctPermutation([v] + (x + y), XsOf(w) + YsOf(w));
    }
  }

  lemma {:induction false} TiedOnce(s: seq<real>, v: real)
    requires Distinct(s)
    ensures Tied(s, v) == if v in s then 1 else 0
  {
    if s != [] {
      TiedOnce(s[1..], v);
      assert s == [s[0]] + s[1..];
      assert s[0] !in s[1..];
    }
  }

  lemma {:induction false} NothingTied(s: seq<real>, all: seq<real>, top: real)
    requires Distinct(all) && forall v | v in s :: v in all
    ensures Sum(s, LowTieWeight(all, top)) == 0
  {
    if s != [] {
      NothingTied(s[1..], all, top);
      TiedOnce(all, s[0]);
    }
  }

  lemma UntiedFactor(x: seq<real>, y: seq<real>)
    requires Distinct(x + y) && |x| + |y| >= 2
    ensures ExpectedStatistic(x, y).tcf == Some(1.0)
  {
    NothingTied(x + y, x + y, Greatest(x + y));
    CubeGrows(|x| + |y|);
    hide Cube, Wins, Draws, Sum;
  }

  /** For every sample the variance is the one of U times the factor for ties. */
  lemma TestVariance(x: seq<real>, y: seq<real>, alt: Alternative, corr: bool)
    ensures Number(|x|, |y|) > 0
    ensures var v, tcf := MannWhitneyTest(x, y, alt, corr).variance, ExpectedStatistic(x, y).tcf;
            && v.Some? == tcf.Some? == (|x| + |y| >= 2)
            && (v.Some? ==> v.value == tcf.value * VarianceOfU(|x|, |y|))
  {
    hide *;
    NumberShares(|x|, |y|);
    TieFactorInRange(x, y);
    DividesBy(x, y, alt, corr);
    var tcf := ExpectedStatistic(x, y).tcf;
    if tcf.Some? { FactorTimesVariance(tcf.value, |x|, |y|); }
  }

  lemma FactorTimesVariance(factor: real, nx: nat, ny: nat)
    requires Number(nx, ny) > 0
    ensures Variance(factor, nx as real, ny as real) == factor * VarianceOfU(nx, ny)
  {
    hide *;
    VarianceIsSpread(nx, ny);
    VarianceScales(factor, nx as real, ny as real);
  }

  lemma DividesBy(x: seq<real>, y: seq<real>, alt: Alternative, corr: bool)
    ensures var v, tcf := MannWhitneyTest(x, y, alt, corr).variance, ExpectedStatistic(x, y).tcf;
            && v.Some? == tcf.Some?
            && (v.Some? ==> v.value == Variance(tcf.value, |x| as real, |y| as real))
  {
    hide ExpectedStatistic, Variance;
  }

  /** Without ties the test divides by the variance of U over all splits of that many values. */
  lemma UntiedVariance(x: seq<real>, y: seq<real>, alt: Alternative, corr: bool)
    requires Distinct(x + y) && |x| + |y| >= 2
    ensures Number(|x|, |y|) > 0
    ensures MannWhitneyTest(x, y, alt, corr).variance == Some(VarianceOfU(|x|, |y|))
  {
    TestVariance(x, y, alt, corr);
    UntiedFactor(x, y);
    hide *;
  }

  /** How far the greater of two scores is from the mean. */
  predicate IsAway(shift: real, a: real, b: real, mean: real) {
    && shift >= 0.0
    && (a >= b ==> shift == a - mean || shift == mean - a)
    && (b >= a ==> shift == b - mean || shift == mean - b)
  }

  /** What is divided by its root: how far U of the asked side, or the greater U of the two, is from the mean of U,
      less a half where that is asked for. */
  lemma TestShift(x: seq<real>, y: seq<real>, alt: Alternative, corr: bool)
    ensures Number(|x|, |y|) > 0
    ensures var t := MannWhitneyTest(x, y, alt, corr);
            && t.factor == (if alt.TwoSided? then 2 else 1)
            && t.u == (if PairScore(x, y) < PairScore(y, x) then PairScore(x, y) else PairScore(y, x))
    ensures var t, mean := MannWhitneyTest(x, y, alt, corr), Centre(|x|, |y|, corr);
            && (alt.Less? ==> t.shift + mean == PairScore(y, x))
            && (alt.Greater? ==> t.shift + mean == PairScore(x, y))
            && (alt.TwoSided? ==> IsAway(t.shift, PairScore(x, y), PairScore(y, x), mean))
  {
    VarianceIsSpread(|x|, |y|);
    Shifts(x, y, alt, corr, Centre(|x|, |y|, corr));
    hide *;
  }

  function Centre(nx: nat, ny: nat, corr: bool): real
    requires Number(nx, ny) > 0
  {
    MeanOfU(nx, ny) + if corr then 0.5 else 0.0
  }

  lemma Shifts(x: seq<real>, y: seq<real>, alt: Alternative, corr: bool, mean: real)
    requires mean == |x| as real * |y| as real / 2.0 + if corr then 0.5 else 0.0
    ensures var t, u, v := MannWhitneyTest(x, y, alt, corr), PairScore(y, x), PairScore(x, y);
            && t.factor == (if alt.TwoSided? then 2 else 1)
            && t.u == (if v < u then v else u)
            && (alt.Less? ==> t.shift + mean == u)
            && (alt.Greater? ==> t.shift + mean == v)
            && (alt.TwoSided? ==> IsAway(t.shift, v, u, mean))
  {
    hide PairScore, TieSumBelowTop, TieFactor, Variance;
  }

  lemma VarianceScales(factor: real, nx: real, ny: real)
    ensures Variance(factor, nx, ny) == factor * Variance(1.0, nx, ny)
  {
    assert factor * nx * ny * (nx + ny + 1.0) == factor * (1.0 * nx * ny * (nx + ny + 1.0));
  }
}
