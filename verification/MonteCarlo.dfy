/** Monte Carlo by reordering trades. The random permutations are an input, so every statement holds
    for whatever the generator draws. */
module MonteCarlo {
  import opened Common
  import opened Drawdown
  import opened Percentiles

  const MIN_TRADES: nat := 10

  /** The order of the trades changes, their P&L does not. */
  ghost predicate IsShuffle(p: seq<real>, pnls: seq<real>) {
    multiset(p) == multiset(pnls)
  }

  /** The equity curve of one order of the trades, starting with the capital. */
  function Equity(p: seq<real>, initial: real): (e: seq<real>)
    ensures |e| == |p| + 1
  {
    seq(|p| + 1, i requires 0 <= i <= |p| => initial + Sum(p[..i]))
  }

  function FinalReturn(p: seq<real>, initial: real): real
    requires initial != 0.0
  {
    (Equity(p, initial)[|p|] - initial) / initial * 100.0
  }

  function MaxDd(p: seq<real>, initial: real): real
    requires initial > 0.0
  {
    OnePass(Equity(p, initial), |p| + 1)
  }

  function SumOf(p: seq<real>, f: real -> real): real {
    if |p| == 0 then 0.0 else SumOf(p[..|p| - 1], f) + f(p[|p| - 1])
  }

  function PerCapital(initial: real): real -> real
    requires initial != 0.0
  {
    x => x / initial
  }

  function SquaredDeviation(initial: real, mean: real): real -> real
    requires initial != 0.0
  {
    x => (x / initial - mean) * (x / initial - mean)
  }

  /** Mean of the trade returns over their standard deviation, scaled to a year. The square roots
      are inputs. */
  function Sharpe(p: seq<real>, initial: real, sqrt: real -> real): real
    requires initial != 0.0
  {
    if |p| <= 1 then 0.0
    else
      var mean := SumOf(p, PerCapital(initial)) / |p| as real;
      var std := sqrt(SumOf(p, SquaredDeviation(initial, mean)) / |p| as real);
      if std > 0.0 then mean / std * sqrt(252.0) else 0.0
  }

  // ------------------------------------------------------------------
  // The analysis
  // ------------------------------------------------------------------

  /** Number of the values above a limit. */
  function CountAbove(xs: seq<real>, limit: real): (n: nat)
    ensures n <= |xs|
  {
    if |xs| == 0 then 0
    else CountAbove(xs[..|xs| - 1], limit) + if xs[|xs| - 1] > limit then 1 else 0
  }

  datatype Result = Result(
    simulations: nat, medianReturn: real, p5Return: real, p95Return: real,
    medianDrawdown: real, p95Drawdown: real, ruinProbability: real, sharpes: seq<real>)

  function Round2(x: real): real {
    RoundHalfEven(x * 100.0) as real / 100.0
  }

  function Round4(x: real): real {
    RoundHalfEven(x * 10000.0) as real / 10000.0
  }

  const RUIN_DRAWDOWN := 50.0

  /** Minimum, quartiles and maximum. */
  function Distribution(xs: seq<real>): seq<real>
    requires |xs| > 0
  {
    [Round2(Percentile(xs, 0.0)), Round2(Percentile(xs, 25.0)), Round2(Percentile(xs, 50.0)),
     Round2(Percentile(xs, 75.0)), Round2(Percentile(xs, 100.0))]
  }

  function Returns(shuffles: seq<seq<real>>, initial: real): (r: seq<real>)
    requires initial != 0.0
    ensures |r| == |shuffles|
  {
    seq(|shuffles|, i requires 0 <= i < |shuffles| => FinalReturn(shuffles[i], initial))
  }

  function Drawdowns(shuffles: seq<seq<real>>, initial: real): (r: seq<real>)
    requires initial > 0.0
    ensures |r| == |shuffles|
  {
    seq(|shuffles|, i requires 0 <= i < |shuffles| => MaxDd(shuffles[i], initial))
  }

  function Sharpes(shuffles: seq<seq<real>>, initial: real, sqrt: real -> real): (r: seq<real>)
    requires initial != 0.0
    ensures |r| == |shuffles|
  {
    seq(|shuffles|, i requires 0 <= i < |shuffles| => Sharpe(shuffles[i], initial, sqrt))
  }

  function Summary(rets: seq<real>, dds: seq<real>, sharpes: seq<real>): Result
    requires |rets| == |dds| == |sharpes| > 0
  {
    Result(|rets|,
      Round2(Percentile(rets, 50.0)), Round2(Percentile(rets, 5.0)), Round2(Percentile(rets, 95.0)),
      Round2(Percentile(dds, 50.0)), Round2(Percentile(dds, 95.0)),
      Round4(CountAbove(dds, RUIN_DRAWDOWN) as real / |dds| as real),
      Distribution(sharpes))
  }

  function ResultOf(pnls: seq<real>, initial: real, shuffles: seq<seq<real>>, sqrt: real -> real): Result
    requires initial > 0.0 && |shuffles| > 0
  {
    if |pnls| < MIN_TRADES then Result(|shuffles|, 0.0, 0.0, 0.0, 0.0, 0.0, 1.0, [0.0, 0.0, 0.0, 0.0, 0.0])
    else Summary(Returns(shuffles, initial), Drawdowns(shuffles, initial), Sharpes(shuffles, initial, sqrt))
  }

  method Run(pnls: seq<real>, initial: real, shuffles: seq<seq<real>>, sqrt: real -> real) returns (r: Result)
    requires initial > 0.0 && |shuffles| > 0
    ensures r == ResultOf(pnls, initial, shuffles, sqrt)
  {
    hide Sharpe, OnePass, Summary;
    if |pnls| < MIN_TRADES {
      return Result(|shuffles|, 0.0, 0.0, 0.0, 0.0, 0.0, 1.0, [0.0, 0.0, 0.0, 0.0, 0.0]);
    }
    var rets: seq<real>, dds: seq<real>, sharpes: seq<real> := [], [], [];
    for k := 0 to |shuffles|
      invariant rets == Returns(shuffles[..k], initial)
      invariant dds == Drawdowns(shuffles[..k], initial)
      invariant sharpes == Sharpes(shuffles[..k], initial, sqrt)
    {
      var equity := Equity(shuffles[k], initial);
      var finalReturn := (equity[|equity| - 1] - initial) / initial * 100.0;
      var maxDd := Scan(equity);
      rets, dds := rets + [finalReturn], dds + [maxDd];
      sharpes := sharpes + [Sharpe(shuffles[k], initial, sqrt)];
    }
    assert shuffles[..|shuffles|] == shuffles;
    r := Summary(rets, dds, sharpes);
  }

  /** The running-peak scan over one simulated curve. */
  method Scan(equity: seq<real>) returns (maxDd: real)
    requires |equity| > 0 && equity[0] > 0.0
    ensures maxDd == OnePass(equity, |equity|)
  {
    hide PrefixMax, DrawdownAt;
    var peak := equity[0];
    maxDd := 0.0;
    for i := 0 to |equity|
      invariant peak == if i == 0 then equity[0] else PrefixMax(equity, i - 1)
      invariant maxDd == OnePass(equity, i)
    {
      PrefixMaxStep(equity, i);
      if equity[i] > peak {
        peak := equity[i];
      }
      DrawdownFromPeak(equity, i, peak);
      var dd := (peak - equity[i]) / peak * 100.0;
      if dd > maxDd {
        maxDd := dd;
      }
    }
  }

  // ------------------------------------------------------------------
  // What a shuffle cannot change
  // ------------------------------------------------------------------

  lemma {:induction false} SumOfAppend(p: seq<real>, q: seq<real>, f: real -> real)
    ensures SumOf(p + q, f) == SumOf(p, f) + SumOf(q, f)
  {
    if |q| == 0 {
      assert p + q == p;
    } else {
      assert (p + q)[..|p + q| - 1] == p + q[..|q| - 1];
      SumOfAppend(p, q[..|q| - 1], f);
    }
  }

  function Without(q: seq<real>, k: nat): seq<real>
    requires k < |q|
  {
    q[..k] + q[k + 1..]
  }

  lemma SumOfWithout(q: seq<real>, k: nat, f: real -> real)
    requires k < |q|
    ensures SumOf(q, f) == SumOf(Without(q, k), f) + f(q[k])
    ensures multiset(Without(q, k)) == multiset(q) - multiset{q[k]} && |Without(q, k)| == |q| - 1
  {
    var x := q[k];
    assert q == q[..k] + [x] + q[k + 1..];
    SumOfAppend(q[..k] + [x], q[k + 1..], f);
    SumOfAppend(q[..k], [x], f);
    SumOfAppend(q[..k], q[k + 1..], f);
    assert [x][..0] == [];
    assert SumOf([x], f) == f(x);
  }

  /** Any sum over the trades is the same in every order. */
  lemma {:induction false} SumOfShuffle(p: seq<real>, q: seq<real>, f: real -> real)
    requires IsShuffle(p, q)
    ensures |p| == |q| && SumOf(p, f) == SumOf(q, f)
  {
    assert |multiset(p)| == |p| && |multiset(q)| == |q|;
    if |p| > 0 {
      var n := |p| - 1;
      assert p[n] in multiset(q);
      var k :| 0 <= k < |q| && q[k] == p[n];
      SumOfWithout(p, n, f);
      SumOfWithout(q, k, f);
      SumOfShuffle(Without(p, n), Without(q, k), f);
    }
  }

  function Identity(x: real): real {
    x
  }

  lemma {:induction false} SumIsSumOf(p: seq<real>)
    ensures Sum(p) == SumOf(p, Identity)
  {
    if |p| > 0 {
      SumIsSumOf(p[..|p| - 1]);
    }
  }

  function SquaredReturn(initial: real): real -> real
    requires initial != 0.0
  {
    x => (x / initial) * (x / initial)
  }

  /** The sum of squared deviations from m, from the sums of the returns and of their squares. */
  lemma {:induction false} DeviationsExpand(p: seq<real>, initial: real, m: real)
    requires initial != 0.0
    ensures SumOf(p, SquaredDeviation(initial, m)) ==
      SumOf(p, SquaredReturn(initial)) - 2.0 * (m * SumOf(p, PerCapital(initial))) + |p| as real * (m * m)
  {
    hide SumOf, PerCapital, SquaredReturn, SquaredDeviation;
    if |p| == 0 {
      SumOfNone(p, SquaredDeviation(initial, m));
      SumOfNone(p, SquaredReturn(initial));
      SumOfNone(p, PerCapital(initial));
    } else {
      var n := |p| - 1;
      var q := p[..n];
      DeviationsExpand(q, initial, m);
      SumOfLast(p, SquaredDeviation(initial, m));
      SumOfLast(p, SquaredReturn(initial));
      SumOfLast(p, PerCapital(initial));
      AtTrade(p[n], initial, m);
      DeviationStep(p[n] / initial, m, SumOf(q, PerCapital(initial)), SumOf(q, SquaredReturn(initial)), n as real,
                    SumOf(q, SquaredDeviation(initial, m)));
    }
  }

  lemma SumOfNone(p: seq<real>, f: real -> real)
    requires |p| == 0
    ensures SumOf(p, f) == 0.0
  {
  }

  lemma SumOfLast(p: seq<real>, f: real -> real)
    requires |p| > 0
    ensures SumOf(p, f) == SumOf(p[..|p| - 1], f) + f(p[|p| - 1])
  {
  }

  lemma AtTrade(x: real, initial: real, m: real)
    requires initial != 0.0
    ensures var y := x / initial;
      && PerCapital(initial)(x) == y && SquaredReturn(initial)(x) == y * y
      && SquaredDeviation(initial, m)(x) == (y - m) * (y - m)
  {
  }

  lemma DeviationStep(y: real, m: real, a: real, b: real, n: real, d: real)
    requires d == b - 2.0 * (m * a) + n * (m * m)
    ensures d + (y - m) * (y - m) == (b + y * y) - 2.0 * (m * (a + y)) + (n + 1.0) * (m * m)
  {
    assert (y - m) * (y - m) == y * y - 2.0 * (m * y) + m * m;
    assert m * (a + y) == m * a + m * y;
    assert (n + 1.0) * (m * m) == n * (m * m) + m * m;
  }

  lemma VarianceAlgebra(d: real, b: real, a: real, n: real, m: real)
    requires n > 0.0 && m == a / n && d == b - 2.0 * (m * a) + n * (m * m)
    ensures d / n == b / n - m * m
  {
    assert m * n == a;
    assert m * a == m * m * n;
    var q, mm := b / n, m * m;
    assert q * n == b;
    assert (q - mm) * n == b - mm * n;
    SameQuotient(d, n, q - mm);
  }

  lemma SameQuotient(x: real, n: real, q: real)
    requires n != 0.0 && q * n == x
    ensures x / n == q
  {
  }

  /** For more than one trade the Sharpe ratio times the deviation is the yearly scaled mean return, where the
      deviation is the root of the mean squared return less the squared mean. */
  lemma SharpeMeans(p: seq<real>, initial: real, sqrt: real -> real, mean: real, deviation: real)
    requires initial != 0.0 && |p| > 1
    requires mean == SumOf(p, PerCapital(initial)) / |p| as real
    requires deviation == sqrt(SumOf(p, SquaredReturn(initial)) / |p| as real - mean * mean)
    ensures if deviation > 0.0 then Sharpe(p, initial, sqrt) * deviation == mean * sqrt(252.0)
            else Sharpe(p, initial, sqrt) == 0.0
  {
    hide SumOf, Sharpe;
    DeviationsExpand(p, initial, mean);
    VarianceAlgebra(SumOf(p, SquaredDeviation(initial, mean)), SumOf(p, SquaredReturn(initial)),
                    SumOf(p, PerCapital(initial)), |p| as real, mean);
    var variance := SumOf(p, SquaredDeviation(initial, mean)) / |p| as real;
    SharpeBy(p, initial, sqrt, mean, variance);
    if deviation > 0.0 {
      ScaledQuotient(mean, deviation, sqrt(252.0));
    }
  }

  lemma SharpeBy(p: seq<real>, initial: real, sqrt: real -> real, mean: real, variance: real)
    requires initial != 0.0 && |p| > 1 && mean == SumOf(p, PerCapital(initial)) / |p| as real
    requires variance == SumOf(p, SquaredDeviation(initial, mean)) / |p| as real
    ensures Sharpe(p, initial, sqrt) ==
      if sqrt(variance) > 0.0 then mean / sqrt(variance) * sqrt(252.0) else 0.0
  {
  }

  lemma ScaledQuotient(x: real, d: real, f: real)
    requires d != 0.0
    ensures x / d * f * d == x * f
  {
    var q := x / d;
    assert q * d == x;
    assert q * f * d == q * d * f;
  }

  /** Final return and Sharpe ratio do not depend on the order of the trades. */
  lemma ReturnAndSharpeOfShuffle(p: seq<real>, pnls: seq<real>, initial: real, sqrt: real -> real)
    requires initial > 0.0 && IsShuffle(p, pnls)
    ensures FinalReturn(p, initial) == FinalReturn(pnls, initial) == Sum(pnls) / initial * 100.0
    ensures Sharpe(p, initial, sqrt) == Sharpe(pnls, initial, sqrt)
  {
    hide FinalReturn, SumOf, Sum;
    SameReturn(p, pnls, initial);
    SumOfShuffle(p, pnls, PerCapital(initial));
    if |p| > 1 {
      var mean := SumOf(pnls, PerCapital(initial)) / |pnls| as real;
      SumOfShuffle(p, pnls, SquaredDeviation(initial, mean));
    }
  }

  lemma SameReturn(p: seq<real>, pnls: seq<real>, initial: real)
    requires initial > 0.0 && IsShuffle(p, pnls)
    ensures FinalReturn(p, initial) == FinalReturn(pnls, initial) == Sum(pnls) / initial * 100.0
  {
    SumIsSumOf(p);
    SumIsSumOf(pnls);
    SumOfShuffle(p, pnls, Identity);
    assert p[..|p|] == p && pnls[..|pnls|] == pnls;
  }

  /** The three reported return percentiles coincide, and so do all five Sharpe statistics: the
      method varies nothing but the drawdown. */
  lemma ReturnsDoNotSpread(pnls: seq<real>, initial: real, shuffles: seq<seq<real>>, sqrt: real -> real)
    requires initial > 0.0 && |shuffles| > 0 && |pnls| >= MIN_TRADES
    requires forall k :: 0 <= k < |shuffles| ==> IsShuffle(shuffles[k], pnls)
    ensures var r := ResultOf(pnls, initial, shuffles, sqrt);
      && r.medianReturn == r.p5Return == r.p95Return == Round2(Sum(pnls) / initial * 100.0)
      && |r.sharpes| == 5 && forall i :: 0 <= i < 5 ==> r.sharpes[i] == Round2(Sharpe(pnls, initial, sqrt))
  {
    hide Percentile, Round2, FinalReturn, Sharpe;
    var rets, sharpes := Returns(shuffles, initial), Sharpes(shuffles, initial, sqrt);
    var c, s := Sum(pnls) / initial * 100.0, Sharpe(pnls, initial, sqrt);
    forall i | 0 <= i < |shuffles| ensures rets[i] == c && sharpes[i] == s {
      ReturnAndSharpeOfShuffle(shuffles[i], pnls, initial, sqrt);
    }
    ConstantPercentile(rets, 5.0, c);
    ConstantPercentile(rets, 50.0, c);
    ConstantPercentile(rets, 95.0, c);
    ConstantPercentile(sharpes, 0.0, s);
    ConstantPercentile(sharpes, 25.0, s);
    ConstantPercentile(sharpes, 50.0, s);
    ConstantPercentile(sharpes, 75.0, s);
    ConstantPercentile(sharpes, 100.0, s);
  }

  // ------------------------------------------------------------------
  // How far a shuffle can draw down
  // ------------------------------------------------------------------

  function LossOf(x: real): real {
    if x < 0.0 then -x else 0.0
  }

  /** Sum of the sizes of all losing trades. */
  function TotalLosses(p: seq<real>): real {
    SumOf(p, LossOf)
  }

  lemma {:induction false} LossesGrow(p: seq<real>, k: nat)
    requires k <= |p|
    ensures 0.0 <= TotalLosses(p[..k]) <= TotalLosses(p)
  {
    if k == |p| {
      assert p[..k] == p;
      LossesNotNegative(p);
    } else {
      LossesGrow(p[..|p| - 1], k);
      assert p[..|p| - 1][..k] == p[..k];
    }
  }

  lemma {:induction false} LossesNotNegative(p: seq<real>)
    ensures TotalLosses(p) >= 0.0
  {
    if |p| > 0 {
      LossesNotNegative(p[..|p| - 1]);
    }
  }

  /** Equity is below its running peak by no more than the losses so far. */
  lemma {:induction false} GapWithinLosses(p: seq<real>, initial: real, j: nat)
    requires j <= |p|
    ensures PrefixMax(Equity(p, initial), j) - Equity(p, initial)[j] <= TotalLosses(p[..j])
  {
    if j > 0 {
      GapWithinLosses(p, initial, j - 1);
      assert p[..j][..j - 1] == p[..j - 1];
      LossesNotNegative(p[..j - 1]);
    }
  }

  lemma RelativeGap(gap: real, peak: real, initial: real, losses: real)
    requires 0.0 < initial <= peak && gap <= losses && 0.0 <= losses
    ensures gap / peak * 100.0 <= losses / initial * 100.0
  {
    var a, b := gap / peak, losses / initial;
    assert a * peak == gap && b * initial == losses;
    assert b >= 0.0;
    assert b * initial <= b * peak by { MulMonotone(initial, peak, b + 1.0); }
    MulCancel(a, b, peak);
  }

  /** No order of the trades draws down more than all losses together, relative to the capital. */
  lemma DrawdownWithinLosses(p: seq<real>, initial: real)
    requires initial > 0.0
    ensures MaxDd(p, initial) <= TotalLosses(p) / initial * 100.0
  {
    hide PrefixMax, DrawdownAt, OnePass, TotalLosses;
    var e := Equity(p, initial);
    StartsWithCapital(p, initial);
    var j := OnePassAttained(e, |e|);
    GapWithinLosses(p, initial, j);
    LossesGrow(p, j);
    PrefixMaxBounds(e, 0, j);
    DrawdownFromPeak(e, j, PrefixMax(e, j));
    RelativeGap(PrefixMax(e, j) - e[j], PrefixMax(e, j), initial, TotalLosses(p));
  }

  lemma StartsWithCapital(p: seq<real>, initial: real)
    ensures Equity(p, initial)[0] == initial
  {
  }

  /** All losing trades come before all others. */
  ghost predicate LosersFirst(p: seq<real>) {
    forall i, j :: 0 <= i < j < |p| && p[j] < 0.0 ==> p[i] < 0.0
  }

  lemma {:induction false} LosersFirstSplits(p: seq<real>) returns (k: nat)
    requires LosersFirst(p)
    ensures k <= |p| && Sum(p[..k]) == -TotalLosses(p)
    ensures forall i :: 0 <= i < k ==> p[i] < 0.0
  {
    if |p| == 0 {
      k := 0;
    } else {
      var n := |p| - 1;
      k := LosersFirstSplits(p[..n]);
      if p[n] < 0.0 {
        AllLosers(p);
        k := |p|;
        assert p[..k] == p;
      } else {
        assert p[..n][..k] == p[..k];
      }
    }
  }

  lemma {:induction false} AllLosers(p: seq<real>)
    requires LosersFirst(p) && |p| > 0 && p[|p| - 1] < 0.0
    ensures Sum(p) == -TotalLosses(p) && forall i :: 0 <= i < |p| ==> p[i] < 0.0
  {
    if |p| == 1 {
      assert p[..|p| - 1] == [];
      assert SumOf(p[..|p| - 1], LossOf) == 0.0 && Sum(p[..|p| - 1]) == 0.0;
    } else {
      AllLosers(p[..|p| - 1]);
    }
  }

  lemma {:induction false} FallingPeak(p: seq<real>, initial: real, k: nat)
    requires k <= |p| && forall i :: 0 <= i < k ==> p[i] < 0.0
    ensures PrefixMax(Equity(p, initial), k) == initial
    ensures Equity(p, initial)[k] <= initial
  {
    if k > 0 {
      FallingPeak(p, initial, k - 1);
      assert p[..k][..k - 1] == p[..k - 1];
    }
  }

  /** With the losing trades first the bound is attained exactly. */
  lemma LosersFirstAttains(p: seq<real>, initial: real)
    requires initial > 0.0 && LosersFirst(p)
    ensures MaxDd(p, initial) == TotalLosses(p) / initial * 100.0
  {
    hide PrefixMax, DrawdownAt, OnePass, TotalLosses;
    var e := Equity(p, initial);
    StartsWithCapital(p, initial);
    var k := LosersFirstSplits(p);
    FallingPeak(p, initial, k);
    DrawdownFromPeak(e, k, initial);
    var _ := OnePassAttained(e, |e|);
    assert DrawdownAt(e, k) <= OnePass(e, |e|);
    DrawdownWithinLosses(p, initial);
  }

  function Losers(pnls: seq<real>): seq<real> {
    if |pnls| == 0 then []
    else
      var rest := Losers(pnls[1..]);
      if pnls[0] < 0.0 then [pnls[0]] + rest else rest
  }

  function Others(pnls: seq<real>): seq<real> {
    if |pnls| == 0 then []
    else
      var rest := Others(pnls[1..]);
      if pnls[0] < 0.0 then rest else [pnls[0]] + rest
  }

  lemma {:induction false} Partition(pnls: seq<real>)
    ensures multiset(Losers(pnls)) + multiset(Others(pnls)) == multiset(pnls)
  {
    if |pnls| > 0 {
      Partition(pnls[1..]);
      assert pnls == [pnls[0]] + pnls[1..];
    }
  }

  lemma {:induction false} PartitionSigns(pnls: seq<real>)
    ensures forall x :: x in Losers(pnls) ==> x < 0.0
    ensures forall x :: x in Others(pnls) ==> x >= 0.0
  {
    if |pnls| > 0 {
      PartitionSigns(pnls[1..]);
    }
  }

  /** The bound is the best possible for every set of trades: some order attains it, none exceeds it. */
  lemma WorstShuffle(pnls: seq<real>, initial: real) returns (worst: seq<real>)
    requires initial > 0.0
    ensures IsShuffle(worst, pnls) && MaxDd(worst, initial) == TotalLosses(pnls) / initial * 100.0
    ensures forall p :: IsShuffle(p, pnls) ==> MaxDd(p, initial) <= MaxDd(worst, initial)
  {
    hide MaxDd;
    worst := Losers(pnls) + Others(pnls);
    Partition(pnls);
    PartitionSigns(pnls);
    var n := |Losers(pnls)|;
    assert forall i :: 0 <= i < |worst| ==> worst[i] in (if i < n then Losers(pnls) else Others(pnls));
    LosersFirstAttains(worst, initial);
    SumOfShuffle(worst, pnls, LossOf);
    forall p | IsShuffle(p, pnls) ensures MaxDd(p, initial) <= MaxDd(worst, initial) {
      DrawdownWithinLosses(p, initial);
      SumOfShuffle(p, pnls, LossOf);
    }
  }

  lemma {:induction false} NoneAbove(xs: seq<real>, limit: real)
    requires forall i :: 0 <= i < |xs| ==> xs[i] <= limit
    ensures CountAbove(xs, limit) == 0
  {
    if |xs| > 0 {
      NoneAbove(xs[..|xs| - 1], limit);
    }
  }

  /** Losses of at most a share of the capital bound the reported drawdown by that share for every
      draw, and at most half the capital rules ruin out. */
  lemma LossesBoundTheReport(
    pnls: seq<real>, initial: real, shuffles: seq<seq<real>>, sqrt: real -> real, percent: int)
    requires initial > 0.0 && |shuffles| > 0 && |pnls| >= MIN_TRADES
    requires forall k :: 0 <= k < |shuffles| ==> IsShuffle(shuffles[k], pnls)
    requires TotalLosses(pnls) / initial * 100.0 <= percent as real
    ensures var r := ResultOf(pnls, initial, shuffles, sqrt);
      && r.p95Drawdown <= percent as real
      && (percent <= 50 ==> r.ruinProbability == 0.0)
  {
    hide Percentile, MaxDd, SumOf;
    var dds := Drawdowns(shuffles, initial);
    forall i | 0 <= i < |dds| ensures 0.0 <= dds[i] <= percent as real {
      DrawdownWithinLosses(shuffles[i], initial);
      SumOfShuffle(shuffles[i], pnls, LossOf);
      DrawdownNotNegative(shuffles[i], initial);
    }
    PercentileWithin(dds, 95.0, 0.0, percent as real);
    Round2AtMost(Percentile(dds, 95.0), percent);
    if percent <= 50 {
      NoneAbove(dds, RUIN_DRAWDOWN);
      assert RoundHalfEven(0.0) == 0;
    }
  }

  lemma DrawdownNotNegative(p: seq<real>, initial: real)
    requires initial > 0.0
    ensures MaxDd(p, initial) >= 0.0
  {
    StartsWithCapital(p, initial);
  }

  lemma Round2AtMost(x: real, n: int)
    requires x <= n as real
    ensures Round2(x) <= n as real
  {
    RoundMonotone(x * 100.0, n as real * 100.0);
    assert RoundHalfEven((100 * n) as real) == 100 * n;
    assert n as real * 100.0 == (100 * n) as real;
  }

  /** Of the first n draws, those whose drawdown exceeds half of the peak. */
  ghost function Ruined(shuffles: seq<seq<real>>, initial: real, n: nat): set<nat>
    requires initial > 0.0 && n <= |shuffles|
  {
    set k: nat | k < n && MaxDd(shuffles[k], initial) > 50.0
  }

  lemma RuinedStep(shuffles: seq<seq<real>>, initial: real, n: nat)
    requires initial > 0.0 && n < |shuffles|
    ensures |Ruined(shuffles, initial, n + 1)|
         == |Ruined(shuffles, initial, n)| + if MaxDd(shuffles[n], initial) > 50.0 then 1 else 0
  {
    hide MaxDd;
    var before, after := Ruined(shuffles, initial, n), Ruined(shuffles, initial, n + 1);
    assert after == if MaxDd(shuffles[n], initial) > 50.0 then before + {n} else before;
  }

  lemma {:induction false} CountAboveIsSet(shuffles: seq<seq<real>>, initial: real, n: nat)
    requires initial > 0.0 && n <= |shuffles|
    ensures CountAbove(Drawdowns(shuffles, initial)[..n], 50.0) == |Ruined(shuffles, initial, n)|
  {
    hide MaxDd, Ruined;
    if n == 0 {
      NoneRuined(shuffles, initial);
    } else {
      CountAboveIsSet(shuffles, initial, n - 1);
      RuinedStep(shuffles, initial, n - 1);
      assert Drawdowns(shuffles, initial)[..n][..n - 1] == Drawdowns(shuffles, initial)[..n - 1];
    }
  }

  lemma NoneRuined(shuffles: seq<seq<real>>, initial: real)
    requires initial > 0.0
    ensures Ruined(shuffles, initial, 0) == {}
  {
  }

  /** What the report says of the drawdowns: their median, their 95th percentile, and the share of the draws
      that lost more than half of a peak. Fewer than ten trades are reported as certain ruin. */
  lemma ReportMeans(pnls: seq<real>, initial: real, shuffles: seq<seq<real>>, sqrt: real -> real)
    requires initial > 0.0 && |shuffles| > 0
    ensures var r, dds := ResultOf(pnls, initial, shuffles, sqrt), Drawdowns(shuffles, initial);
      && r.simulations == |shuffles|
      && (|pnls| >= 10 ==>
            && r.medianDrawdown == Round2(Percentile(dds, 50.0)) && r.p95Drawdown == Round2(Percentile(dds, 95.0))
            && r.ruinProbability == Round4(|Ruined(shuffles, initial, |shuffles|)| as real / |shuffles| as real))
      && (|pnls| < 10 ==> r.p95Drawdown == 0.0 && r.ruinProbability == 1.0)
  {
    hide Percentile, Round2, Round4, MaxDd, Ruined;
    CountAboveIsSet(shuffles, initial, |shuffles|);
    assert Drawdowns(shuffles, initial)[..|shuffles|] == Drawdowns(shuffles, initial);
  }
}
