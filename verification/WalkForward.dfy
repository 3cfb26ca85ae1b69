/** Walk-forward splits: a growing in-sample window, followed by a fixed out-of-sample window. */
module WalkForward {
  import opened Common
  import TradingModel

  /** Bars that a slice needs so that bars are left to trade after the warm-up. */
  const MIN_SLICE: nat := 2 * TradingModel.WARMUP_BARS

  function SplitSize(total: nat, splits: nat): nat {
    total / (splits + 1)
  }

  function OosSize(total: nat, splits: nat): nat {
    MaxInt(SplitSize(total, splits) / 6, MIN_SLICE)
  }

  /** Where the in-sample slice of split i ends and the out-of-sample slice begins. */
  function IsEnd(total: nat, splits: nat, i: nat): nat {
    (i + 1) * SplitSize(total, splits)
  }

  function OosEnd(total: nat, splits: nat, i: nat): int {
    MinInt(IsEnd(total, splits, i) + OosSize(total, splits), total)
  }

  predicate Considered(total: nat, splits: nat, i: nat) {
    OosEnd(total, splits, i) > IsEnd(total, splits, i) && IsEnd(total, splits, i) > TradingModel.WARMUP_BARS
  }

  predicate IsRuns(total: nat, splits: nat, i: nat) {
    Considered(total, splits, i) && IsEnd(total, splits, i) >= MIN_SLICE
  }

  predicate OosRuns(total: nat, splits: nat, i: nat) {
    Considered(total, splits, i) && OosEnd(total, splits, i) - IsEnd(total, splits, i) >= MIN_SLICE
  }

  /** The Sharpe ratios of the slices simulated in the first k splits. The backtest of a slice,
      given by its bounds, is an input. */
  function IsSharpes(total: nat, splits: nat, sharpe: (int, int) -> real, k: nat): seq<real> {
    if k == 0 then []
    else
      var before := IsSharpes(total, splits, sharpe, k - 1);
      if IsRuns(total, splits, k - 1) then before + [sharpe(0, IsEnd(total, splits, k - 1))] else before
  }

  function OosSharpes(total: nat, splits: nat, sharpe: (int, int) -> real, k: nat): seq<real> {
    if k == 0 then []
    else
      var before := OosSharpes(total, splits, sharpe, k - 1);
      if OosRuns(total, splits, k - 1)
      then before + [sharpe(IsEnd(total, splits, k - 1), OosEnd(total, splits, k - 1))] else before
  }

  datatype Result = Result(
    splits: nat, isConsistent: bool, consistencyScore: real, isSharpe: real, oosSharpe: real, degradation: real)

  function Mean(xs: seq<real>): real {
    if |xs| == 0 then 0.0 else Sum(xs) / |xs| as real
  }

  function CountPositive(xs: seq<real>): (n: nat)
    ensures n <= |xs|
  {
    if |xs| == 0 then 0 else CountPositive(xs[..|xs| - 1]) + if xs[|xs| - 1] > 0.0 then 1 else 0
  }

  function Degradation(isSharpes: seq<real>, oosSharpes: seq<real>): real {
    if Mean(isSharpes) > 0.0 then Mean(oosSharpes) / Mean(isSharpes) else 0.0
  }

  const INSUFFICIENT := Result(0, false, 0.0, 0.0, 0.0, 0.0)

  function Verdict(isSharpes: seq<real>, oosSharpes: seq<real>): Result {
    if |oosSharpes| == 0 then INSUFFICIENT
    else
      var degradation := Degradation(isSharpes, oosSharpes);
      var positive := CountPositive(oosSharpes);
      Result(|oosSharpes|, positive == |oosSharpes| && degradation > 0.5,
        positive as real / |oosSharpes| as real, Mean(isSharpes), Mean(oosSharpes), degradation)
  }

  function ResultOf(total: nat, splits: nat, sharpe: (int, int) -> real): Result {
    if total < TradingModel.WARMUP_BARS then INSUFFICIENT
    else Verdict(IsSharpes(total, splits, sharpe, splits), OosSharpes(total, splits, sharpe, splits))
  }

  method Run(total: nat, splits: nat, sharpe: (int, int) -> real) returns (r: Result)
    ensures r == ResultOf(total, splits, sharpe)
  {
    if total < TradingModel.WARMUP_BARS {
      return INSUFFICIENT;
    }
    var splitSize := total / (splits + 1);
    var oosSize := MaxInt(splitSize / 6, MIN_SLICE);
    var isSharpes: seq<real>, oosSharpes: seq<real> := [], [];
    for i := 0 to splits
      invariant isSharpes == IsSharpes(total, splits, sharpe, i)
      invariant oosSharpes == OosSharpes(total, splits, sharpe, i)
    {
      var isEnd := (i + 1) * splitSize;
      var oosStart := isEnd;
      var oosEnd := MinInt(oosStart + oosSize, total);
      if oosEnd > oosStart && isEnd > TradingModel.WARMUP_BARS {
        if isEnd >= MIN_SLICE {
          isSharpes := isSharpes + [sharpe(0, isEnd)];
        }
        if oosEnd - oosStart >= MIN_SLICE {
          oosSharpes := oosSharpes + [sharpe(oosStart, oosEnd)];
        }
      }
    }
    r := Verdict(isSharpes, oosSharpes);
  }

  // ------------------------------------------------------------------
  // The windows
  // ------------------------------------------------------------------

  lemma SplitsFit(total: nat, splits: nat)
    ensures (splits + 1) * SplitSize(total, splits) <= total
  {
  }

  lemma SplitSizeAtLeast(total: nat, splits: nat, size: nat)
    ensures SplitSize(total, splits) >= size <==> total >= (splits + 1) * size
  {
    var q := total / (splits + 1);
    assert total == (splits + 1) * q + total % (splits + 1);
    if q >= size {
      MulOrder(size, q, splits + 1);
    } else {
      MulOrder(q + 1, size, splits + 1);
      assert (q + 1) * (splits + 1) == (splits + 1) * q + splits + 1;
    }
  }

  /** Every simulated slice is inside the data and leaves bars to trade, and the out-of-sample slice
      starts exactly where the in-sample slice ends. */
  lemma SlicesAreSound(total: nat, splits: nat, i: nat)
    requires i < splits
    ensures IsRuns(total, splits, i) ==> MIN_SLICE <= IsEnd(total, splits, i) <= total
    ensures OosRuns(total, splits, i) ==>
      IsEnd(total, splits, i) + MIN_SLICE <= OosEnd(total, splits, i) <= total
    ensures OosRuns(total, splits, i) ==> OosEnd(total, splits, i) - IsEnd(total, splits, i) <= OosSize(total, splits)
  {
    SplitsFit(total, splits);
    MulOrder(i + 1, splits + 1, SplitSize(total, splits));
  }

  /** All splits are simulated, in and out of sample, if and only if the data holds one minimal slice
      per split and one more. */
  lemma AllSplitsRunIff(total: nat, splits: nat)
    requires splits >= 1
    ensures (forall i :: 0 <= i < splits ==> IsRuns(total, splits, i) && OosRuns(total, splits, i))
       <==> total >= (splits + 1) * MIN_SLICE
  {
    SplitSizeAtLeast(total, splits, MIN_SLICE);
    if total >= (splits + 1) * MIN_SLICE {
      var size := SplitSize(total, splits);
      SplitsFit(total, splits);
      forall i | 0 <= i < splits ensures IsRuns(total, splits, i) && OosRuns(total, splits, i) {
        MulOrder(1, i + 1, size);
        MulOrder(i + 2, splits + 1, size);
        assert (i + 2) * size == (i + 1) * size + size;
      }
    } else {
      assert !IsRuns(total, splits, 0);
    }
  }

  lemma {:induction false} OosSharpesCount(total: nat, splits: nat, sharpe: (int, int) -> real, k: nat)
    ensures |OosSharpes(total, splits, sharpe, k)| <= k && |IsSharpes(total, splits, sharpe, k)| <= k
    ensures |OosSharpes(total, splits, sharpe, k)| == k <==> forall i :: 0 <= i < k ==> OosRuns(total, splits, i)
    ensures |IsSharpes(total, splits, sharpe, k)| == k <==> forall i :: 0 <= i < k ==> IsRuns(total, splits, i)
  {
    hide OosRuns, IsRuns;
    if k > 0 {
      OosSharpesCount(total, splits, sharpe, k - 1);
    }
  }

  /** The verdict reports all splits if and only if one split is longer than the warm-up and the bars after
      the last in-sample slice hold a minimal slice. */
  lemma AllSplitsReportedIff(total: nat, splits: nat, sharpe: (int, int) -> real)
    requires splits >= 1
    ensures ResultOf(total, splits, sharpe).splits == splits <==>
      SplitSize(total, splits) > TradingModel.WARMUP_BARS && total - splits * SplitSize(total, splits) >= MIN_SLICE
  {
    hide IsSharpes, OosSharpes, Degradation, CountPositive, Mean;
    OosSharpesCount(total, splits, sharpe, splits);
    var size := SplitSize(total, splits);
    SplitsFit(total, splits);
    if size > TradingModel.WARMUP_BARS && total - splits * size >= MIN_SLICE {
      MulOrder(1, splits + 1, size);
      forall i | 0 <= i < splits ensures OosRuns(total, splits, i) {
        MulOrder(1, i + 1, size);
        MulOrder(i + 1, splits, size);
      }
    } else {
      assert !OosRuns(total, splits, 0) || !OosRuns(total, splits, splits - 1);
    }
  }

  /** With enough bars for all splits to run in sample too, the verdict is taken over all of them. */
  lemma VerdictOverAllSplits(total: nat, splits: nat, sharpe: (int, int) -> real)
    requires splits >= 1 && total >= (splits + 1) * MIN_SLICE
    ensures |IsSharpes(total, splits, sharpe, splits)| == |OosSharpes(total, splits, sharpe, splits)| == splits
    ensures ResultOf(total, splits, sharpe)
         == Verdict(IsSharpes(total, splits, sharpe, splits), OosSharpes(total, splits, sharpe, splits))
    ensures ResultOf(total, splits, sharpe).splits == splits
  {
    hide IsSharpes, OosSharpes, Degradation, CountPositive, Mean;
    AllSplitsRunIff(total, splits);
    OosSharpesCount(total, splits, sharpe, splits);
    MulOrder(1, splits + 1, MIN_SLICE);
  }

  /** The slices that are simulated then: in sample from the start to the end of split i, and behind it a
      sixth of a split, but at least twice the warm-up. */
  lemma {:induction false} SlicesOfAllSplits(total: nat, splits: nat, sharpe: (int, int) -> real, k: nat)
    requires splits >= 1 && total >= (splits + 1) * 400 && k <= splits
    ensures var size := total / (splits + 1);
      && |IsSharpes(total, splits, sharpe, k)| == |OosSharpes(total, splits, sharpe, k)| == k
      && forall i :: 0 <= i < k ==>
           && IsSharpes(total, splits, sharpe, k)[i] == sharpe(0, (i + 1) * size)
           && OosSharpes(total, splits, sharpe, k)[i]
                == sharpe((i + 1) * size, (i + 1) * size + if size / 6 >= 400 then size / 6 else 400)
  {
    hide IsRuns, OosRuns;
    AllSplitsRunIff(total, splits);
    if k > 0 {
      SlicesOfAllSplits(total, splits, sharpe, k - 1);
      OosFits(total, splits, k - 1);
    }
  }

  lemma OosFits(total: nat, splits: nat, i: nat)
    requires i < splits && total >= (splits + 1) * 400
    ensures var size := total / (splits + 1);
      OosEnd(total, splits, i) == (i + 1) * size + if size / 6 >= 400 then size / 6 else 400
  {
    var size := SplitSize(total, splits);
    SplitSizeAtLeast(total, splits, MIN_SLICE);
    SplitsFit(total, splits);
    MulOrder(i + 2, splits + 1, size);
    assert (i + 2) * size == (i + 1) * size + size;
  }

  /** The out-of-sample windows of consecutive splits overlap exactly when the data is too short for
      that; otherwise all of them are pairwise disjoint. */
  lemma OosWindowsDisjointIff(total: nat, splits: nat, i: nat)
    requires i + 1 < splits && SplitSize(total, splits) > 0
    ensures OosEnd(total, splits, i) <= IsEnd(total, splits, i + 1) <==> total >= (splits + 1) * MIN_SLICE
  {
    var size := SplitSize(total, splits);
    SplitSizeAtLeast(total, splits, MIN_SLICE);
    SplitsFit(total, splits);
    MulOrder(i + 3, splits + 1, size);
    assert (i + 2) * size == (i + 1) * size + size;
    assert (i + 3) * size == (i + 2) * size + size;
  }

  lemma OosWindowsPairwiseDisjoint(total: nat, splits: nat, i: nat, j: nat)
    requires i < j < splits && total >= (splits + 1) * MIN_SLICE
    ensures OosEnd(total, splits, i) <= IsEnd(total, splits, j)
  {
    SplitSizeAtLeast(total, splits, MIN_SLICE);
    OosWindowsDisjointIff(total, splits, i);
    MulOrder(i + 2, j + 1, SplitSize(total, splits));
  }

  // ------------------------------------------------------------------
  // The verdict
  // ------------------------------------------------------------------

  lemma {:induction false} CountPositiveAll(xs: seq<real>)
    ensures CountPositive(xs) == |xs| <==> forall i :: 0 <= i < |xs| ==> xs[i] > 0.0
  {
    if |xs| > 0 {
      CountPositiveAll(xs[..|xs| - 1]);
    }
  }

  lemma HalfOf(a: real, b: real)
    requires b > 0.0
    ensures a / b > 0.5 <==> a > 0.5 * b
  {
    var q := a / b;
    assert q * b == a;
    if q > 0.5 {
      assert (q - 0.5) * b > 0.0;
    } else {
      assert (q - 0.5) * b <= 0.0;
    }
  }

  lemma Share(a: real, b: real)
    requires b > 0.0
    ensures a / b * b == a && (a / b == 1.0 <==> a == b)
  {
  }

  /** Consistent means: something was simulated out of sample, every such Sharpe ratio is positive, and
      their mean exceeds half of a positive in-sample mean. */
  lemma ConsistentIff(isSharpes: seq<real>, oosSharpes: seq<real>)
    ensures Verdict(isSharpes, oosSharpes).isConsistent <==>
      && |oosSharpes| > 0 && (forall i :: 0 <= i < |oosSharpes| ==> oosSharpes[i] > 0.0)
      && Mean(isSharpes) > 0.0 && Mean(oosSharpes) > 0.5 * Mean(isSharpes)
    ensures |oosSharpes| > 0 ==>
      var v := Verdict(isSharpes, oosSharpes);
      && v.splits == |oosSharpes| && (v.consistencyScore == 1.0 <==> CountPositive(oosSharpes) == |oosSharpes|)
      && v.consistencyScore * |oosSharpes| as real == CountPositive(oosSharpes) as real
      && (Mean(isSharpes) > 0.0 ==> v.degradation * Mean(isSharpes) == Mean(oosSharpes))
  {
    hide CountPositive, Mean;
    CountPositiveAll(oosSharpes);
    if |oosSharpes| > 0 {
      Share(CountPositive(oosSharpes) as real, |oosSharpes| as real);
    }
    if Mean(isSharpes) > 0.0 {
      HalfOf(Mean(oosSharpes), Mean(isSharpes));
      Share(Mean(oosSharpes), Mean(isSharpes));
    }
  }
}
