/** From a backtest to a decision: trade statistics, the go-live gates, walk-forward and Monte Carlo,
    and the registry clean-up around a validation. */
module Engine {
  import opened Common
  import opened Drawdown
  import MonteCarlo
  import Percentiles
  import TradingCurve
  import TradingLedger
  import TradingModel
  import WalkForward

  datatype Blocker =
    | LowSharpe | LowProfitFactor | HighDrawdown | LowHitRate | TooFewTrades | NoTrades
    | WalkForwardInconsistent | MonteCarloDrawdown | RuinProbability | NoData

  datatype Decision = Go | Conditional | NoGo

  // ------------------------------------------------------------------
  // Trade statistics
  // ------------------------------------------------------------------

  function Positive(x: real): real {
    if x > 0.0 then x else 0.0
  }

  function GrossProfit(pnls: seq<real>): real {
    MonteCarlo.SumOf(pnls, Positive)
  }

  /** Profit per unit of loss; None stands for infinity, when nothing was lost. */
  function ProfitFactor(pnls: seq<real>): Option<real> {
    var loss := MonteCarlo.TotalLosses(pnls);
    if |pnls| == 0 then Some(0.0) else if loss > 0.0 then Some(GrossProfit(pnls) / loss) else None
  }

  /** Percentage of trades that earned money. */
  function HitRate(pnls: seq<real>): real {
    if |pnls| == 0 then 0.0 else WalkForward.CountPositive(pnls) as real / |pnls| as real * 100.0
  }

  /** The trades that earned money. */
  ghost function Winners(pnls: seq<real>): set<nat> {
    set i: nat | i < |pnls| && pnls[i] > 0.0
  }

  /** Sum of the sizes of all gains and losses. */
  function Turnover(pnls: seq<real>): real {
    if |pnls| == 0 then 0.0 else Turnover(pnls[..|pnls| - 1]) + Abs(pnls[|pnls| - 1])
  }

  lemma {:induction false} WinnersAreCounted(pnls: seq<real>)
    ensures |Winners(pnls)| == WalkForward.CountPositive(pnls)
  {
    if |pnls| == 0 {
      assert Winners(pnls) == {};
    } else {
      var n := |pnls| - 1;
      WinnersAreCounted(pnls[..n]);
      assert Winners(pnls) == if pnls[n] > 0.0 then Winners(pnls[..n]) + {n} else Winners(pnls[..n]);
    }
  }

  lemma ShareAlgebra(c: int, n: int)
    requires n > 0
    ensures c as real / n as real * 100.0 >= 40.0 <==> 5 * c >= 2 * n
  {
    var y, m := c as real / n as real, n as real;
    assert y * m == c as real;
    if y >= 0.4 {
      MulMonotone(0.4, y, m);
    } else {
      assert (0.4 - y) * m > 0.0;
    }
  }

  /** The hit rate reaches its limit if and only if two trades in five won. */
  lemma HitRateGate(pnls: seq<real>)
    requires |pnls| > 0
    ensures HitRate(pnls) >= 40.0 <==> 5 * |Winners(pnls)| >= 2 * |pnls|
  {
    WinnersAreCounted(pnls);
    ShareAlgebra(WalkForward.CountPositive(pnls), |pnls|);
  }

  lemma {:induction false} ProfitAndLoss(pnls: seq<real>)
    ensures Sum(pnls) == GrossProfit(pnls) - MonteCarlo.TotalLosses(pnls)
    ensures Turnover(pnls) == GrossProfit(pnls) + MonteCarlo.TotalLosses(pnls)
  {
    if |pnls| > 0 {
      ProfitAndLoss(pnls[..|pnls| - 1]);
    }
  }

  lemma FactorAlgebra(profit: real, loss: real)
    requires loss > 0.0
    ensures profit / loss >= 1.3 <==> 10.0 * profit >= 13.0 * loss
  {
    var q := profit / loss;
    assert q * loss == profit;
    if q >= 1.3 {
      MulMonotone(1.3, q, loss);
    } else {
      assert (1.3 - q) * loss > 0.0;
    }
  }

  /** The profit factor reaches its limit if and only if ten times the gains are thirteen times the losses. */
  lemma FactorGate(pnls: seq<real>)
    requires |pnls| > 0
    ensures FactorBelow(ProfitFactor(pnls), 1.3) <==> 23.0 * Sum(pnls) < 3.0 * Turnover(pnls)
  {
    ProfitAndLoss(pnls);
    SomeProfit(pnls);
    MonteCarlo.LossesNotNegative(pnls);
    var loss := MonteCarlo.TotalLosses(pnls);
    if loss > 0.0 {
      FactorAlgebra(GrossProfit(pnls), loss);
    }
  }

  // ------------------------------------------------------------------
  // Gates
  // ------------------------------------------------------------------

  predicate FactorBelow(factor: Option<real>, limit: real) {
    factor.Some? && factor.value < limit
  }

  function When(condition: bool, blocker: Blocker): seq<Blocker> {
    if condition then [blocker] else []
  }

  function Gates(sharpe: real, factor: Option<real>, maxDd: real, hitRate: real, trades: nat): seq<Blocker> {
    When(sharpe < 1.0, LowSharpe) + When(FactorBelow(factor, 1.3), LowProfitFactor) +
    When(maxDd > 20.0, HighDrawdown) + When(hitRate < 40.0, LowHitRate) + When(trades < 30, TooFewTrades)
  }

  /** Whether a backtest misses the limit that a blocker stands for. */
  predicate Misses(b: Blocker, sharpe: real, factor: Option<real>, maxDd: real, hitRate: real, trades: nat) {
    match b
    case LowSharpe => sharpe < 1.0
    case LowProfitFactor => FactorBelow(factor, 1.3)
    case HighDrawdown => maxDd > 20.0
    case LowHitRate => hitRate < 40.0
    case TooFewTrades => trades < 30
    case _ => false
  }

  lemma Once(condition: bool, blocker: Blocker, b: Blocker)
    ensures multiset(When(condition, blocker))[b] == if condition && b == blocker then 1 else 0
  {
  }

  lemma EachMissedGateOnce(sharpe: real, factor: Option<real>, maxDd: real, hitRate: real, trades: nat)
    ensures forall b :: multiset(Gates(sharpe, factor, maxDd, hitRate, trades))[b]
                     == if Misses(b, sharpe, factor, maxDd, hitRate, trades) then 1 else 0
  {
    hide When, FactorBelow;
    forall b
      ensures multiset(Gates(sharpe, factor, maxDd, hitRate, trades))[b]
           == if Misses(b, sharpe, factor, maxDd, hitRate, trades) then 1 else 0
    {
      Once(sharpe < 1.0, LowSharpe, b);
      Once(FactorBelow(factor, 1.3), LowProfitFactor, b);
      Once(maxDd > 20.0, HighDrawdown, b);
      Once(hitRate < 40.0, LowHitRate, b);
      Once(trades < 30, TooFewTrades, b);
    }
  }

  lemma GatesIff(sharpe: real, factor: Option<real>, maxDd: real, hitRate: real, trades: nat)
    ensures Gates(sharpe, factor, maxDd, hitRate, trades) == [] <==>
      sharpe >= 1.0 && !FactorBelow(factor, 1.3) && maxDd <= 20.0 && hitRate >= 40.0 && trades >= 30
  {
  }

  /** The limits are looked at in order, and every one that is missed blocks exactly once. */
  method CheckGoLiveGates(sharpe: real, factor: Option<real>, maxDd: real, hitRate: real, trades: nat)
    returns (blockers: seq<Blocker>)
    ensures blockers == Gates(sharpe, factor, maxDd, hitRate, trades)
    ensures forall b :: multiset(blockers)[b] == if Misses(b, sharpe, factor, maxDd, hitRate, trades) then 1 else 0
    ensures blockers == [] <==>
      sharpe >= 1.0 && !FactorBelow(factor, 1.3) && maxDd <= 20.0 && hitRate >= 40.0 && trades >= 30
  {
    hide FactorBelow, Misses, Gates;
    blockers := CollectBlockers(sharpe, factor, maxDd, hitRate, trades);
    GatesIff(sharpe, factor, maxDd, hitRate, trades);
    EachMissedGateOnce(sharpe, factor, maxDd, hitRate, trades);
  }

  method CollectBlockers(sharpe: real, factor: Option<real>, maxDd: real, hitRate: real, trades: nat)
    returns (blockers: seq<Blocker>)
    ensures blockers == Gates(sharpe, factor, maxDd, hitRate, trades)
  {
    hide FactorBelow;
    blockers := [];
    if sharpe < 1.0 {
      blockers := blockers + [LowSharpe];
    }
    ghost var low := When(sharpe < 1.0, LowSharpe);
    assert blockers == low;
    if FactorBelow(factor, 1.3) {
      blockers := blockers + [LowProfitFactor];
    }
    low := low + When(FactorBelow(factor, 1.3), LowProfitFactor);
    assert blockers == low;
    if maxDd > 20.0 {
      blockers := blockers + [HighDrawdown];
    }
    low := low + When(maxDd > 20.0, HighDrawdown);
    assert blockers == low;
    if hitRate < 40.0 {
      blockers := blockers + [LowHitRate];
    }
    low := low + When(hitRate < 40.0, LowHitRate);
    assert blockers == low;
    if trades < 30 {
      blockers := blockers + [TooFewTrades];
    }
    assert blockers == low + When(trades < 30, TooFewTrades);
  }

  function Round3(x: real): real {
    RoundHalfEven(x * 1000.0) as real / 1000.0
  }

  /** What the decision needs of a finished backtest: the reported, rounded Sharpe ratio, and the
      blockers, which were decided on unrounded numbers. */
  datatype Backtest = Backtest(sharpe: real, totalTrades: nat, blockers: seq<Blocker>)

  function MaxDd(equity: seq<real>): real
    requires |equity| >= 2 ==> equity[0] > 0.0
  {
    if |equity| < 2 then 0.0 else OnePass(equity, |equity|)
  }

  function Analyze(pnls: seq<real>, equity: seq<real>, sharpe: real): Backtest
    requires |equity| >= 2 ==> equity[0] > 0.0
  {
    if |pnls| == 0 && |equity| == 0 then Backtest(0.0, 0, [NoTrades])
    else Backtest(Round3(sharpe), |pnls|, Gates(sharpe, ProfitFactor(pnls), MaxDd(equity), HitRate(pnls), |pnls|))
  }

  // ------------------------------------------------------------------
  // The decision
  // ------------------------------------------------------------------

  function AllBlockers(
    backtest: Backtest, wf: Option<WalkForward.Result>, mc: Option<MonteCarlo.Result>): seq<Blocker>
  {
    backtest.blockers +
    When(wf.Some? && !wf.value.isConsistent, WalkForwardInconsistent) +
    When(mc.Some? && mc.value.p95Drawdown > 25.0, MonteCarloDrawdown) +
    When(mc.Some? && mc.value.ruinProbability > 0.05, RuinProbability)
  }

  function DecisionOf(blockers: seq<Blocker>, sharpe: real): Decision {
    if blockers == [] then Go
    else if |blockers| <= 2 && sharpe > 0.7 then Conditional
    else NoGo
  }

  method MakeDecision(backtest: Backtest, wf: Option<WalkForward.Result>, mc: Option<MonteCarlo.Result>)
    returns (decision: Decision, blockers: seq<Blocker>)
    ensures blockers == AllBlockers(backtest, wf, mc) && decision == DecisionOf(blockers, backtest.sharpe)
    ensures decision == Go <==>
      && backtest.blockers == [] && (wf.Some? ==> wf.value.isConsistent)
      && (mc.Some? ==> mc.value.p95Drawdown <= 25.0 && mc.value.ruinProbability <= 0.05)
    ensures decision == Conditional <==> 1 <= |blockers| <= 2 && backtest.sharpe > 0.7
    ensures decision == NoGo <==> |blockers| > 2 || (|blockers| > 0 && backtest.sharpe <= 0.7)
  {
    blockers := backtest.blockers;
    if wf.Some? && !wf.value.isConsistent {
      blockers := blockers + [WalkForwardInconsistent];
    }
    if mc.Some? {
      if mc.value.p95Drawdown > 25.0 {
        blockers := blockers + [MonteCarloDrawdown];
      }
      if mc.value.ruinProbability > 0.05 {
        blockers := blockers + [RuinProbability];
      }
    }
    if blockers == [] {
      decision := Go;
    } else if |blockers| <= 2 && backtest.sharpe > 0.7 {
      decision := Conditional;
    } else {
      decision := NoGo;
    }
  }

  /** Everything that one validation works on. Simulations and random draws are inputs. */
  datatype Inputs = Inputs(
    bars: nat, pnls: seq<real>, equity: seq<real>, sharpe: real, capital: real,
    sliceSharpe: (int, int) -> real, shuffles: seq<seq<real>>, sqrt: real -> real,
    walkForward: bool, monteCarlo: bool)
  {
    ghost predicate Valid() {
      && capital > 0.0 && |shuffles| > 0 && (|equity| >= 2 ==> equity[0] > 0.0)
      && forall k :: 0 <= k < |shuffles| ==> MonteCarlo.IsShuffle(shuffles[k], pnls)
    }
  }

  const WF_SPLITS: nat := 6
  const MIN_TRADES_FOR_WF: nat := 20

  function WalkForwardOf(x: Inputs): Option<WalkForward.Result> {
    if x.walkForward && |x.pnls| >= MIN_TRADES_FOR_WF
    then Some(WalkForward.ResultOf(x.bars, WF_SPLITS, x.sliceSharpe)) else None
  }

  function MonteCarloOf(x: Inputs): Option<MonteCarlo.Result>
    requires x.Valid()
  {
    if x.monteCarlo && |x.pnls| > 0
    then Some(MonteCarlo.ResultOf(x.pnls, x.capital, x.shuffles, x.sqrt)) else None
  }

  function Blockers(x: Inputs): seq<Blocker>
    requires x.Valid()
  {
    if x.bars == 0 then [NoData]
    else AllBlockers(Analyze(x.pnls, x.equity, x.sharpe), WalkForwardOf(x), MonteCarloOf(x))
  }

  /** The decision of one validation. Without data it is always negative. */
  function Validate(x: Inputs): Decision
    requires x.Valid()
  {
    if x.bars == 0 then NoGo else DecisionOf(Blockers(x), Analyze(x.pnls, x.equity, x.sharpe).sharpe)
  }

  /** The go-live gates on the backtest itself, in whole numbers of trades and in sums: two trades in five
      won, and the gains are at least 1.3 times the losses, where the gains are half of turnover plus result
      and the losses half of turnover minus result. */
  ghost predicate BacktestPasses(x: Inputs)
    requires x.Valid()
  {
    && |x.pnls| >= 30 && x.sharpe >= 1.0 && MaxDd(x.equity) <= 20.0
    && 5 * |Winners(x.pnls)| >= 2 * |x.pnls|
    && 23.0 * Sum(x.pnls) >= 3.0 * Turnover(x.pnls)
  }

  ghost predicate WalkForwardPasses(x: Inputs) {
    var isSharpes := WalkForward.IsSharpes(x.bars, WF_SPLITS, x.sliceSharpe, WF_SPLITS);
    var oosSharpes := WalkForward.OosSharpes(x.bars, WF_SPLITS, x.sliceSharpe, WF_SPLITS);
    && x.bars >= TradingModel.WARMUP_BARS && |oosSharpes| > 0
    && (forall i :: 0 <= i < |oosSharpes| ==> oosSharpes[i] > 0.0)
    && WalkForward.Mean(isSharpes) > 0.0
    && WalkForward.Mean(oosSharpes) > 0.5 * WalkForward.Mean(isSharpes)
  }

  ghost predicate MonteCarloPasses(x: Inputs)
    requires x.Valid()
  {
    var dds := MonteCarlo.Drawdowns(x.shuffles, x.capital);
    && |x.pnls| >= MonteCarlo.MIN_TRADES
    && MonteCarlo.Round2(Percentiles.Percentile(dds, 95.0)) <= 25.0
    && MonteCarlo.Round4(MonteCarlo.CountAbove(dds, MonteCarlo.RUIN_DRAWDOWN) as real / |dds| as real) <= 0.05
  }

  lemma WalkForwardConsistentIff(x: Inputs)
    ensures WalkForward.ResultOf(x.bars, WF_SPLITS, x.sliceSharpe).isConsistent <==> WalkForwardPasses(x)
  {
    WalkForward.ConsistentIff(WalkForward.IsSharpes(x.bars, WF_SPLITS, x.sliceSharpe, WF_SPLITS),
                              WalkForward.OosSharpes(x.bars, WF_SPLITS, x.sliceSharpe, WF_SPLITS));
  }

  lemma NoBlockersIff(backtest: Backtest, wf: Option<WalkForward.Result>, mc: Option<MonteCarlo.Result>)
    ensures AllBlockers(backtest, wf, mc) == [] <==>
      && backtest.blockers == [] && (wf.Some? ==> wf.value.isConsistent)
      && (mc.Some? ==> mc.value.p95Drawdown <= 25.0 && mc.value.ruinProbability <= 0.05)
  {
  }

  /** GO is decided if and only if there is data, the backtest passes its gates, and each of the two
      analyses that was asked for ran on enough trades and passed. In particular GO is never the
      result of an analysis that was asked for but skipped. */
  lemma GoIff(x: Inputs)
    requires x.Valid()
    ensures Validate(x) == Go <==>
      && x.bars > 0 && BacktestPasses(x)
      && (x.walkForward ==> WalkForwardPasses(x)) && (x.monteCarlo ==> MonteCarloPasses(x))
  {
    hide Gates, AllBlockers, Percentiles.Percentile, MonteCarlo.Drawdowns, MonteCarlo.Round2, MonteCarlo.Round4,
         WalkForwardPasses, WalkForward.ResultOf, ProfitFactor, HitRate, MaxDd, FactorBelow, Round3, Turnover, Winners;
    var backtest := Analyze(x.pnls, x.equity, x.sharpe);
    GatesIff(x.sharpe, ProfitFactor(x.pnls), MaxDd(x.equity), HitRate(x.pnls), |x.pnls|);
    if |x.pnls| > 0 {
      HitRateGate(x.pnls);
      FactorGate(x.pnls);
    }
    NoBlockersIff(backtest, WalkForwardOf(x), MonteCarloOf(x));
    WalkForwardConsistentIff(x);
  }

  /** Which gates a backtest with trades misses, counted trade by trade. */
  lemma BlockersOfBacktest(pnls: seq<real>, equity: seq<real>, sharpe: real)
    requires |pnls| > 0 && (|equity| >= 2 ==> equity[0] > 0.0)
    ensures var blockers := Analyze(pnls, equity, sharpe).blockers;
      && (LowHitRate in blockers <==> 5 * |Winners(pnls)| < 2 * |pnls|)
      && (LowProfitFactor in blockers <==> 23.0 * Sum(pnls) < 3.0 * Turnover(pnls))
      && (LowSharpe in blockers <==> sharpe < 1.0) && (TooFewTrades in blockers <==> |pnls| < 30)
      && (HighDrawdown in blockers <==> |equity| >= 2 && OnePass(equity, |equity|) > 20.0)
    ensures sharpe - 0.0005 <= Analyze(pnls, equity, sharpe).sharpe <= sharpe + 0.0005
  {
    hide HitRate, ProfitFactor, FactorBelow, Gates, Winners, Turnover, OnePass;
    HitRateGate(pnls);
    FactorGate(pnls);
    EachMissedGateOnce(sharpe, ProfitFactor(pnls), MaxDd(equity), HitRate(pnls), |pnls|);
    var blockers := Analyze(pnls, equity, sharpe).blockers;
    assert forall b :: b in blockers <==> multiset(blockers)[b] > 0;
  }

  /** A validation without a single trade is NO-GO, whatever its equity and Sharpe ratio. */
  lemma WithoutTrades(x: Inputs)
    requires x.Valid() && x.pnls == []
    ensures Validate(x) == NoGo
    ensures x.bars > 0 && x.equity != [] ==>
      LowProfitFactor in Blockers(x) && LowHitRate in Blockers(x) && TooFewTrades in Blockers(x)
    ensures x.bars > 0 && x.equity == [] ==> Blockers(x) == [NoTrades]
  {
    hide MaxDd, Round3, Gates;
    var blockers := Analyze(x.pnls, x.equity, x.sharpe).blockers;
    if x.bars > 0 && x.equity != [] {
      GatesWithoutTrades(x.sharpe, MaxDd(x.equity));
      assert |Blockers(x)| >= |blockers| && forall b :: b in blockers ==> b in Blockers(x);
    }
  }

  lemma GatesWithoutTrades(sharpe: real, maxDd: real)
    ensures var blockers := Gates(sharpe, ProfitFactor([]), maxDd, HitRate([]), 0);
      |blockers| >= 3 && LowProfitFactor in blockers && LowHitRate in blockers && TooFewTrades in blockers
  {
  }

  /** A decision is conditional if and only if one or two blockers stand against a reported Sharpe ratio above
      0.7; without data it never is. */
  lemma ConditionalIff(x: Inputs)
    requires x.Valid()
    ensures Validate(x) == Conditional <==>
      x.bars > 0 && 1 <= |Blockers(x)| <= 2 && Analyze(x.pnls, x.equity, x.sharpe).sharpe > 0.7
    ensures x.bars == 0 ==> Validate(x) == NoGo
  {
    hide Analyze, WalkForwardOf, MonteCarloOf;
  }

  // ------------------------------------------------------------------
  // What GO is worth
  // ------------------------------------------------------------------

  lemma {:induction false} SomeProfit(pnls: seq<real>)
    ensures GrossProfit(pnls) >= 0.0
    ensures WalkForward.CountPositive(pnls) > 0 ==> GrossProfit(pnls) > 0.0
  {
    if |pnls| > 0 {
      SomeProfit(pnls[..|pnls| - 1]);
    }
  }

  /** GO implies that the trades earned money in total. */
  lemma GoEarned(x: Inputs)
    requires x.Valid() && Validate(x) == Go
    ensures Sum(x.pnls) > 0.0
  {
    hide Validate;
    GoIff(x);
    ProfitAndLoss(x.pnls);
    SomeProfit(x.pnls);
    MonteCarlo.LossesNotNegative(x.pnls);
    WinnersAreCounted(x.pnls);
  }

  function NetPnls(trades: seq<TradingModel.Trade>): (r: seq<real>)
    ensures |r| == |trades|
  {
    seq(|trades|, i requires 0 <= i < |trades| => trades[i].netPnl)
  }

  lemma {:induction false} SumOfNetPnls(trades: seq<TradingModel.Trade>)
    ensures Sum(NetPnls(trades)) == TradingModel.SumNet(trades)
  {
    if |trades| > 0 {
      SumOfNetPnls(trades[..|trades| - 1]);
      assert NetPnls(trades)[..|trades| - 1] == NetPnls(trades[..|trades| - 1]);
    }
  }

  /** From the simulator to the decision: a run whose trades lead to GO ended with more cash than it
      began with. */
  lemma GoMeansMoreCash(x: Inputs, cfg: TradingModel.Config, candles: seq<Candle>)
    requires x.Valid() && TradingModel.Priced(cfg, candles)
    ensures x.pnls == NetPnls(TradingModel.RunOf(cfg, candles).trades) && Validate(x) == Go ==>
      TradingModel.RunOf(cfg, candles).cash > cfg.capital
  {
    hide TradingModel.RunOf, Validate;
    if Validate(x) == Go {
      GoEarned(x);
    }
    SumOfNetPnls(TradingModel.RunOf(cfg, candles).trades);
    TradingLedger.FinalCash(cfg, candles);
  }

  const MAX_FALL := 20.0

  lemma FallBound(from: real, to: real)
    requires from > 0.0 && Fall(from, to) <= MAX_FALL
    ensures to >= 0.8 * from > 0.0
  {
    FallAsRatio(from, to);
    var y := to / from;
    assert y * from == to;
    MulMonotone(0.8, y, from);
  }

  /** A maximum drawdown within the limit keeps every value positive and bounds the fall between any two
      points in time order, not only those from a running peak. */
  lemma SmallDrawdown(e: seq<real>)
    requires |e| > 0 && e[0] > 0.0 && OnePass(e, |e|) <= MAX_FALL
    ensures forall i :: 0 <= i < |e| ==> e[i] > 0.0
    ensures forall i, j :: 0 <= i <= j < |e| ==> Fall(e[i], e[j]) <= MAX_FALL
  {
    hide Fall, OnePass, PrefixMax;
    var _ := OnePassAttained(e, |e|);
    forall i | 0 <= i < |e| ensures e[i] > 0.0 {
      PrefixMaxBounds(e, 0, i);
      assert DrawdownAt(e, i) <= MAX_FALL;
      FallBound(PrefixMax(e, i), e[i]);
    }
    OnePassIsPairwiseMax(e);
  }

  /** GO bounds every fall: all equity values are positive, and between no two points in time order is more
      than a fifth lost. */
  lemma GoBoundsEveryFall(x: Inputs)
    requires x.Valid() && Validate(x) == Go && |x.equity| >= 2
    ensures forall i :: 0 <= i < |x.equity| ==> x.equity[i] > 0.0
    ensures forall i, j :: 0 <= i <= j < |x.equity| ==> Fall(x.equity[i], x.equity[j]) <= MAX_FALL
  {
    hide Validate;
    GoIff(x);
    SmallDrawdown(x.equity);
  }

  function Values(curve: seq<TradingModel.EquityPoint>): (r: seq<real>)
    ensures |r| == |curve|
  {
    seq(|curve|, i requires 0 <= i < |curve| => curve[i].portfolioValue)
  }

  /** A simulated run that leads to GO never lost more than a fifth between two recorded points, and stayed
      solvent at all of them. */
  lemma GoRunNeverFallsFar(x: Inputs, cfg: TradingModel.Config, candles: seq<Candle>)
    requires x.Valid() && TradingModel.Priced(cfg, candles)
    ensures var r := TradingModel.RunOf(cfg, candles);
      x.pnls == NetPnls(r.trades) && x.equity == Values(r.curve) && Validate(x) == Go ==>
        && |r.curve| >= 2
        && (forall i :: 0 <= i < |r.curve| ==> r.curve[i].portfolioValue > 0.0)
        && forall i, j :: 0 <= i <= j < |r.curve| ==>
             r.curve[j].portfolioValue >= 0.8 * r.curve[i].portfolioValue
  {
    hide TradingModel.RunOf, Validate;
    var r := TradingModel.RunOf(cfg, candles);
    if x.pnls == NetPnls(r.trades) && x.equity == Values(r.curve) && Validate(x) == Go {
      GoIff(x);
      TradingCurve.TradesWithinPoints(cfg, candles);
      GoBoundsEveryFall(x);
      forall i, j | 0 <= i <= j < |r.curve|
        ensures r.curve[i].portfolioValue > 0.0
        ensures r.curve[j].portfolioValue >= 0.8 * r.curve[i].portfolioValue
      {
        assert x.equity[i] == r.curve[i].portfolioValue && x.equity[j] == r.curve[j].portfolioValue;
        FallBound(x.equity[i], x.equity[j]);
      }
    }
  }

  /** When all losing trades together cost at most a quarter of the capital, Monte Carlo adds no
      blocker, whatever the draws, provided there are enough trades for it to run. */
  lemma SmallLossesPassMonteCarlo(x: Inputs)
    requires x.Valid() && |x.pnls| >= MonteCarlo.MIN_TRADES
    requires MonteCarlo.TotalLosses(x.pnls) / x.capital * 100.0 <= 25.0
    ensures MonteCarloPasses(x)
    ensures Blockers(x) == Blockers(x.(monteCarlo := false))
  {
    hide Gates, Percentiles.Percentile, MonteCarlo.Drawdowns, MonteCarlo.Round2, MonteCarlo.Round4, Analyze,
         MonteCarlo.TotalLosses;
    MonteCarlo.LossesBoundTheReport(x.pnls, x.capital, x.shuffles, x.sqrt, 25);
  }

  // ------------------------------------------------------------------
  // The registry around a validation
  // ------------------------------------------------------------------

  class StrategyRegistry {
    /** Registered strategies, and whether each is active. */
    var entries: map<string, bool>

    constructor (entries: map<string, bool>)
      ensures this.entries == entries
    {
      this.entries := entries;
    }

    predicate IsActive(name: string)
      reads this
    {
      name in entries && entries[name]
    }

    /** Fails for a name that is not registered. */
    method SetActive(name: string, active: bool) returns (ok: bool)
      modifies this
      ensures ok <==> name in old(entries)
      ensures entries == if ok then old(entries)[name := active] else old(entries)
    {
      ok := name in entries;
      if ok {
        entries := entries[name := active];
      }
    }

    /** Activates the names that are not active, up to the first that is not registered. */
    method ActivateMissing(names: seq<string>) returns (ok: bool, activatedHere: seq<string>)
      modifies this
      ensures ok <==> AllRegistered(names, old(entries))
      ensures entries == Activated(names[..FirstMissing(names, old(entries))], old(entries))
      ensures ok ==> forall n :: n in activatedHere <==> n in names && n in old(entries) && !old(entries)[n]
    {
      activatedHere := [];
      FirstMissingIsFirst(names, entries);
      for i := 0 to |names|
        invariant i <= FirstMissing(names, old(entries))
        invariant entries == Activated(names[..i], old(entries))
        invariant forall n :: n in activatedHere <==> n in names[..i] && n in old(entries) && !old(entries)[n]
      {
        assert names[..i + 1][..i] == names[..i];
        ActivatedKeeps(names[..i], old(entries));
        if !IsActive(names[i]) {
          ok := SetActive(names[i], true);
          if !ok {
            return;
          }
          activatedHere := activatedHere + [names[i]];
        }
      }
      assert names[..|names|] == names;
      ok := true;
    }

    method DeactivateAll(names: seq<string>)
      requires forall i :: 0 <= i < |names| ==> names[i] in entries
      modifies this
      ensures entries.Keys == old(entries).Keys
      ensures forall n :: n in entries ==> entries[n] == (old(entries)[n] && n !in names)
    {
      for i := 0 to |names|
        invariant entries.Keys == old(entries).Keys
        invariant forall n :: n in entries ==> entries[n] == (old(entries)[n] && n !in names[..i])
      {
        var _ := SetActive(names[i], false);
      }
      assert names[..|names|] == names;
    }

    /** Activates what is not active, runs the body, and deactivates again what it activated, also
        when the body raises. A failing activation raises before the clean-up is armed. */
    method RunFullValidation(names: seq<string>, bodyRaises: bool) returns (raised: bool)
      modifies this
      ensures raised <==> bodyRaises || !AllRegistered(names, old(entries))
      ensures entries ==
        if AllRegistered(names, old(entries)) then old(entries)
        else Activated(names[..FirstMissing(names, old(entries))], old(entries))
    {
      FirstMissingIsFirst(names, entries);
      var ok, activatedHere := ActivateMissing(names);
      if !ok {
        return true;
      }
      assert names[..|names|] == names;
      ActivatedKeeps(names, old(entries));
      forall i | 0 <= i < |activatedHere| ensures activatedHere[i] in entries {
        assert activatedHere[i] in activatedHere;
      }
      DeactivateAll(activatedHere);
      raised := bodyRaises;
    }
  }

  predicate AllRegistered(names: seq<string>, entries: map<string, bool>) {
    forall i :: 0 <= i < |names| ==> names[i] in entries
  }

  /** Position of the first name that is not registered, or the number of names. */
  function FirstMissing(names: seq<string>, entries: map<string, bool>): (k: nat)
    ensures k <= |names|
  {
    if |names| == 0 || names[0] !in entries then 0 else 1 + FirstMissing(names[1..], entries)
  }

  lemma {:induction false} FirstMissingIsFirst(names: seq<string>, entries: map<string, bool>)
    ensures var k := FirstMissing(names, entries);
      && (forall i :: 0 <= i < k ==> names[i] in entries)
      && (k < |names| ==> names[k] !in entries)
      && (AllRegistered(names, entries) <==> k == |names|)
  {
    if |names| > 0 && names[0] in entries {
      FirstMissingIsFirst(names[1..], entries);
    }
  }

  /** The entries with all given names active. */
  function Activated(names: seq<string>, entries: map<string, bool>): (r: map<string, bool>) {
    if |names| == 0 then entries
    else
      var before := Activated(names[..|names| - 1], entries);
      var last := names[|names| - 1];
      if last in before && before[last] then before else before[last := true]
  }

  lemma {:induction false} ActivatedKeeps(names: seq<string>, entries: map<string, bool>)
    ensures entries.Keys <= Activated(names, entries).Keys
    ensures forall n :: n in Activated(names, entries) ==>
      Activated(names, entries)[n] == (n in names || (n in entries && entries[n]))
    ensures AllRegistered(names, entries) ==> Activated(names, entries).Keys == entries.Keys
  {
    if |names| > 0 {
      ActivatedKeeps(names[..|names| - 1], entries);
    }
  }

  /** A validation leaves the registry as it was if and only if every name is registered, or none of
      the names before the first unregistered one was inactive. */
  lemma RegistryRestoredIff(names: seq<string>, entries: map<string, bool>)
    ensures var k := FirstMissing(names, entries);
      var after := if AllRegistered(names, entries) then entries else Activated(names[..k], entries);
      after == entries <==>
        AllRegistered(names, entries) || forall i :: 0 <= i < k ==> names[i] in entries && entries[names[i]]
  {
    var k := FirstMissing(names, entries);
    FirstMissingIsFirst(names, entries);
    var prefix := names[..k];
    ActivatedKeeps(prefix, entries);
    assert AllRegistered(prefix, entries);
    if exists i :: 0 <= i < k && !entries[names[i]] {
      var i :| 0 <= i < k && !entries[names[i]];
      assert prefix[i] in prefix;
    }
  }

  /** A name that is not registered leaves a strategy active that was inactive before. */
  lemma RegistryCanStayActive()
    ensures var names, entries := ["known", "unknown"], map["known" := false];
      var k := FirstMissing(names, entries);
      !AllRegistered(names, entries) && k == 1 && Activated(names[..k], entries) == map["known" := true] != entries
  {
    var names, entries := ["known", "unknown"], map["known" := false];
    assert "known" != "unknown" by {
      assert |"known"| != |"unknown"|;
    }
    assert names[0] in entries && names[1] !in entries;
    assert names[1..] == ["unknown"];
    assert FirstMissing(["unknown"], entries) == 0;
    assert names[..1] == ["known"];
    assert entries["known" := true] == map["known" := true];
    assert !entries["known"];
  }
}
