/** When and why a directional run closes a position: at every bar, in terms of that bar's close, the
    position and the fifteen bars up to it. */
module TradingExits {
  import opened Common
  import opened TradingModel
  import opened TradingCurve
  import Indicators

  // ------------------------------------------------------------------
  // The four conditions
  // ------------------------------------------------------------------

  /** Gain per unit at a price, negative for a loss. */
  function GainAt(p: Position, price: real): real {
    if p.isLong then price - p.entryPrice else p.entryPrice - price
  }

  /** The greatest of a bar's own range and the distances of its ends to the close before it. */
  function TrueRange(before: Candle, bar: Candle): real {
    var own, up, down := bar.high - bar.low, Abs(bar.high - before.close), Abs(bar.low - before.close);
    if own >= up && own >= down then own else if up >= down then up else down
  }

  /** The ranges of the fifteen bars up to bar i; the first of them has no bar before it. */
  function Ranges(candles: seq<Candle>, i: nat): (r: seq<real>)
    requires 14 <= i < |candles|
    ensures |r| == 15
  {
    seq(15, j requires 0 <= j < 15 =>
      if j == 0 then candles[i - 14].high - candles[i - 14].low
      else TrueRange(candles[i - 15 + j], candles[i - 14 + j]))
  }

  /** Thirteen parts of the mean of the first fourteen ranges and one part of the last. */
  function AtrAt(candles: seq<Candle>, i: nat): real
    requires 14 <= i < |candles|
  {
    (Sum(Ranges(candles, i)[..14]) / 14.0 * 13.0 + Ranges(candles, i)[14]) / 14.0
  }

  predicate RegimeLeft(p: Position, regime: Regime) {
    p.regime == Ranging && regime != Ranging
  }

  /** The loss exceeds the multiple of a range that is there and not zero. */
  predicate StopReached(cfg: Config, p: Position, candles: seq<Candle>, i: nat)
    requires 14 <= i < |candles|
  {
    AtrAt(candles, i) != 0.0 && -GainAt(p, candles[i].close) > AtrAt(candles, i) * cfg.atrStopMultiplier
  }

  /** The gain is at least the one at the target. */
  predicate TargetGained(p: Position, price: real) {
    p.targetPrice.Some? && GainAt(p, price) >= GainAt(p, p.targetPrice.value)
  }

  predicate LimitReached(cfg: Config, p: Position, i: nat) {
    i - p.entryBar >= cfg.maxHoldingBars
  }

  // ------------------------------------------------------------------
  // The range behind the stop
  // ------------------------------------------------------------------

  lemma RangesAreTrueRanges(candles: seq<Candle>, i: nat)
    requires 14 <= i < |candles|
    ensures Indicators.TrueRanges(candles[i - 14..i + 1]) == Ranges(candles, i)
  {
    hide Abs, TrueRange, MaxReal;
    var w := candles[i - 14..i + 1];
    forall j | 0 <= j < 15 ensures Indicators.TrueRanges(w)[j] == Ranges(candles, i)[j] {
      assert w[j] == candles[i - 14 + j];
      if j > 0 {
        var k := i - 15 + j;
        assert w[j - 1] == candles[k] && w[j] == candles[k + 1];
        TrueRangeIs(candles[k], candles[k + 1]);
        assert Ranges(candles, i)[j] == TrueRange(candles[k], candles[k + 1]);
      }
    }
  }

  lemma TrueRangeIs(before: Candle, bar: Candle)
    ensures TrueRange(before, bar) == MaxReal(
      bar.high - bar.low, MaxReal(Abs(bar.high - before.close), Abs(bar.low - before.close)))
  {
    hide Abs;
  }

  lemma WilderOfFifteen(ranges: seq<real>)
    requires |ranges| == 15
    ensures Indicators.Rma(ranges, 14)[14] == Some((Sum(ranges[..14]) / 14.0 * 13.0 + ranges[14]) / 14.0)
  {
    hide Sum;
    var alpha := 1.0 / 14.0;
    assert Indicators.SmoothAt(ranges, 14, alpha, 13) == Sum(ranges[..14]) / 14.0;
    assert Indicators.SmoothAt(ranges, 14, alpha, 14)
        == ranges[14] * alpha + Indicators.SmoothAt(ranges, 14, alpha, 13) * (1.0 - alpha);
  }

  lemma StopAtrIs(candles: seq<Candle>, i: nat)
    requires 14 <= i < |candles|
    ensures StopAtr(Window(candles, i)) == if AtrAt(candles, i) == 0.0 then None else Some(AtrAt(candles, i))
  {
    hide Indicators.Rma, Indicators.TrueRanges, Ranges, Sum;
    var w := Window(candles, i);
    assert w == candles[i - 14..i + 1] && w[|w| - 15..] == w;
    RangesAreTrueRanges(candles, i);
    WilderOfFifteen(Ranges(candles, i));
  }

  // ------------------------------------------------------------------
  // One bar
  // ------------------------------------------------------------------

  function RegimeAt(cfg: Config, candles: seq<Candle>, i: nat): Regime
    requires WARMUP_BARS <= i < |candles|
  {
    HasFeatures(cfg, candles, i);
    DetectRegime(Indicators.Precompute(candles, cfg.sqrt)[i].value)
  }

  /** The trade closes position p at bar i, for the reason that applies first. */
  ghost predicate Closes(cfg: Config, candles: seq<Candle>, p: Position, t: Trade, i: nat)
    requires WARMUP_BARS <= i < |candles|
  {
    var left := RegimeLeft(p, RegimeAt(cfg, candles, i));
    var stopped, reached := StopReached(cfg, p, candles, i), TargetGained(p, candles[i].close);
    && p.symbol == candles[i].symbol
    && t.entryTime == p.entryTime && t.exitTime == candles[i].timestamp && t.isLong == p.isLong
    && t.entryPrice == p.entryPrice && t.quantity == p.quantity && t.holdingBars == i - p.entryBar
    && (t.reason == RegimeChange <==> left)
    && (t.reason == AtrStop <==> !left && stopped)
    && (t.reason == TargetReached <==> !left && !stopped && reached)
    && (t.reason == TimeExit <==> !left && !stopped && !reached && LimitReached(cfg, p, i))
    && t.reason != BacktestEnd
  }

  predicate MustClose(cfg: Config, candles: seq<Candle>, p: Position, i: nat)
    requires WARMUP_BARS <= i < |candles|
  {
    && p.symbol == candles[i].symbol
    && (|| RegimeLeft(p, RegimeAt(cfg, candles, i)) || StopReached(cfg, p, candles, i)
        || TargetGained(p, candles[i].close) || LimitReached(cfg, p, i))
  }

  lemma ReasonIs(cfg: Config, p: Position, candles: seq<Candle>, i: nat, regime: Regime)
    requires WARMUP_BARS <= i < |candles|
    ensures ExitReason(cfg, p, candles[i], i, Window(candles, i), regime) ==
      if p.symbol != candles[i].symbol then None
      else if RegimeLeft(p, regime) then Some(RegimeChange)
      else if StopReached(cfg, p, candles, i) then Some(AtrStop)
      else if TargetGained(p, candles[i].close) then Some(TargetReached)
      else if LimitReached(cfg, p, i) then Some(TimeExit)
      else None
  {
    hide AtrAt, StopAtr, Window;
    StopAtrIs(candles, i);
  }

  lemma ExcursionsDoNotDecide(cfg: Config, p: Position, price: real, candles: seq<Candle>, i: nat)
    requires WARMUP_BARS <= i < |candles|
    ensures var q := UpdateExcursions(p, price);
      && q.(mae := p.mae, mfe := p.mfe) == p
      && MustClose(cfg, candles, q, i) == MustClose(cfg, candles, p, i)
      && forall t :: Closes(cfg, candles, q, t, i) == Closes(cfg, candles, p, t, i)
  {
    hide AtrAt, RegimeAt;
  }

  lemma ExitPhaseDecides(cfg: Config, s: State, candles: seq<Candle>, i: nat)
    requires Priced(cfg, candles) && WARMUP_BARS <= i < |candles| && s.position.Some?
    ensures var x := ExitPhase(cfg, s, RegimeAt(cfg, candles, i), candles, i); var p := s.position.value;
      if MustClose(cfg, candles, p, i)
      then x.position.None? && |x.trades| == |s.trades| + 1 && x.trades[..|s.trades|] == s.trades
           && Closes(cfg, candles, p, x.trades[|s.trades|], i)
      else x.trades == s.trades && x.position.Some? && x.position.value.(mae := p.mae, mfe := p.mfe) == p
  {
    hide RegimeAt, ExitReason, Window, UpdateExcursions, StopReached, TargetGained, Abs, ExitPrice;
    var p := s.position.value;
    var q := UpdateExcursions(p, candles[i].close);
    ExcursionsDoNotDecide(cfg, p, candles[i].close, candles, i);
    ReasonIs(cfg, q, candles, i, RegimeAt(cfg, candles, i));
    if MustClose(cfg, candles, q, i) {
      var x := ExitPhase(cfg, s, RegimeAt(cfg, candles, i), candles, i);
      assert Closes(cfg, candles, q, x.trades[|s.trades|], i);
    }
  }

  lemma AtEntryIsExitPhase(cfg: Config, candles: seq<Candle>, i: nat)
    requires Priced(cfg, candles) && WARMUP_BARS <= i < |candles|
    ensures AtEntry(cfg, candles, i).0 == ExitPhase(cfg, Before(cfg, candles, i), RegimeAt(cfg, candles, i), candles, i)
  {
    hide ExitPhase, Before, GenerateSignal, DetectRegime, Indicators.Precompute;
    HasFeatures(cfg, candles, i);
  }

  /** At every bar after the warm-up, the open position is closed if and only if it is in the bar's own symbol
      and the regime left, or the stop, the target or the limit was reached; the reason is the first that
      applies. Otherwise it stays as it is, and without a position nothing is closed. */
  lemma ExitDecides(cfg: Config, candles: seq<Candle>, i: nat)
    requires Priced(cfg, candles) && WARMUP_BARS <= i < |candles|
    ensures var s, r := Before(cfg, candles, i), Before(cfg, candles, i + 1);
      match s.position
      case None => r.trades == s.trades
      case Some(p) =>
        if MustClose(cfg, candles, p, i)
        then |r.trades| == |s.trades| + 1 && r.trades[..|s.trades|] == s.trades
             && Closes(cfg, candles, p, r.trades[|s.trades|], i)
        else r.trades == s.trades && r.position.Some? && r.position.value.(mae := p.mae, mfe := p.mfe) == p
  {
    hide Before, ExitPhase, GenerateSignal, MustClose, Closes, RegimeAt, AtEntry, OpenPosition, PortfolioValue;
    var s := Before(cfg, candles, i);
    BeforeByFill(cfg, candles, i);
    AtEntryIsExitPhase(cfg, candles, i);
    if s.position.Some? {
      ExitPhaseDecides(cfg, s, candles, i);
    } else {
      NothingToExit(cfg, s, RegimeAt(cfg, candles, i), candles, i);
    }
  }

  lemma NothingToExit(cfg: Config, s: State, regime: Regime, candles: seq<Candle>, i: nat)
    requires 1.0 + cfg.slippage != 0.0 && i < |candles| && s.position.None?
    ensures ExitPhase(cfg, s, regime, candles, i) == s
  {
  }

  // ------------------------------------------------------------------
  // Whole runs
  // ------------------------------------------------------------------

  /** The trade was closed inside the loop, at bar i, for the reason that applied first. */
  ghost predicate ClosedInLoop(cfg: Config, candles: seq<Candle>, t: Trade, i: nat)
    requires Priced(cfg, candles)
  {
    && WARMUP_BARS <= i < |candles| && Before(cfg, candles, i).position.Some?
    && Closes(cfg, candles, Before(cfg, candles, i).position.value, t, i)
  }

  lemma {:induction false} LoopTradesHaveReasons(cfg: Config, candles: seq<Candle>, n: nat)
    requires Priced(cfg, candles) && n <= |candles|
    ensures forall t :: t in Before(cfg, candles, n).trades ==>
      exists i: nat :: i < n && ClosedInLoop(cfg, candles, t, i)
  {
    hide BarStep, Closes, MustClose, Indicators.Precompute;
    if n > WARMUP_BARS {
      var i := n - 1;
      LoopTradesHaveReasons(cfg, candles, i);
      ExitDecides(cfg, candles, i);
      var s, r := Before(cfg, candles, i), Before(cfg, candles, n);
      forall t | t in r.trades ensures exists i: nat :: i < n && ClosedInLoop(cfg, candles, t, i) {
        if t !in s.trades {
          assert t == r.trades[|s.trades|];
          assert ClosedInLoop(cfg, candles, t, i);
        }
      }
    }
  }

  /** Every trade of a run was closed inside the loop for the reason that applied first at its bar, or is the
      last one, closed because the data ended with the position open. */
  lemma EveryTradeHasItsReason(cfg: Config, candles: seq<Candle>)
    requires Priced(cfg, candles)
    ensures var trades := RunOf(cfg, candles).trades;
      forall k :: 0 <= k < |trades| ==>
        || (trades[k].reason != BacktestEnd && exists i: nat :: ClosedInLoop(cfg, candles, trades[k], i))
        || (trades[k].reason == BacktestEnd && k == |trades| - 1 && Before(cfg, candles, |candles|).position.Some?)
  {
    hide Before, ExitPrice, Abs;
    LoopTradesHaveReasons(cfg, candles, |candles|);
    var s, trades := Before(cfg, candles, |candles|), RunOf(cfg, candles).trades;
    forall k | 0 <= k < |trades|
      ensures || (trades[k].reason != BacktestEnd && exists i: nat :: ClosedInLoop(cfg, candles, trades[k], i))
              || (trades[k].reason == BacktestEnd && k == |trades| - 1 && s.position.Some?)
    {
      if k < |s.trades| {
        assert trades[k] in s.trades;
      }
    }
  }
}
