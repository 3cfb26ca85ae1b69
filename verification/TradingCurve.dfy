/** The recorded equity curve of a directional run: every point is the ledger at its bar, the last point
    against the final cash, and the one way in which a point depends on the bar after it. */
module TradingCurve {
  import opened Common
  import opened TradingModel
  import opened TradingLedger
  import Indicators

  // ------------------------------------------------------------------
  // Every recorded point is the ledger
  // ------------------------------------------------------------------

  /** The highest of the capital and the values recorded so far. */
  function PeakOf(capital: real, curve: seq<EquityPoint>): real {
    if |curve| == 0 then capital
    else MaxReal(PeakOf(capital, curve[..|curve| - 1]), curve[|curve| - 1].portfolioValue)
  }

  /** The point that shows a state's ledger at a price, with the drawdown from a peak. */
  function LedgerPoint(cfg: Config, s: State, peak: real, time: int, price: real): EquityPoint {
    var cash := cfg.capital + SumNet(s.trades) + EntryFlow(cfg, s.position);
    var value := cfg.capital + SumNet(s.trades) + Unrealised(cfg, s.position, price);
    EquityPoint(time, value, cash, value - cash, if peak > 0.0 then (peak - value) / peak * 100.0 else 0.0)
  }

  /** Point j of the curve is the ledger right after bar WARMUP_BARS + j, at that bar's close. */
  ghost predicate PointIsLedger(cfg: Config, candles: seq<Candle>, curve: seq<EquityPoint>, j: nat)
    requires Priced(cfg, candles) && j < |curve| && WARMUP_BARS + j < |candles|
  {
    var bar := candles[WARMUP_BARS + j];
    curve[j] == LedgerPoint(cfg, Before(cfg, candles, WARMUP_BARS + j + 1), PeakOf(cfg.capital, curve[..j + 1]),
                            bar.timestamp, bar.close)
  }

  lemma HasFeatures(cfg: Config, candles: seq<Candle>, i: nat)
    requires WARMUP_BARS <= i < |candles|
    ensures Indicators.Precompute(candles, cfg.sqrt)[i].Some?
  {
    hide Indicators.AllLines, Indicators.FeaturesAt;
  }

  /** A bar with features adds one point, taken from the state it leaves behind. */
  lemma BarRecords(cfg: Config, s: State, f: Indicators.FeatureSet, candles: seq<Candle>, i: nat)
    requires Priced(cfg, candles) && i < |candles|
    ensures var r := BarStep(cfg, s, Some(f), candles, i);
      var value := PortfolioValue(r.cash, r.position, candles[i].close);
      && r.peak == MaxReal(s.peak, value)
      && r.curve == s.curve + [EquityPoint(candles[i].timestamp, value, r.cash, value - r.cash,
                                           if r.peak > 0.0 then (r.peak - value) / r.peak * 100.0 else 0.0)]
  {
    hide ExitReason, GenerateSignal, DetectRegime, Affordable, EntryPrice, Notional, PortfolioValue, TradeOf;
  }

  lemma PeakOneMore(capital: real, curve: seq<EquityPoint>, p: EquityPoint)
    ensures PeakOf(capital, curve + [p]) == MaxReal(PeakOf(capital, curve), p.portfolioValue)
  {
    assert (curve + [p])[..|curve|] == curve;
  }

  lemma PointStays(cfg: Config, candles: seq<Candle>, curve: seq<EquityPoint>, p: EquityPoint, j: nat)
    requires Priced(cfg, candles) && j < |curve| && WARMUP_BARS + j < |candles|
    requires PointIsLedger(cfg, candles, curve, j)
    ensures PointIsLedger(cfg, candles, curve + [p], j)
  {
    hide Before, PeakOf;
    assert (curve + [p])[..j + 1] == curve[..j + 1];
  }

  /** In every run there is one point per bar after the warm-up. Its cash is the ledger of the trades and of
      the open position's entry so far, its value adds the unrealised P&L at that bar's close less the entry
      fee, and its drawdown is the fall from the highest value so far. */
  lemma {:induction false} CurveIsLedger(cfg: Config, candles: seq<Candle>, n: nat)
    requires Priced(cfg, candles) && n <= |candles|
    ensures var s := Before(cfg, candles, n);
      && |s.curve| == MaxInt(n - WARMUP_BARS, 0) && s.peak == PeakOf(cfg.capital, s.curve)
      && forall j :: 0 <= j < |s.curve| ==> PointIsLedger(cfg, candles, s.curve, j)
  {
    hide BarStep, Indicators.Precompute, PeakOf, LedgerPoint, PortfolioValue, PointIsLedger;
    if n <= WARMUP_BARS {
      NoPoints(cfg);
    } else {
      var i := n - 1;
      CurveIsLedger(cfg, candles, i);
      HasFeatures(cfg, candles, i);
      var s, r := Before(cfg, candles, i), Before(cfg, candles, n);
      BarRecords(cfg, s, Indicators.Precompute(candles, cfg.sqrt)[i].value, candles, i);
      var p := r.curve[|s.curve|];
      PeakOneMore(cfg.capital, s.curve, p);
      NewPointIsLedger(cfg, candles, n, s.curve, p);
      forall j | 0 <= j < |s.curve| ensures PointIsLedger(cfg, candles, r.curve, j) {
        PointStays(cfg, candles, s.curve, p, j);
      }
    }
  }

  lemma NoPoints(cfg: Config)
    ensures PeakOf(cfg.capital, InitialState(cfg).curve) == cfg.capital
  {
  }

  lemma NewPointIsLedger(cfg: Config, candles: seq<Candle>, n: nat, curve: seq<EquityPoint>, p: EquityPoint)
    requires Priced(cfg, candles) && WARMUP_BARS < n <= |candles| && |curve| == n - 1 - WARMUP_BARS
    requires var r := Before(cfg, candles, n);
      var value := PortfolioValue(r.cash, r.position, candles[n - 1].close);
      && r.peak == PeakOf(cfg.capital, curve + [p])
      && p == EquityPoint(candles[n - 1].timestamp, value, r.cash, value - r.cash,
                          if r.peak > 0.0 then (r.peak - value) / r.peak * 100.0 else 0.0)
    ensures PointIsLedger(cfg, candles, curve + [p], n - 1 - WARMUP_BARS)
  {
    hide Before, PeakOf, PortfolioValue;
    var j := n - 1 - WARMUP_BARS;
    assert (curve + [p])[..j + 1] == curve + [p];
    CashIsConserved(cfg, candles, n);
    PortfolioIsLedger(cfg, Before(cfg, candles, n), candles[n - 1].close);
  }

  /** What closing a position at a price costs: slippage on the price and the exit fee. */
  function ExitCost(cfg: Config, position: Option<Position>, price: real): real {
    match position
    case None => 0.0
    case Some(p) => p.quantity * price * cfg.slippage + p.quantity * ExitPrice(cfg, p.isLong, price) * cfg.takerFee
  }

  lemma ClosingCosts(cfg: Config, s: State, price: real, time: int, barIndex: int, reason: Reason)
    requires 1.0 + cfg.slippage != 0.0 && s.position.Some?
    ensures ClosePosition(cfg, s, price, time, barIndex, reason).cash
         == PortfolioValue(s.cash, s.position, price) - ExitCost(cfg, s.position, price)
  {
    hide TradeOf;
    var p := s.position.value;
    var q, x := p.quantity, ExitPrice(cfg, p.isLong, price);
    var slip := q * price * cfg.slippage;
    assert q * x == if p.isLong then q * price - slip else q * price + slip;
  }

  /** A run keeps the curve of its loop. The last point exceeds the final cash by exactly what closing the
      position that is open at the end costs. */
  lemma LastPointAgainstFinalCash(cfg: Config, candles: seq<Candle>)
    requires Priced(cfg, candles) && |candles| > WARMUP_BARS
    ensures var s, r := Before(cfg, candles, |candles|), RunOf(cfg, candles);
      && r.curve == s.curve && |r.curve| == |candles| - WARMUP_BARS
      && r.curve[|r.curve| - 1].portfolioValue ==
           r.cash + ExitCost(cfg, s.position, candles[|candles| - 1].close)
  {
    hide Before, ClosePosition, PortfolioValue, ExitCost;
    var n := |candles|;
    var s, last := Before(cfg, candles, n), candles[n - 1];
    CurveIsLedger(cfg, candles, n);
    assert PointIsLedger(cfg, candles, s.curve, n - 1 - WARMUP_BARS);
    CashIsConserved(cfg, candles, n);
    PortfolioIsLedger(cfg, s, last.close);
    FinishKeepsCurve(cfg, s, candles);
    if s.position.Some? {
      ClosingCosts(cfg, s, last.close, last.timestamp, n - 1, BacktestEnd);
    } else {
      FlatCosts(cfg, s, last.close);
    }
  }

  lemma FinishKeepsCurve(cfg: Config, s: State, candles: seq<Candle>)
    requires Priced(cfg, candles)
    ensures Finish(cfg, s, candles).curve == s.curve
  {
  }

  lemma FlatCosts(cfg: Config, s: State, price: real)
    requires s.position.None?
    ensures PortfolioValue(s.cash, s.position, price) == s.cash && ExitCost(cfg, s.position, price) == 0.0
  {
  }

  /** A bar closes at most one position. */
  lemma ExitsAtMostOnce(cfg: Config, s: State, regime: Regime, candles: seq<Candle>, i: nat)
    requires 1.0 + cfg.slippage != 0.0 && i < |candles|
    ensures |ExitPhase(cfg, s, regime, candles, i).trades| <= |s.trades| + 1
  {
    hide ExitReason, UpdateExcursions, TradeOf, ExitPrice;
  }

  lemma {:induction false} TradesBeforeWithinPoints(cfg: Config, candles: seq<Candle>, n: nat)
    requires Priced(cfg, candles) && n <= |candles|
    ensures var s := Before(cfg, candles, n); |s.trades| <= |s.curve|
  {
    hide BarStep, ExitPhase, DetectRegime, Indicators.Precompute, PortfolioValue;
    if n > WARMUP_BARS {
      var i := n - 1;
      TradesBeforeWithinPoints(cfg, candles, i);
      HasFeatures(cfg, candles, i);
      var s, f := Before(cfg, candles, i), Indicators.Precompute(candles, cfg.sqrt)[i];
      BarStepTrades(cfg, s, f, candles, i);
      ExitsAtMostOnce(cfg, s, DetectRegime(f.value), candles, i);
      BarRecords(cfg, s, f.value, candles, i);
    }
  }

  /** A run has at most one trade more than recorded points. */
  lemma TradesWithinPoints(cfg: Config, candles: seq<Candle>)
    requires Priced(cfg, candles)
    ensures |RunOf(cfg, candles).trades| <= |RunOf(cfg, candles).curve| + 1
  {
    hide Before, TradeOf, ExitPrice;
    TradesBeforeWithinPoints(cfg, candles, |candles|);
  }

  // ------------------------------------------------------------------
  // What a point knows of the bar after it
  // ------------------------------------------------------------------

  function Next(candles: seq<Candle>, i: nat): Option<Candle> {
    if i + 1 < |candles| then Some(candles[i + 1]) else None
  }

  function FillOf(cfg: Config, s: State, signal: Option<Signal>, next: Option<Candle>): Option<(real, int)>
    requires 1.0 + cfg.slippage != 0.0 && 1.0 - cfg.slippage != 0.0 && (next.Some? ==> next.value.open != 0.0)
  {
    if s.position.Some? || signal.None? || next.None? then None
    else
      EntryPriceNotZero(cfg, signal.value.direction == Long, next.value.open);
      if Affordable(cfg, s.cash, signal.value, EntryPrice(cfg, signal.value.direction == Long, next.value.open))
      then Some((next.value.open, next.value.timestamp)) else None
  }

  /** The state that the loop enters bar i's entry with, and the signal it finds there. */
  function AtEntry(cfg: Config, candles: seq<Candle>, i: nat): (State, Option<Signal>)
    requires Priced(cfg, candles) && WARMUP_BARS <= i < |candles|
  {
    HasFeatures(cfg, candles, i);
    var f := Indicators.Precompute(candles, cfg.sqrt)[i].value;
    (ExitPhase(cfg, Before(cfg, candles, i), DetectRegime(f), candles, i), GenerateSignal(cfg, f, DetectRegime(f)))
  }

  /** The fill of an entry that is signalled at bar i, as the open and time of the bar that fills it. */
  function EntryAt(cfg: Config, candles: seq<Candle>, i: nat): Option<(real, int)>
    requires Priced(cfg, candles) && i < |candles|
  {
    if i < WARMUP_BARS then None
    else
      var (x, signal) := AtEntry(cfg, candles, i);
      FillOf(cfg, x, signal, Next(candles, i))
  }

  lemma SameEntryPrice(cfg: Config, isLong: bool, x: real, y: real)
    requires 1.0 + cfg.slippage != 0.0 && 1.0 - cfg.slippage != 0.0
    ensures EntryPrice(cfg, isLong, x) == EntryPrice(cfg, isLong, y) ==> x == y
  {
    var f := if isLong then 1.0 + cfg.slippage else 1.0 - cfg.slippage;
    SameProduct(x, y, f, EntryPrice(cfg, isLong, x), EntryPrice(cfg, isLong, y));
  }

  lemma SameProduct(x: real, y: real, f: real, p: real, q: real)
    requires f != 0.0 && p == x * f && q == y * f
    ensures p == q ==> x == y
  {
    if x != y {
      assert p - q == (x - y) * f;
      if (x > y) == (f > 0.0) {
        assert (x - y) * f > 0.0;
      } else {
        assert (x - y) * f < 0.0;
      }
    }
  }

  /** The state after an entry, as Entered computes it from the next bar alone. */
  function EnteredWith(cfg: Config, s: State, signal: Option<Signal>, next: Option<Candle>, i: nat): State
    requires 1.0 + cfg.slippage != 0.0 && 1.0 - cfg.slippage != 0.0 && (next.Some? ==> next.value.open != 0.0)
  {
    if s.position.Some? || signal.None? || next.None? then s else OpenPosition(cfg, s, signal.value, next.value, i)
  }

  /** Entering from two different next bars gives the same state exactly when the fills are the same. */
  lemma SameEntryIff(cfg: Config, s: State, signal: Option<Signal>, a: Option<Candle>, b: Option<Candle>, i: nat)
    requires 1.0 + cfg.slippage != 0.0 && 1.0 - cfg.slippage != 0.0
    requires (a.Some? ==> a.value.open != 0.0) && (b.Some? ==> b.value.open != 0.0)
    ensures EnteredWith(cfg, s, signal, a, i) == EnteredWith(cfg, s, signal, b, i)
       <==> FillOf(cfg, s, signal, a) == FillOf(cfg, s, signal, b)
  {
    hide Affordable, Notional, EntryPrice;
    if s.position.None? && signal.Some? && a.Some? && b.Some? {
      SameEntryPrice(cfg, signal.value.direction == Long, a.value.open, b.value.open);
    }
  }

  lemma RecordedKeepsApart(s: State, t: State, bar: Candle)
    requires s.peak == t.peak && s.trades == t.trades && s.curve == t.curve
    ensures Recorded(s, bar) == Recorded(t, bar) <==> s == t
  {
    hide PortfolioValue;
  }

  /** A bar's step in terms of the next bar alone. */
  lemma BarStepByFill(cfg: Config, s: State, f: Indicators.FeatureSet, candles: seq<Candle>, i: nat)
    requires Priced(cfg, candles) && i < |candles|
    ensures var regime := DetectRegime(f);
      var x := ExitPhase(cfg, s, regime, candles, i);
      var t := EnteredWith(cfg, x, GenerateSignal(cfg, f, regime), Next(candles, i), i);
      && BarStep(cfg, s, Some(f), candles, i) == Recorded(t, candles[i])
      && t.peak == x.peak && t.trades == x.trades && t.curve == x.curve
  {
    hide ExitPhase, GenerateSignal, DetectRegime, Affordable, EntryPrice, Notional, Recorded;
  }

  /** Up to the entry at bar i both series lead to the same features and the same state. */
  lemma SameUntilEntry(cfg: Config, a: seq<Candle>, b: seq<Candle>, i: nat)
    requires Priced(cfg, a) && Priced(cfg, b) && WARMUP_BARS <= i && Indicators.Agree(a, b, i + 1)
    ensures Before(cfg, a, i) == Before(cfg, b, i) && a[i] == b[i]
    ensures var f := Indicators.Precompute(a, cfg.sqrt)[i];
      && f.Some? && f == Indicators.Precompute(b, cfg.sqrt)[i]
      && ExitPhase(cfg, Before(cfg, a, i), DetectRegime(f.value), a, i)
           == ExitPhase(cfg, Before(cfg, b, i), DetectRegime(f.value), b, i)
  {
    hide Before, ExitPhase, DetectRegime, Indicators.Precompute;
    StatesDoNotLookAhead(cfg, a, b, i + 1, i);
    Indicators.FeaturesDoNotLookAhead(a, b, cfg.sqrt, i + 1, i);
    Indicators.AgreeUse(a, b, i + 1);
    HasFeatures(cfg, a, i);
    var f := Indicators.Precompute(a, cfg.sqrt)[i].value;
    ExitPhaseLocal(cfg, Before(cfg, a, i), DetectRegime(f), a, b, i);
  }

  lemma BeforeByFill(cfg: Config, candles: seq<Candle>, i: nat)
    requires Priced(cfg, candles) && WARMUP_BARS <= i < |candles|
    ensures var (x, signal) := AtEntry(cfg, candles, i);
      var t := EnteredWith(cfg, x, signal, Next(candles, i), i);
      && Before(cfg, candles, i + 1) == Recorded(t, candles[i])
      && t.peak == x.peak && t.trades == x.trades && t.curve == x.curve
      && EntryAt(cfg, candles, i) == FillOf(cfg, x, signal, Next(candles, i))
  {
    hide BarStep, ExitPhase, GenerateSignal, DetectRegime, Indicators.Precompute, FillOf, EnteredWith, Recorded;
    HasFeatures(cfg, candles, i);
    BarStepByFill(cfg, Before(cfg, candles, i), Indicators.Precompute(candles, cfg.sqrt)[i].value, candles, i);
  }

  /** Two series that agree up to bar k - 1 lead to the same state after it if and only if an entry that is
      signalled there is filled alike: not at all in either, or at the same open and time in both. */
  lemma NextOpenDecidesIff(cfg: Config, a: seq<Candle>, b: seq<Candle>, k: nat)
    requires Priced(cfg, a) && Priced(cfg, b) && k > 0 && Indicators.Agree(a, b, k)
    ensures Before(cfg, a, k) == Before(cfg, b, k) <==> EntryAt(cfg, a, k - 1) == EntryAt(cfg, b, k - 1)
  {
    hide BarStep, ExitPhase, GenerateSignal, DetectRegime, Indicators.Precompute, FillOf, EnteredWith, Recorded;
    if k > WARMUP_BARS {
      hide Before, EntryAt;
      var i := k - 1;
      SameUntilEntry(cfg, a, b, i);
      BeforeByFill(cfg, a, i);
      BeforeByFill(cfg, b, i);
      var (x, signal) := AtEntry(cfg, a, i);
      SameEntryIff(cfg, x, signal, Next(a, i), Next(b, i), i);
      RecordedKeepsApart(EnteredWith(cfg, x, signal, Next(a, i), i), EnteredWith(cfg, x, signal, Next(b, i), i), a[i]);
    }
  }

  const ALL_REGIMES := {TrendingUp, TrendingDown, Ranging, Breakout, HighVolatility, LowVolatility, Crisis, Unknown}

  function Always(direction: SignalDirection): Signal {
    Signal("S", "always", direction, 1.0, 1.0, Unknown, None)
  }

  /** A strategy that gives the same signal at every bar, without costs. */
  function Steady(direction: SignalDirection): Config {
    Config(10000.0, 0.0, 0.0, 0.1, 2.5, 20, [Strategy(ALL_REGIMES, (f, r) => Some(Always(direction)))], x => x)
  }

  lemma SteadySignal(direction: SignalDirection, f: Indicators.FeatureSet, regime: Regime)
    ensures GenerateSignal(Steady(direction), f, regime) == Some(Always(direction))
  {
    var strategies := Steady(direction).strategies;
    assert regime in ALL_REGIMES;
    assert Signals(strategies[..0], f, regime) == [];
    assert Signals(strategies, f, regime) == [Always(direction)];
  }

  lemma SteadyAffords(direction: SignalDirection, isLong: bool, open: real)
    requires 100.0 <= open <= 200.0
    ensures EntryPrice(Steady(direction), isLong, open) == open
    ensures Affordable(Steady(direction), 10000.0, Always(direction), open)
    ensures Notional(Steady(direction), 10000.0, Always(direction)) == 1000.0
  {
    var q := 1000.0 / open;
    assert q * open == 1000.0;
    assert q > MIN_QUANTITY by {
      if q <= MIN_QUANTITY {
        MulMonotone(q, MIN_QUANTITY, open);
      }
    }
  }

  /** It enters right after the warm-up, at the next open, and is valued at the close before it. */
  lemma SteadyEntry(direction: SignalDirection, candles: seq<Candle>)
    requires Priced(Steady(direction), candles) && |candles| == WARMUP_BARS + 2
    requires candles[WARMUP_BARS].close == 100.0 && 100.0 <= candles[WARMUP_BARS + 1].open <= 200.0
    ensures var s := Before(Steady(direction), candles, WARMUP_BARS + 1);
      var q := 1000.0 / candles[WARMUP_BARS + 1].open;
      && s.position.Some? && |s.curve| == 1
      && (direction == Long ==> s.curve[0].portfolioValue == 9000.0 + q * 100.0)
  {
    hide Indicators.Precompute, DetectRegime, Affordable, Notional, GenerateSignal, EntryPrice;
    var cfg := Steady(direction);
    var open := candles[WARMUP_BARS + 1].open;
    HasFeatures(cfg, candles, WARMUP_BARS);
    var f := Indicators.Precompute(candles, cfg.sqrt)[WARMUP_BARS].value;
    SteadySignal(direction, f, DetectRegime(f));
    assert Before(cfg, candles, WARMUP_BARS) == InitialState(cfg);
    SteadyAffords(direction, direction == Long, open);
    BeforeByFill(cfg, candles, WARMUP_BARS);
  }

  /** A strategy that always signals makes the bar after decide: two series that differ only from bar k on
      have different equity points at bar k - 1. */
  lemma NextOpenCanDecide() returns (cfg: Config, a: seq<Candle>, b: seq<Candle>, k: nat)
    ensures Priced(cfg, a) && Priced(cfg, b) && k <= |a| && k <= |b| && Indicators.Agree(a, b, k)
    ensures |Before(cfg, a, k).curve| == |Before(cfg, b, k).curve| == 1
    ensures Before(cfg, a, k).curve[0].portfolioValue == 10000.0
    ensures Before(cfg, b, k).curve[0].portfolioValue == 9500.0
  {
    hide Before;
    k := WARMUP_BARS + 1;
    cfg := Steady(Long);
    a := seq(k + 1, i => Candle("S", 60 * i, 100.0, 100.0, 100.0, 100.0, 1.0));
    b := a[k := Candle("S", 60 * k, 200.0, 200.0, 100.0, 100.0, 1.0)];
    Indicators.AgreeAt(a, b, k);
    SteadyEntry(Long, a);
    SteadyEntry(Long, b);
  }
}
