/** Conservation of cash, the bound on what a long-only run can lose, and the absence of look-ahead. */
module TradingLedger {
  import opened Common
  import opened TradingModel
  import Indicators

  // ------------------------------------------------------------------
  // Conservation of cash
  // ------------------------------------------------------------------

  /** What opening the position that is still open did to cash. */
  function EntryFlow(cfg: Config, position: Option<Position>): real {
    match position
    case None => 0.0
    case Some(p) =>
      var notional := p.quantity * p.entryPrice;
      (if p.isLong then -notional else notional) - notional * cfg.takerFee
  }

  ghost predicate Conserved(cfg: Config, s: State) {
    s.cash == cfg.capital + SumNet(s.trades) + EntryFlow(cfg, s.position)
  }

  lemma SumNetOneMore(trades: seq<Trade>, t: Trade)
    ensures SumNet(trades + [t]) == SumNet(trades) + t.netPnl
  {
    assert (trades + [t])[..|trades|] == trades;
  }

  lemma FlowAlgebra(q: real, e: real, x: real, f: real, isLong: bool)
    ensures var flow := (if isLong then -(q * e) else q * e) - q * e * f;
      var close := if isLong then q * x - q * x * f else -(q * x + q * x * f);
      var net := (if isLong then x - e else e - x) * q - (q * e * f + q * x * f);
      flow + close == net
  {
    if isLong {
      assert (x - e) * q == q * x - q * e;
    } else {
      assert (e - x) * q == q * e - q * x;
    }
  }

  /** Closing a position records one trade and books exactly its net P&L: cash moves by that, less what
      opening the position did to cash. */
  lemma CloseBooksNetPnl(cfg: Config, s: State, price: real, time: int, barIndex: int, reason: Reason)
    requires 1.0 + cfg.slippage != 0.0 && s.position.Some?
    ensures var after := ClosePosition(cfg, s, price, time, barIndex, reason);
      && after.position.None? && |after.trades| == |s.trades| + 1 && after.trades[..|s.trades|] == s.trades
      && after.cash == s.cash - EntryFlow(cfg, s.position) + after.trades[|s.trades|].netPnl
  {
    hide ExitPrice, Abs;
    var p := s.position.value;
    FlowAlgebra(p.quantity, p.entryPrice, ExitPrice(cfg, p.isLong, price), cfg.takerFee, p.isLong);
  }

  /** A trade earns the move from its entry price to the price before slippage, less slippage on the exit
      and less the fee on both notionals, whichever side it is on. */
  lemma TradeCosts(cfg: Config, p: Position, price: real, time: int, barIndex: int, reason: Reason)
    requires 1.0 + cfg.slippage != 0.0
    ensures var t := TradeOf(cfg, p, price, time, barIndex, reason);
      && t.grossPnl == Move(p.isLong, p.entryPrice, price) * p.quantity - price * p.quantity * cfg.slippage
      && t.netPnl == t.grossPnl - (t.entryPrice + t.exitPrice) * t.quantity * cfg.takerFee
      && t.holdingBars == barIndex - p.entryBar && t.entryTime == p.entryTime && t.exitTime == time
      && t.symbol == p.symbol && t.strategy == p.strategy && t.regime == p.regime
      && t.confidence == p.confidence && t.mae == p.mae && t.mfe == p.mfe && t.reason == reason
  {
    hide Abs;
    var x := ExitPrice(cfg, p.isLong, price);
    SlippedMove(p.quantity, p.entryPrice, price, cfg.slippage, p.isLong, x);
    assert p.quantity * p.entryPrice * cfg.takerFee + p.quantity * x * cfg.takerFee
        == (p.entryPrice + x) * p.quantity * cfg.takerFee;
  }

  lemma SlippedMove(q: real, e: real, price: real, slip: real, isLong: bool, x: real)
    requires x == price * (if isLong then 1.0 - slip else 1.0 + slip)
    ensures (if isLong then x - e else e - x) * q
         == (if isLong then price - e else e - price) * q - price * q * slip
  {
    var d := price * slip;
    assert x == if isLong then price - d else price + d;
    assert price * q * slip == d * q;
  }

  lemma CloseConserves(cfg: Config, s: State, price: real, time: int, barIndex: int, reason: Reason)
    requires 1.0 + cfg.slippage != 0.0 && s.position.Some? && Conserved(cfg, s)
    ensures Conserved(cfg, ClosePosition(cfg, s, price, time, barIndex, reason))
  {
    hide ExitPrice, TradeOf, SumNet;
    CloseBooksNetPnl(cfg, s, price, time, barIndex, reason);
    SumNetOneMore(s.trades, TradeOf(cfg, s.position.value, price, time, barIndex, reason));
  }

  lemma OpenConserves(cfg: Config, s: State, signal: Signal, bar: Candle, barIndex: int)
    requires 1.0 + cfg.slippage != 0.0 && 1.0 - cfg.slippage != 0.0 && bar.open != 0.0
    requires s.position.None? && Conserved(cfg, s)
    ensures Conserved(cfg, OpenPosition(cfg, s, signal, bar, barIndex))
  {
    hide Notional, Affordable, EntryPrice, SumNet;
    EntryPriceNotZero(cfg, signal.direction == Long, bar.open);
    var e := EntryPrice(cfg, signal.direction == Long, bar.open);
    var notional := Notional(cfg, s.cash, signal);
    assert notional / e * e == notional;
  }

  lemma EntryPriceNotZero(cfg: Config, isLong: bool, open: real)
    requires 1.0 + cfg.slippage != 0.0 && 1.0 - cfg.slippage != 0.0 && open != 0.0
    ensures EntryPrice(cfg, isLong, open) != 0.0
  {
  }

  lemma BarConserves(
    cfg: Config, s: State, feature: Option<Indicators.FeatureSet>, candles: seq<Candle>, i: nat)
    requires Priced(cfg, candles) && i < |candles| && Conserved(cfg, s)
    ensures Conserved(cfg, BarStep(cfg, s, feature, candles, i))
  {
    hide ClosePosition, OpenPosition, ExitReason, GenerateSignal, DetectRegime, SumNet, UpdateExcursions,
         PortfolioValue;
    if feature.Some? {
      var regime := DetectRegime(feature.value);
      var u := Updated(s, candles[i].close);
      UpdateKeepsFlow(cfg, s, candles[i].close);
      if u.position.Some? {
        var reason := ExitReason(cfg, u.position.value, candles[i], i, Window(candles, i), regime);
        if reason.Some? {
          CloseConserves(cfg, u, candles[i].close, candles[i].timestamp, i, reason.value);
        }
      }
      var x := ExitPhase(cfg, s, regime, candles, i);
      var signal := GenerateSignal(cfg, feature.value, regime);
      if x.position.None? && signal.Some? && i + 1 < |candles| {
        OpenConserves(cfg, x, signal.value, candles[i + 1], i);
      }
    }
  }

  lemma UpdateKeepsFlow(cfg: Config, s: State, price: real)
    ensures EntryFlow(cfg, Updated(s, price).position) == EntryFlow(cfg, s.position)
  {
  }

  /** Through any run cash is the capital plus the net P&L of the closed trades plus what opening
      the open position cost or brought. */
  lemma {:induction false} CashIsConserved(cfg: Config, candles: seq<Candle>, n: nat)
    requires Priced(cfg, candles) && n <= |candles|
    ensures Conserved(cfg, Before(cfg, candles, n))
  {
    hide BarStep, Indicators.Precompute;
    if n > WARMUP_BARS {
      CashIsConserved(cfg, candles, n - 1);
      BarConserves(cfg, Before(cfg, candles, n - 1), Indicators.Precompute(candles, cfg.sqrt)[n - 1], candles, n - 1);
    }
  }

  /** A run ends flat, with exactly the capital plus the total net P&L, for longs and shorts alike. */
  lemma FinalCash(cfg: Config, candles: seq<Candle>)
    requires Priced(cfg, candles)
    ensures var s := RunOf(cfg, candles);
      s.position.None? && s.cash == cfg.capital + SumNet(s.trades)
  {
    hide Before, ClosePosition;
    CashIsConserved(cfg, candles, |candles|);
    var s := Before(cfg, candles, |candles|);
    if |candles| == 0 {
      NothingBeforeTheFirstBar(cfg, candles);
    } else if s.position.Some? {
      var last := candles[|candles| - 1];
      CloseConserves(cfg, s, last.close, last.timestamp, |candles| - 1, BacktestEnd);
      CloseFlattens(cfg, s, last.close, last.timestamp, |candles| - 1, BacktestEnd);
    }
  }

  lemma NothingBeforeTheFirstBar(cfg: Config, candles: seq<Candle>)
    requires Priced(cfg, candles) && |candles| == 0
    ensures Before(cfg, candles, 0) == InitialState(cfg)
  {
  }

  lemma CloseFlattens(cfg: Config, s: State, price: real, time: int, barIndex: int, reason: Reason)
    requires 1.0 + cfg.slippage != 0.0 && s.position.Some?
    ensures ClosePosition(cfg, s, price, time, barIndex, reason).position.None?
  {
  }

  /** Unrealised P&L of the open position at a price, less the fee that its entry has paid. */
  function Unrealised(cfg: Config, position: Option<Position>, price: real): real {
    match position
    case None => 0.0
    case Some(p) => Move(p.isLong, p.entryPrice, price) * p.quantity - p.quantity * p.entryPrice * cfg.takerFee
  }

  lemma PortfolioIsLedger(cfg: Config, s: State, price: real)
    requires Conserved(cfg, s)
    ensures PortfolioValue(s.cash, s.position, price)
         == cfg.capital + SumNet(s.trades) + Unrealised(cfg, s.position, price)
  {
    hide SumNet;
    if s.position.Some? {
      var p := s.position.value;
      MoveAlgebra(p.quantity, p.entryPrice, price, p.isLong);
    }
  }

  lemma MoveAlgebra(q: real, e: real, x: real, isLong: bool)
    ensures (if isLong then x - e else e - x) * q == if isLong then q * x - q * e else q * e - q * x
  {
  }

  // ------------------------------------------------------------------
  // No look-ahead
  // ------------------------------------------------------------------

  /** A step depends on the bars up to the next one only. */
  lemma BarStepLocal(
    cfg: Config, s: State, feature: Option<Indicators.FeatureSet>, a: seq<Candle>, b: seq<Candle>, i: nat)
    requires Priced(cfg, a) && Priced(cfg, b) && Indicators.Agree(a, b, i + 2)
    ensures BarStep(cfg, s, feature, a, i) == BarStep(cfg, s, feature, b, i)
  {
    hide ClosePosition, OpenPosition, ExitReason, GenerateSignal, DetectRegime, Recorded, Updated;
    Indicators.AgreeUse(a, b, i + 2);
    WindowLocal(a, b, i);
  }

  lemma WindowLocal(a: seq<Candle>, b: seq<Candle>, i: nat)
    requires Indicators.Agree(a, b, i + 1)
    ensures Window(a, i) == Window(b, i)
  {
    var lo := MaxInt(0, i - 14);
    assert Window(a, i) == a[..i + 1][lo..];
    assert Window(b, i) == b[..i + 1][lo..];
  }

  /** Series that agree on their first k bars lead to the same state, equity points included, before
      bar k - 1. The last agreed bar is needed because an entry is filled at the next bar's open. */
  lemma {:induction false} StatesDoNotLookAhead(cfg: Config, a: seq<Candle>, b: seq<Candle>, k: nat, n: nat)
    requires Priced(cfg, a) && Priced(cfg, b) && Indicators.Agree(a, b, k) && n < k
    ensures Before(cfg, a, n) == Before(cfg, b, n)
  {
    hide BarStep, Indicators.Precompute;
    if n > WARMUP_BARS {
      StatesDoNotLookAhead(cfg, a, b, k, n - 1);
      Indicators.FeaturesDoNotLookAhead(a, b, cfg.sqrt, k, n - 1);
      Indicators.AgreeLess(a, b, k, n + 1);
      BarStepLocal(cfg, Before(cfg, a, n - 1), Indicators.Precompute(a, cfg.sqrt)[n - 1], a, b, n - 1);
    }
  }

  lemma BarStepTrades(
    cfg: Config, s: State, feature: Option<Indicators.FeatureSet>, candles: seq<Candle>, i: nat)
    requires Priced(cfg, candles) && i < |candles|
    ensures BarStep(cfg, s, feature, candles, i).trades ==
      match feature
      case None => s.trades
      case Some(f) => ExitPhase(cfg, s, DetectRegime(f), candles, i).trades
  {
    hide ExitPhase, GenerateSignal, DetectRegime, Affordable, EntryPrice, Notional, PortfolioValue;
  }

  /** Every exit inside the loop at a bar before k is the same trade in both runs. */
  lemma ExitsDoNotLookAhead(cfg: Config, a: seq<Candle>, b: seq<Candle>, k: nat)
    requires Priced(cfg, a) && Priced(cfg, b) && Indicators.Agree(a, b, k)
    ensures Before(cfg, a, k).trades == Before(cfg, b, k).trades
  {
    hide BarStep, ExitPhase, Indicators.Precompute, DetectRegime;
    if k > WARMUP_BARS {
      StatesDoNotLookAhead(cfg, a, b, k, k - 1);
      Indicators.FeaturesDoNotLookAhead(a, b, cfg.sqrt, k, k - 1);
      var s, feature := Before(cfg, a, k - 1), Indicators.Precompute(a, cfg.sqrt)[k - 1];
      BarStepTrades(cfg, s, feature, a, k - 1);
      BarStepTrades(cfg, s, feature, b, k - 1);
      if feature.Some? {
        ExitPhaseLocal(cfg, s, DetectRegime(feature.value), a, b, k - 1);
      }
    }
  }

  lemma ExitPhaseLocal(cfg: Config, s: State, regime: Regime, a: seq<Candle>, b: seq<Candle>, i: nat)
    requires 1.0 + cfg.slippage != 0.0 && Indicators.Agree(a, b, i + 1)
    ensures ExitPhase(cfg, s, regime, a, i) == ExitPhase(cfg, s, regime, b, i)
  {
    hide Exited, Updated;
    Indicators.AgreeUse(a, b, i + 1);
    WindowLocal(a, b, i);
  }

  // ------------------------------------------------------------------
  // What a long-only run can lose
  // ------------------------------------------------------------------

  /** The largest share of cash that one entry can spend, fee included. */
  function Share(cfg: Config): real {
    MinReal(cfg.maxPositionPct, MAX_CASH_SHARE) * (1.0 + cfg.takerFee)
  }

  function Power(x: real, k: nat): real {
    if k == 0 then 1.0 else Power(x, k - 1) * x
  }

  ghost predicate LongOnly(cfg: Config) {
    forall k, f: Indicators.FeatureSet, regime ::
      0 <= k < |cfg.strategies| && cfg.strategies[k].generate(f, regime).Some? ==>
        WellFormedLong(cfg.strategies[k].generate(f, regime).value)
  }

  /** The field constraints of a signal, and the direction. */
  predicate WellFormedLong(signal: Signal) {
    signal.direction == Long && 0.0 <= signal.confidence <= 1.0 && 0.0 <= signal.sizeHint <= 1.0
  }

  /** Markets and costs as they are: prices and rates are not negative, nor are rates above one. */
  ghost predicate Sane(cfg: Config, candles: seq<Candle>) {
    && Priced(cfg, candles)
    && 0.0 <= cfg.capital && 0.0 <= cfg.takerFee <= 1.0 && 0.0 <= cfg.slippage <= 1.0
    && 0.0 <= cfg.maxPositionPct && Share(cfg) <= 1.0
    && forall i :: 0 <= i < |candles| ==> 0.0 < candles[i].open && 0.0 <= candles[i].close
  }

  /** Cash has lost at most the largest share once per entry so far. */
  ghost predicate Bounded(cfg: Config, s: State) {
    var r := 1.0 - Share(cfg);
    match s.position
    case None => s.cash >= cfg.capital * Power(r, |s.trades|)
    case Some(p) => p.isLong && p.quantity >= 0.0 && s.cash >= cfg.capital * Power(r, |s.trades| + 1)
  }

  lemma {:induction false} SignalsAreWellFormed(cfg: Config, n: nat, f: Indicators.FeatureSet, regime: Regime)
    requires LongOnly(cfg) && n <= |cfg.strategies|
    ensures forall i :: 0 <= i < |Signals(cfg.strategies[..n], f, regime)| ==>
      WellFormedLong(Signals(cfg.strategies[..n], f, regime)[i])
  {
    if n > 0 {
      SignalsAreWellFormed(cfg, n - 1, f, regime);
      assert cfg.strategies[..n][..n - 1] == cfg.strategies[..n - 1];
    }
  }

  lemma {:induction false} MostConfidentIsOneOfThem(signals: seq<Signal>)
    requires |signals| > 0
    ensures MostConfident(signals) in signals
    ensures forall i :: 0 <= i < |signals| ==> signals[i].confidence <= MostConfident(signals).confidence
  {
    if |signals| > 1 {
      MostConfidentIsOneOfThem(signals[..|signals| - 1]);
    }
  }

  lemma ChosenSignalIsWellFormed(cfg: Config, f: Indicators.FeatureSet, regime: Regime)
    requires LongOnly(cfg) && GenerateSignal(cfg, f, regime).Some?
    ensures WellFormedLong(GenerateSignal(cfg, f, regime).value)
  {
    SignalsAreWellFormed(cfg, |cfg.strategies|, f, regime);
    assert cfg.strategies[..|cfg.strategies|] == cfg.strategies;
    MostConfidentIsOneOfThem(Signals(cfg.strategies, f, regime));
  }

  lemma Scaled(x: real, y: real, c: real)
    requires 0.0 <= x <= y && 0.0 <= c <= 1.0
    ensures 0.0 <= x * c <= y
  {
  }

  lemma Times(x: real, y: real, c: real)
    requires x <= y && 0.0 <= c
    ensures x * c <= y * c
  {
  }

  /** An entry spends at most the largest share of cash. */
  lemma CostWithinShare(cfg: Config, cash: real, signal: Signal)
    requires 0.0 <= cfg.takerFee && 0.0 <= cfg.maxPositionPct && 0.0 <= cash && WellFormedLong(signal)
    ensures var notional := Notional(cfg, cash, signal);
      0.0 <= notional && notional + notional * cfg.takerFee <= cash * Share(cfg)
  {
    CapIsShareOfCash(cash, cfg.maxPositionPct);
    SizedCost(cash, MinReal(cfg.maxPositionPct, MAX_CASH_SHARE), signal.sizeHint, signal.confidence, cfg.takerFee,
              MaxNotional(cfg, cash, cash));
  }

  lemma SizedCost(cash: real, m: real, h: real, c: real, f: real, cap: real)
    requires cap == cash * m >= 0.0 && 0.0 <= h <= 1.0 && 0.0 <= c <= 1.0 && 0.0 <= f
    ensures var n := cap * h * c; 0.0 <= n && n + n * f <= cash * (m * (1.0 + f))
  {
    var sized := cap * h;
    Scaled(cap, cap, h);
    Scaled(sized, cap, c);
    var n := sized * c;
    Times(n, cap, 1.0 + f);
    assert cap * (1.0 + f) == cash * (m * (1.0 + f));
  }

  lemma CapIsShareOfCash(cash: real, pct: real)
    requires 0.0 <= cash && 0.0 <= pct
    ensures MinReal(cash * pct, cash * MAX_CASH_SHARE) == cash * MinReal(pct, MAX_CASH_SHARE) >= 0.0
  {
    if pct <= MAX_CASH_SHARE {
      Times(pct, MAX_CASH_SHARE, cash);
    } else {
      Times(MAX_CASH_SHARE, pct, cash);
    }
  }

  lemma PowerNotNegative(r: real, k: nat)
    requires 0.0 <= r
    ensures Power(r, k) >= 0.0
  {
  }

  lemma SpendingBound(cash: real, cost: real, share: real, floor: real)
    requires 0.0 <= floor <= cash && cost <= cash * share && share <= 1.0
    ensures cash - cost >= floor * (1.0 - share) >= 0.0
  {
    Times(floor, cash, 1.0 - share);
    assert cash - cash * share == cash * (1.0 - share);
  }

  lemma FloorNotNegative(cfg: Config, k: nat)
    requires 0.0 <= cfg.capital && Share(cfg) <= 1.0
    ensures cfg.capital * Power(1.0 - Share(cfg), k) >= 0.0
    ensures cfg.capital * Power(1.0 - Share(cfg), k + 1)
         == cfg.capital * Power(1.0 - Share(cfg), k) * (1.0 - Share(cfg))
  {
    hide Share;
    PowerNotNegative(1.0 - Share(cfg), k);
  }

  lemma OpenBounded(cfg: Config, s: State, signal: Signal, bar: Candle, barIndex: int)
    requires 0.0 <= cfg.takerFee && 0.0 <= cfg.maxPositionPct && 0.0 <= cfg.slippage < 1.0 && 0.0 < bar.open
    requires 0.0 <= cfg.capital && Share(cfg) <= 1.0
    requires s.position.None? && Bounded(cfg, s) && WellFormedLong(signal)
    ensures Bounded(cfg, OpenPosition(cfg, s, signal, bar, barIndex))
  {
    hide Share, Power, Notional, MaxNotional;
    var k := |s.trades|;
    FloorNotNegative(cfg, k);
    CostWithinShare(cfg, s.cash, signal);
    var notional := Notional(cfg, s.cash, signal);
    SpendingBound(s.cash, notional + notional * cfg.takerFee, Share(cfg),
                  cfg.capital * Power(1.0 - Share(cfg), k));
  }

  lemma ProceedsNotNegative(q: real, x: real, f: real)
    requires 0.0 <= q && 0.0 <= x && 0.0 <= f <= 1.0
    ensures 0.0 <= q * x - q * x * f
  {
    var n := q * x;
    assert n >= 0.0;
    Scaled(n, n, f);
  }

  lemma CloseBounded(cfg: Config, s: State, price: real, time: int, barIndex: int, reason: Reason)
    requires 0.0 <= cfg.takerFee <= 1.0 && 0.0 <= cfg.slippage <= 1.0 && 0.0 <= price
    requires s.position.Some? && Bounded(cfg, s)
    ensures Bounded(cfg, ClosePosition(cfg, s, price, time, barIndex, reason))
  {
    hide Share, Power, TradeOf;
    var p := s.position.value;
    var x := ExitPrice(cfg, true, price);
    Scaled(price, price, 1.0 - cfg.slippage);
    ProceedsNotNegative(p.quantity, x, cfg.takerFee);
  }

  lemma BarBounded(
    cfg: Config, s: State, feature: Option<Indicators.FeatureSet>, candles: seq<Candle>, i: nat)
    requires Sane(cfg, candles) && LongOnly(cfg) && i < |candles| && Bounded(cfg, s)
    ensures Bounded(cfg, BarStep(cfg, s, feature, candles, i))
  {
    hide ClosePosition, OpenPosition, ExitReason, GenerateSignal, DetectRegime, Share, Power, PortfolioValue;
    if feature.Some? {
      var regime := DetectRegime(feature.value);
      var u := Updated(s, candles[i].close);
      assert Bounded(cfg, u);
      if u.position.Some? {
        var reason := ExitReason(cfg, u.position.value, candles[i], i, Window(candles, i), regime);
        if reason.Some? {
          CloseBounded(cfg, u, candles[i].close, candles[i].timestamp, i, reason.value);
        }
      }
      var x := ExitPhase(cfg, s, regime, candles, i);
      assert Bounded(cfg, x);
      var signal := GenerateSignal(cfg, feature.value, regime);
      if x.position.None? && signal.Some? && i + 1 < |candles| {
        ChosenSignalIsWellFormed(cfg, feature.value, regime);
        OpenBounded(cfg, x, signal.value, candles[i + 1], i);
      }
    }
  }

  /** In a long-only run every entry can cost at most the largest share of cash, so after k trades
      cash is at least the capital times (1 - share) to the k, one power more while a position is
      open; it is never negative. */
  lemma {:induction false} LongOnlyCapitalBound(cfg: Config, candles: seq<Candle>, n: nat)
    requires Sane(cfg, candles) && LongOnly(cfg) && n <= |candles|
    ensures var s := Before(cfg, candles, n);
      Bounded(cfg, s) && s.cash >= 0.0
  {
    hide BarStep, Indicators.Precompute, Share;
    if n > WARMUP_BARS {
      LongOnlyCapitalBound(cfg, candles, n - 1);
      BarBounded(cfg, Before(cfg, candles, n - 1), Indicators.Precompute(candles, cfg.sqrt)[n - 1], candles, n - 1);
    }
    var s := Before(cfg, candles, n);
    FloorNotNegative(cfg, |s.trades|);
    FloorNotNegative(cfg, |s.trades| + 1);
  }

  /** The bound holds for the final cash of a run too, after the close that the end of the data forces. */
  lemma LongOnlyFinalCash(cfg: Config, candles: seq<Candle>)
    requires Sane(cfg, candles) && LongOnly(cfg)
    ensures var s := RunOf(cfg, candles);
      s.cash >= cfg.capital * Power(1.0 - Share(cfg), |s.trades|) >= 0.0
  {
    hide Before, ClosePosition, Share, Power;
    var n := |candles|;
    LongOnlyCapitalBound(cfg, candles, n);
    var s := Before(cfg, candles, n);
    FinalCash(cfg, candles);
    if n > 0 && s.position.Some? {
      CloseBounded(cfg, s, candles[n - 1].close, candles[n - 1].timestamp, n - 1, BacktestEnd);
    } else if n == 0 {
      NothingBeforeTheFirstBar(cfg, candles);
    }
    FloorNotNegative(cfg, |RunOf(cfg, candles).trades|);
  }

  /** The check that cash covers an entry never fails when the taker fee is at most one nineteenth;
      it is exact, because an entry at full size and confidence fails it for every higher fee. */
  lemma CashGuard(cfg: Config, cash: real, signal: Signal)
    requires 0.0 < cash && 0.0 <= cfg.takerFee && 0.0 <= cfg.maxPositionPct && WellFormedLong(signal)
    ensures var notional := Notional(cfg, cash, signal);
      && (cfg.takerFee <= 1.0 / 19.0 ==> notional + notional * cfg.takerFee <= cash)
      && (cfg.maxPositionPct >= MAX_CASH_SHARE && signal.confidence == signal.sizeHint == 1.0 ==>
            (notional + notional * cfg.takerFee <= cash <==> cfg.takerFee <= 1.0 / 19.0))
  {
    CostWithinShare(cfg, cash, signal);
    var notional := Notional(cfg, cash, signal);
    if cfg.takerFee <= 1.0 / 19.0 {
      SmallFeeShare(cfg);
      Within(cash, notional + notional * cfg.takerFee, Share(cfg));
    }
    if cfg.maxPositionPct >= MAX_CASH_SHARE && signal.confidence == signal.sizeHint == 1.0 {
      FullSize(cash, cfg.maxPositionPct, cfg.takerFee, MaxNotional(cfg, cash, cash),
               signal.sizeHint, signal.confidence);
    }
  }

  lemma SmallFeeShare(cfg: Config)
    requires 0.0 <= cfg.takerFee <= 1.0 / 19.0 && 0.0 <= cfg.maxPositionPct
    ensures Share(cfg) <= 1.0
  {
    SmallShare(MinReal(cfg.maxPositionPct, MAX_CASH_SHARE), 1.0 + cfg.takerFee);
  }

  lemma SmallShare(m: real, g: real)
    requires m <= 0.95 && 0.0 <= g <= 20.0 / 19.0
    ensures m * g <= 1.0
  {
    Times(m, 0.95, g);
    assert 0.95 * g <= 1.0;
  }

  lemma Within(cash: real, cost: real, share: real)
    requires 0.0 <= cash && cost <= cash * share && share <= 1.0
    ensures cost <= cash
  {
    Times(share, 1.0, cash);
  }

  lemma FullSize(cash: real, pct: real, f: real, cap: real, h: real, c: real)
    requires 0.0 < cash && pct >= MAX_CASH_SHARE && h == c == 1.0
    requires cap == MinReal(cash * pct, cash * MAX_CASH_SHARE)
    ensures var notional := cap * h * c; notional + notional * f <= cash <==> f <= 1.0 / 19.0
  {
    Times(MAX_CASH_SHARE, pct, cash);
    var notional := cap * h * c;
    assert notional == cap;
    assert notional == cash * MAX_CASH_SHARE;
    var d := 1.0 - MAX_CASH_SHARE * (1.0 + f);
    assert cash - (notional + notional * f) == cash * d;
    assert d >= 0.0 <==> f <= 1.0 / 19.0;
    assert d >= 0.0 ==> cash * d >= 0.0;
    assert d < 0.0 ==> cash * d < 0.0;
  }
}
