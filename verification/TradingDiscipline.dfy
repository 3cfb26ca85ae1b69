/** The discipline of a directional run: one position at a time, closed trades in strict time order,
    bounded holding, and excursions that cover every close seen while holding. */
module TradingDiscipline {
  import opened Common
  import opened TradingModel
  import Indicators
  import TradingLedger

  /** Strategies signal the symbol of the bar they look at, and the series has one symbol. */
  ghost predicate OwnSymbol(cfg: Config, candles: seq<Candle>, symbol: string) {
    && (forall i :: 0 <= i < |candles| ==> candles[i].symbol == symbol)
    && forall k, f: Indicators.FeatureSet, regime ::
         0 <= k < |cfg.strategies| && cfg.strategies[k].generate(f, regime).Some? && f.symbol == symbol ==>
           cfg.strategies[k].generate(f, regime).value.symbol == symbol
  }

  /** A position signalled at bar b was filled at the open of the bar after it. */
  ghost predicate FilledAfter(
    cfg: Config, candles: seq<Candle>, isLong: bool, entryPrice: real, entryTime: int, b: int)
  {
    && WARMUP_BARS <= b && b + 1 < |candles|
    && entryTime == candles[b + 1].timestamp
    && entryPrice == EntryPrice(cfg, isLong, candles[b + 1].open)
  }

  /** The excursions are the worst and the best move, or zero, at the closes of the bars after b up to e. */
  ghost predicate Covers(
    candles: seq<Candle>, isLong: bool, entryPrice: real, mae: real, mfe: real, b: int, e: int)
  {
    && mae >= 0.0 && mfe >= 0.0
    && (mae == 0.0 || exists k :: 0 <= b < k <= e < |candles| && Move(isLong, entryPrice, candles[k].close) == -mae)
    && (mfe == 0.0 || exists k :: 0 <= b < k <= e < |candles| && Move(isLong, entryPrice, candles[k].close) == mfe)
    && forall k :: 0 <= b < k <= e < |candles| ==> -mae <= Move(isLong, entryPrice, candles[k].close) <= mfe
  }

  /** Bars before n have been processed. */
  ghost predicate PositionOk(cfg: Config, candles: seq<Candle>, n: nat, symbol: string, p: Position) {
    && FilledAfter(cfg, candles, p.isLong, p.entryPrice, p.entryTime, p.entryBar)
    && p.entryBar < n <= |candles| && p.symbol == symbol
    && (n - 1 - p.entryBar > 0 ==> n - 1 - p.entryBar < cfg.maxHoldingBars)
    && Covers(candles, p.isLong, p.entryPrice, p.mae, p.mfe, p.entryBar, n - 1)
  }

  function Limit(cfg: Config): int {
    MaxInt(1, cfg.maxHoldingBars)
  }

  /** The trade was closed at bar e: filled the bar after its signal, held between one bar and the
      limit, its excursions covering every close on the way, the last of which it was closed at. */
  ghost predicate ClosedAt(cfg: Config, candles: seq<Candle>, t: Trade, e: int) {
    && 0 <= e < |candles| && t.exitTime == candles[e].timestamp
    && t.exitPrice == ExitPrice(cfg, t.isLong, candles[e].close)
    && 1 <= t.holdingBars <= Limit(cfg)
    && FilledAfter(cfg, candles, t.isLong, t.entryPrice, t.entryTime, e - t.holdingBars)
    && Covers(candles, t.isLong, t.entryPrice, t.mae, t.mfe, e - t.holdingBars, e)
  }

  /** `exits` lists the closing bars of the trades: each trade was signalled at or after the bar at
      which the one before it closed. */
  ghost predicate Disciplined(cfg: Config, candles: seq<Candle>, trades: seq<Trade>, exits: seq<int>) {
    && |exits| == |trades|
    && (forall i :: 0 <= i < |trades| ==> ClosedAt(cfg, candles, trades[i], exits[i]))
    && (forall i, j :: 0 <= i < j < |trades| ==> exits[i] <= exits[j] - trades[j].holdingBars)
  }

  ghost predicate Orderly(
    cfg: Config, candles: seq<Candle>, n: nat, symbol: string, s: State, exits: seq<int>)
  {
    && n <= |candles|
    && Disciplined(cfg, candles, s.trades, exits)
    && (forall i :: 0 <= i < |exits| ==> exits[i] < n)
    && (s.position.Some? ==>
          && PositionOk(cfg, candles, n, symbol, s.position.value)
          && forall i :: 0 <= i < |exits| ==> exits[i] <= s.position.value.entryBar)
  }

  lemma UpdateCovers(candles: seq<Candle>, p: Position, n: nat)
    requires 0 <= p.entryBar < n < |candles|
    requires Covers(candles, p.isLong, p.entryPrice, p.mae, p.mfe, p.entryBar, n - 1)
    ensures var q := UpdateExcursions(p, candles[n].close);
      Covers(candles, q.isLong, q.entryPrice, q.mae, q.mfe, q.entryBar, n)
  {
    var q, move := UpdateExcursions(p, candles[n].close), Move(p.isLong, p.entryPrice, candles[n].close);
    if q.mae == p.mae && p.mae != 0.0 {
      var k :| p.entryBar < k < n && Move(p.isLong, p.entryPrice, candles[k].close) == -p.mae;
      assert Move(q.isLong, q.entryPrice, candles[k].close) == -q.mae;
    }
    if q.mfe == p.mfe && p.mfe != 0.0 {
      var k :| p.entryBar < k < n && Move(p.isLong, p.entryPrice, candles[k].close) == p.mfe;
      assert Move(q.isLong, q.entryPrice, candles[k].close) == q.mfe;
    }
    assert q.mae != p.mae ==> Move(q.isLong, q.entryPrice, candles[n].close) == -q.mae;
    assert q.mfe != p.mfe ==> Move(q.isLong, q.entryPrice, candles[n].close) == q.mfe;
  }

  /** Closing at bar n a position that has been updated with that bar's close. */
  lemma CloseDisciplined(
    cfg: Config, candles: seq<Candle>, n: nat, s: State, exits: seq<int>, reason: Reason)
    requires Priced(cfg, candles) && n < |candles| && s.position.Some?
    requires Disciplined(cfg, candles, s.trades, exits)
    requires var p := s.position.value;
      && FilledAfter(cfg, candles, p.isLong, p.entryPrice, p.entryTime, p.entryBar)
      && 1 <= n - p.entryBar <= Limit(cfg)
      && Covers(candles, p.isLong, p.entryPrice, p.mae, p.mfe, p.entryBar, n)
      && forall i :: 0 <= i < |exits| ==> exits[i] <= p.entryBar
    ensures var t := ClosePosition(cfg, s, candles[n].close, candles[n].timestamp, n, reason);
      t.position.None? && Disciplined(cfg, candles, t.trades, exits + [n])
  {
    hide ExitPrice, EntryPrice, Covers, Abs;
    var t := TradeOf(cfg, s.position.value, candles[n].close, candles[n].timestamp, n, reason);
    assert ClosedAt(cfg, candles, t, n);
  }

  lemma ExitPhaseOrderly(
    cfg: Config, candles: seq<Candle>, n: nat, symbol: string, s: State, exits: seq<int>, regime: Regime)
    returns (later: seq<int>)
    requires Priced(cfg, candles) && n < |candles| && candles[n].symbol == symbol
    requires Orderly(cfg, candles, n, symbol, s, exits)
    ensures Orderly(cfg, candles, n + 1, symbol, ExitPhase(cfg, s, regime, candles, n), later)
  {
    hide ClosePosition, StopAtr, StopHit, EntryPrice;
    later := exits;
    if s.position.Some? {
      var u := Updated(s, candles[n].close);
      var p := u.position.value;
      UpdateCovers(candles, s.position.value, n);
      var reason := ExitReason(cfg, p, candles[n], n, Window(candles, n), regime);
      if reason.Some? {
        CloseDisciplined(cfg, candles, n, u, exits, reason.value);
        later := exits + [n];
      }
    }
  }

  lemma {:induction false} SignalsHaveSymbol(
    cfg: Config, candles: seq<Candle>, symbol: string, n: nat, f: Indicators.FeatureSet, regime: Regime)
    requires OwnSymbol(cfg, candles, symbol) && n <= |cfg.strategies| && f.symbol == symbol
    ensures forall i :: 0 <= i < |Signals(cfg.strategies[..n], f, regime)| ==>
      Signals(cfg.strategies[..n], f, regime)[i].symbol == symbol
  {
    if n > 0 {
      SignalsHaveSymbol(cfg, candles, symbol, n - 1, f, regime);
      assert cfg.strategies[..n][..n - 1] == cfg.strategies[..n - 1];
    }
  }

  lemma ChosenSignalHasSymbol(
    cfg: Config, candles: seq<Candle>, symbol: string, f: Indicators.FeatureSet, regime: Regime)
    requires OwnSymbol(cfg, candles, symbol) && f.symbol == symbol && GenerateSignal(cfg, f, regime).Some?
    ensures GenerateSignal(cfg, f, regime).value.symbol == symbol
  {
    SignalsHaveSymbol(cfg, candles, symbol, |cfg.strategies|, f, regime);
    assert cfg.strategies[..|cfg.strategies|] == cfg.strategies;
    TradingLedger.MostConfidentIsOneOfThem(Signals(cfg.strategies, f, regime));
  }

  lemma OpenOrderly(
    cfg: Config, candles: seq<Candle>, n: nat, symbol: string, s: State, exits: seq<int>, signal: Signal)
    requires Priced(cfg, candles) && WARMUP_BARS <= n && n + 1 < |candles| && signal.symbol == symbol
    requires s.position.None? && Orderly(cfg, candles, n + 1, symbol, s, exits)
    ensures Orderly(cfg, candles, n + 1, symbol, OpenPosition(cfg, s, signal, candles[n + 1], n), exits)
  {
    hide EntryPrice, Affordable, Notional;
  }

  lemma BarOrderly(
    cfg: Config, candles: seq<Candle>, n: nat, symbol: string, s: State, exits: seq<int>,
    f: Indicators.FeatureSet)
    returns (later: seq<int>)
    requires Priced(cfg, candles) && WARMUP_BARS <= n < |candles|
    requires OwnSymbol(cfg, candles, symbol) && f.symbol == symbol
    requires Orderly(cfg, candles, n, symbol, s, exits)
    ensures Orderly(cfg, candles, n + 1, symbol, BarStep(cfg, s, Some(f), candles, n), later)
  {
    hide ExitPhase, OpenPosition, GenerateSignal, DetectRegime, PositionOk, Disciplined, PortfolioValue, OwnSymbol;
    var regime := DetectRegime(f);
    assert candles[n].symbol == symbol by { SymbolOf(cfg, candles, symbol, n); }
    later := ExitPhaseOrderly(cfg, candles, n, symbol, s, exits, regime);
    var x := ExitPhase(cfg, s, regime, candles, n);
    var signal := GenerateSignal(cfg, f, regime);
    if x.position.None? && signal.Some? && n + 1 < |candles| {
      ChosenSignalHasSymbol(cfg, candles, symbol, f, regime);
      OpenOrderly(cfg, candles, n, symbol, x, later, signal.value);
    }
  }

  lemma SymbolOf(cfg: Config, candles: seq<Candle>, symbol: string, n: nat)
    requires OwnSymbol(cfg, candles, symbol) && n < |candles|
    ensures candles[n].symbol == symbol
  {
  }

  /** From the warm-up on there are features, and they carry the bar's symbol. */
  lemma FeatureOf(cfg: Config, candles: seq<Candle>, symbol: string, n: nat)
    requires OwnSymbol(cfg, candles, symbol) && WARMUP_BARS <= n < |candles|
    ensures var f := Indicators.Precompute(candles, cfg.sqrt)[n]; f.Some? && f.value.symbol == symbol
  {
    hide Indicators.AllLines;
  }

  lemma {:induction false} RunIsOrderly(cfg: Config, candles: seq<Candle>, n: nat, symbol: string)
    returns (exits: seq<int>)
    requires Priced(cfg, candles) && OwnSymbol(cfg, candles, symbol) && n <= |candles|
    ensures Orderly(cfg, candles, n, symbol, Before(cfg, candles, n), exits)
  {
    hide BarStep, Indicators.Precompute, OwnSymbol, PositionOk;
    exits := [];
    if n > WARMUP_BARS {
      var earlier := RunIsOrderly(cfg, candles, n - 1, symbol);
      FeatureOf(cfg, candles, symbol, n - 1);
      exits := BarOrderly(cfg, candles, n - 1, symbol, Before(cfg, candles, n - 1), earlier,
                          Indicators.Precompute(candles, cfg.sqrt)[n - 1].value);
    }
  }

  /** Over a whole run closed trades are strictly ordered in time without overlap, each is held
      between one bar and the holding limit, and its excursions cover every close from its first
      bar to its exit. */
  lemma TradeDiscipline(cfg: Config, candles: seq<Candle>, symbol: string) returns (exits: seq<int>)
    requires Priced(cfg, candles) && OwnSymbol(cfg, candles, symbol) && StrictlyTimeOrdered(candles)
    ensures var trades := RunOf(cfg, candles).trades;
      && Disciplined(cfg, candles, trades, exits)
      && (forall i :: 0 <= i < |trades| ==> trades[i].entryTime <= trades[i].exitTime)
      && (forall i, j :: 0 <= i < j < |trades| ==> trades[i].exitTime < trades[j].entryTime)
  {
    hide Before, OwnSymbol, ClosePosition;
    exits := RunIsOrderly(cfg, candles, |candles|, symbol);
    var s := Before(cfg, candles, |candles|);
    if |candles| > 0 && s.position.Some? {
      CloseDisciplined(cfg, candles, |candles| - 1, s, exits, BacktestEnd);
      exits := exits + [|candles| - 1];
    }
    InTimeOrder(cfg, candles, RunOf(cfg, candles).trades, exits);
  }

  lemma InTimeOrder(cfg: Config, candles: seq<Candle>, trades: seq<Trade>, exits: seq<int>)
    requires Disciplined(cfg, candles, trades, exits) && StrictlyTimeOrdered(candles)
    ensures forall i :: 0 <= i < |trades| ==> trades[i].entryTime <= trades[i].exitTime
    ensures forall i, j :: 0 <= i < j < |trades| ==> trades[i].exitTime < trades[j].entryTime
  {
    hide Covers, ExitPrice, EntryPrice;
    forall i | 0 <= i < |trades| ensures trades[i].entryTime <= trades[i].exitTime {
      assert ClosedAt(cfg, candles, trades[i], exits[i]);
    }
    forall i, j | 0 <= i < j < |trades| ensures trades[i].exitTime < trades[j].entryTime {
      assert ClosedAt(cfg, candles, trades[i], exits[i]);
      assert ClosedAt(cfg, candles, trades[j], exits[j]);
    }
  }

  /** A signal is chosen if and only if some confident strategy signals and they do not contradict each
      other; then it is one of them, and none is more confident. */
  lemma SignalChoice(cfg: Config, f: Indicators.FeatureSet, regime: Regime)
    ensures var signals := Signals(cfg.strategies, f, regime);
      var chosen := GenerateSignal(cfg, f, regime);
      && (chosen.Some? <==> |signals| > 0 && !(HasDirection(signals, Long) && HasDirection(signals, Short)))
      && (chosen.Some? ==>
            && chosen.value in signals && chosen.value.confidence >= MIN_CONFIDENCE
            && forall i :: 0 <= i < |signals| ==> signals[i].confidence <= chosen.value.confidence)
  {
    hide HasDirection;
    var signals := Signals(cfg.strategies, f, regime);
    SignalsAreConfident(cfg, |cfg.strategies|, f, regime);
    assert cfg.strategies[..|cfg.strategies|] == cfg.strategies;
    if |signals| > 0 {
      TradingLedger.MostConfidentIsOneOfThem(signals);
    }
  }

  lemma {:induction false} SignalsAreConfident(cfg: Config, n: nat, f: Indicators.FeatureSet, regime: Regime)
    requires n <= |cfg.strategies|
    ensures forall s :: s in Signals(cfg.strategies[..n], f, regime) ==> s.confidence >= MIN_CONFIDENCE
  {
    if n > 0 {
      SignalsAreConfident(cfg, n - 1, f, regime);
      assert cfg.strategies[..n][..n - 1] == cfg.strategies[..n - 1];
    }
  }
}
