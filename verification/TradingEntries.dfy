/** When a directional run opens a position, on what terms, and which signal and regime it acts on. */
module TradingEntries {
  import opened Common
  import opened TradingModel
  import opened TradingLedger
  import opened TradingCurve
  import Indicators

  // ------------------------------------------------------------------
  // Terms of an entry
  // ------------------------------------------------------------------

  /** The next open, made worse by slippage: dearer to buy, cheaper to sell. */
  function Fill(cfg: Config, isLong: bool, open: real): real {
    if isLong then open + open * cfg.slippage else open - open * cfg.slippage
  }

  /** The smaller of the position limit and 95 percent of cash, weighted by size hint and confidence. */
  function Size(cfg: Config, cash: real, signal: Signal): real {
    Limit(cash * cfg.maxPositionPct, cash * 0.95) * signal.sizeHint * signal.confidence
  }

  /** The smaller of what the position limit and what the cash allows. */
  function Limit(limit: real, room: real): real {
    if limit <= room then limit else room
  }

  /** There is cash, the quantity is not dust, and cash covers size and fee. */
  predicate Enters(cfg: Config, cash: real, signal: Signal, price: real) {
    && cash * cfg.maxPositionPct > 0.0 && cash > 0.0
    && price != 0.0 && Size(cfg, cash, signal) / price > 0.00001
    && Size(cfg, cash, signal) * (1.0 + cfg.takerFee) <= cash
  }

  /** A position opened at bar i on a signal: at the next open and at its time, for the full size. */
  ghost predicate OpenedOn(cfg: Config, p: Position, signal: Signal, cash: real, next: Candle, i: nat) {
    && (p.isLong <==> signal.direction == Long)
    && p.entryPrice == Fill(cfg, p.isLong, next.open) && p.entryTime == next.timestamp && p.entryBar == i
    && p.quantity * p.entryPrice == Size(cfg, cash, signal)
    && p.symbol == signal.symbol && p.strategy == signal.strategy && p.confidence == signal.confidence
    && p.regime == signal.regime && p.targetPrice == signal.targetPrice && p.mae == p.mfe == 0.0
  }

  lemma FillIs(cfg: Config, isLong: bool, open: real)
    ensures EntryPrice(cfg, isLong, open) == Fill(cfg, isLong, open)
  {
  }

  lemma SizeIs(cfg: Config, cash: real, signal: Signal)
    ensures Notional(cfg, cash, signal) == Size(cfg, cash, signal)
    ensures MaxNotional(cfg, cash, cash) > 0.0 <==> cash * cfg.maxPositionPct > 0.0 && cash > 0.0
  {
    hide Notional, Size;
    RoomIs(cash);
    LimitIs(cfg, cash);
    NotionalIs(cfg, cash, signal);
    SizeOf(cfg, cash, signal);
  }

  lemma RoomIs(cash: real)
    ensures cash * MAX_CASH_SHARE == cash * 0.95 && (cash * 0.95 > 0.0 <==> cash > 0.0)
  {
    assert MAX_CASH_SHARE == 0.95;
  }

  lemma LimitIs(cfg: Config, cash: real)
    ensures MaxNotional(cfg, cash, cash) == Limit(cash * cfg.maxPositionPct, cash * 0.95)
  {
    RoomIs(cash);
  }

  lemma NotionalIs(cfg: Config, cash: real, signal: Signal)
    ensures Notional(cfg, cash, signal) == MaxNotional(cfg, cash, cash) * signal.sizeHint * signal.confidence
  {
    hide MaxNotional;
  }

  lemma SizeOf(cfg: Config, cash: real, signal: Signal)
    ensures Size(cfg, cash, signal)
         == Limit(cash * cfg.maxPositionPct, cash * 0.95) * signal.sizeHint * signal.confidence
  {
  }

  lemma AffordableIs(cfg: Config, cash: real, signal: Signal, price: real)
    requires price != 0.0
    ensures Affordable(cfg, cash, signal, price) <==> Enters(cfg, cash, signal, price)
  {
    hide Notional, Size, MaxNotional;
    SizeIs(cfg, cash, signal);
    FeeAlgebra(Size(cfg, cash, signal), cfg.takerFee);
  }

  lemma FeeAlgebra(size: real, fee: real)
    ensures size + size * fee == size * (1.0 + fee)
  {
  }

  lemma OpeningIs(cfg: Config, s: State, signal: Signal, next: Candle, i: nat)
    requires 1.0 + cfg.slippage != 0.0 && 1.0 - cfg.slippage != 0.0 && next.open != 0.0 && s.position.None?
    ensures var r := OpenPosition(cfg, s, signal, next, i); var size := Size(cfg, s.cash, signal);
      var isLong := signal.direction == Long;
      if Enters(cfg, s.cash, signal, Fill(cfg, isLong, next.open))
      then r.position.Some? && OpenedOn(cfg, r.position.value, signal, s.cash, next, i) &&
           r.cash == (if isLong then s.cash - size else s.cash + size) - size * cfg.takerFee
      else r == s
  {
    hide Notional, Size, Affordable, Enters, EntryPrice, Fill;
    var isLong := signal.direction == Long;
    EntryPriceNotZero(cfg, isLong, next.open);
    FillIs(cfg, isLong, next.open);
    SizeIs(cfg, s.cash, signal);
    AffordableIs(cfg, s.cash, signal, Fill(cfg, isLong, next.open));
    var size, price := Size(cfg, s.cash, signal), Fill(cfg, isLong, next.open);
    assert size / price * price == size;
  }

  /** At every bar after the warm-up, once the exits are done: a position is opened if and only if none is
      left, a signal is chosen, there is a next bar, and the entry goes through; it is opened on the signal's
      terms at the next open, and cash pays the size, or receives it for a short, and the fee. */
  lemma EntryDecides(cfg: Config, candles: seq<Candle>, i: nat)
    requires Priced(cfg, candles) && WARMUP_BARS <= i < |candles|
    ensures var (x, signal) := AtEntry(cfg, candles, i); var r := Before(cfg, candles, i + 1);
      if x.position.None? && signal.Some? && i + 1 < |candles| &&
         Enters(cfg, x.cash, signal.value, Fill(cfg, signal.value.direction == Long, candles[i + 1].open))
      then
        var size := Size(cfg, x.cash, signal.value);
        && r.position.Some? && OpenedOn(cfg, r.position.value, signal.value, x.cash, candles[i + 1], i)
        && r.cash == (if signal.value.direction == Long then x.cash - size else x.cash + size) - size * cfg.takerFee
      else r.position == x.position && r.cash == x.cash
  {
    hide Before, AtEntry, OpenPosition, Enters, Fill, Size, OpenedOn, PortfolioValue;
    BeforeByFill(cfg, candles, i);
    var (x, signal) := AtEntry(cfg, candles, i);
    if x.position.None? && signal.Some? && i + 1 < |candles| {
      OpeningIs(cfg, x, signal.value, candles[i + 1], i);
    }
  }

  // ------------------------------------------------------------------
  // Signals and regime
  // ------------------------------------------------------------------

  /** A strategy that supports the regime gives the signal, with a confidence of at least 0.55. */
  ghost predicate Gives(strategy: Strategy, f: Indicators.FeatureSet, regime: Regime, signal: Signal) {
    regime in strategy.supported && strategy.generate(f, regime) == Some(signal) && signal.confidence >= 0.55
  }

  /** The signals considered are exactly those that some strategy gives. */
  lemma {:induction false} SignalsAreGiven(
    strategies: seq<Strategy>, f: Indicators.FeatureSet, regime: Regime, signal: Signal)
    ensures signal in Signals(strategies, f, regime) <==>
      exists k :: 0 <= k < |strategies| && Gives(strategies[k], f, regime, signal)
  {
    if |strategies| > 0 {
      var n := |strategies| - 1;
      SignalsAreGiven(strategies[..n], f, regime, signal);
      GivenByOneOf(strategies, f, regime, signal);
    }
  }

  lemma GivenByOneOf(strategies: seq<Strategy>, f: Indicators.FeatureSet, regime: Regime, signal: Signal)
    requires |strategies| > 0
    ensures var n := |strategies| - 1;
      (exists k :: 0 <= k < |strategies| && Gives(strategies[k], f, regime, signal)) <==>
        || (exists k :: 0 <= k < n && Gives(strategies[..n][k], f, regime, signal))
        || Gives(strategies[n], f, regime, signal)
  {
    hide Gives;
    var n := |strategies| - 1;
    assert forall k :: 0 <= k < n ==> strategies[..n][k] == strategies[k];
  }

  /** Among equally confident signals the first is chosen. */
  lemma {:induction false} FirstMostConfident(signals: seq<Signal>) returns (j: nat)
    requires |signals| > 0
    ensures j < |signals| && MostConfident(signals) == signals[j]
    ensures forall i :: 0 <= i < j ==> signals[i].confidence < signals[j].confidence
    ensures forall i :: j < i < |signals| ==> signals[i].confidence <= signals[j].confidence
  {
    var n := |signals| - 1;
    if n == 0 {
      j := 0;
    } else {
      j := FirstMostConfident(signals[..n]);
      if signals[n].confidence > signals[j].confidence {
        j := n;
      }
    }
  }

  predicate Above(x: Option<real>, y: Option<real>) {
    x.Some? && y.Some? && x.value != 0.0 && y.value != 0.0 && x.value > y.value
  }

  /** What each regime means. Breakout, low volatility and crisis are never detected. */
  lemma RegimeMeans(f: Indicators.FeatureSet)
    ensures var r := DetectRegime(f);
      var known := f.adx14.Some? && f.rsi14.Some?;
      var up := known && f.adx14.value > 25.0 && f.rsi14.value > 55.0 && Above(f.diPlus, f.diMinus);
      var down := known && f.adx14.value > 25.0 && f.rsi14.value < 45.0 && Above(f.diMinus, f.diPlus);
      var volatile := known && f.adx14.value >= 20.0 && f.atrPct.Some? && f.atrPct.value > 0.05;
      && (r == Unknown <==> !known) && (r == TrendingUp <==> up) && (r == TrendingDown <==> down)
      && (r == HighVolatility <==> volatile && !up && !down)
      && r !in {Breakout, LowVolatility, Crisis}
  {
  }

  // ------------------------------------------------------------------
  // The recorded slippage
  // ------------------------------------------------------------------

  /** The slippage that a trade records nets the two fills of a long against each other: a long that is
      closed at the price it was opened at records none, although it paid slippage twice. A short adds them. */
  lemma RecordedSlippage(cfg: Config, p: Position, open: real, price: real, time: int, i: int, reason: Reason)
    requires 1.0 + cfg.slippage != 0.0 && p.entryPrice == Fill(cfg, p.isLong, open)
    ensures var t := TradeOf(cfg, p, price, time, i, reason);
      && (p.isLong ==> t.slippage == Abs((open - price) * cfg.slippage * p.quantity))
      && (!p.isLong ==> t.slippage == Abs((price + p.entryPrice / (1.0 + cfg.slippage)) * cfg.slippage * p.quantity))
  {
    hide TradeOf, ExitPrice;
    var q, s, e := p.quantity, cfg.slippage, p.entryPrice;
    var x, back := ExitPrice(cfg, p.isLong, price), e / (1.0 + s);
    assert back * (1.0 + s) == e;
    ExitPriceIs(cfg, p.isLong, price);
    SlippageField(cfg, p, price, time, i, reason);
    if p.isLong {
      LongSlippage(q, s, open, price, x, e, back);
    } else {
      ShortSlippage(q, s, price, x, e, back);
    }
  }

  lemma ExitPriceIs(cfg: Config, isLong: bool, price: real)
    ensures ExitPrice(cfg, isLong, price) ==
      if isLong then price * (1.0 - cfg.slippage) else price * (1.0 + cfg.slippage)
  {
  }

  lemma SlippageField(cfg: Config, p: Position, price: real, time: int, i: int, reason: Reason)
    requires 1.0 + cfg.slippage != 0.0
    ensures TradeOf(cfg, p, price, time, i, reason).slippage == Abs(
      (ExitPrice(cfg, p.isLong, price) - price) * p.quantity
      + (p.entryPrice - p.entryPrice / (1.0 + cfg.slippage)) * p.quantity)
  {
  }

  lemma LongSlippage(q: real, s: real, open: real, price: real, x: real, e: real, back: real)
    requires 1.0 + s != 0.0 && back * (1.0 + s) == e && e == open + open * s && x == price * (1.0 - s)
    ensures (x - price) * q + (e - back) * q == (open - price) * s * q
  {
    assert open * (1.0 + s) == e;
    SameProduct(back, open, 1.0 + s, e, e);
    var d := (x - price) + (e - back);
    assert d == open * s - price * s == (open - price) * s;
    assert (x - price) * q + (e - back) * q == d * q;
  }

  lemma ShortSlippage(q: real, s: real, price: real, x: real, e: real, back: real)
    requires back * (1.0 + s) == e && x == price * (1.0 + s)
    ensures (x - price) * q + (e - back) * q == (price + back) * s * q
  {
    var d := (x - price) + (e - back);
    assert d == price * s + back * s == (price + back) * s;
    assert (x - price) * q + (e - back) * q == d * q;
  }
}
