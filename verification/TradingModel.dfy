/** What one directional backtest computes, as functions on values. The imperative simulator is
    proved equal to TradingModel.RunOf; the properties of a run are proved about these functions. */
module TradingModel {
  import opened Common
  import Indicators

  datatype Regime =
    | TrendingUp | TrendingDown | Ranging | Breakout | HighVolatility | LowVolatility | Crisis | Unknown

  datatype SignalDirection = Long | Short | CloseSignal | Neutral

  datatype Signal = Signal(
    symbol: string, strategy: string, direction: SignalDirection, confidence: real, sizeHint: real,
    regime: Regime, targetPrice: Option<real>)

  /** A strategy sees one bar's features and the regime; an exception inside it counts as no signal. */
  datatype Strategy = Strategy(supported: set<Regime>, generate: (Indicators.FeatureSet, Regime) -> Option<Signal>)

  datatype Config = Config(
    capital: real, takerFee: real, slippage: real, maxPositionPct: real,
    atrStopMultiplier: real, maxHoldingBars: int, strategies: seq<Strategy>, sqrt: real -> real)

  datatype Position = Position(
    symbol: string, isLong: bool, quantity: real, entryPrice: real, entryTime: int, strategy: string,
    confidence: real, regime: Regime, targetPrice: Option<real>, entryBar: int, mae: real, mfe: real)

  datatype Reason = RegimeChange | AtrStop | TargetReached | TimeExit | BacktestEnd

  datatype Trade = Trade(
    symbol: string, strategy: string, isLong: bool, entryTime: int, exitTime: int,
    entryPrice: real, exitPrice: real, quantity: real, grossPnl: real, fees: real, slippage: real,
    netPnl: real, holdingBars: int, regime: Regime, mae: real, mfe: real, confidence: real, reason: Reason)

  datatype EquityPoint = EquityPoint(
    timestamp: int, portfolioValue: real, cash: real, openPositionsValue: real, drawdownPct: real)

  datatype State = State(
    cash: real, peak: real, position: Option<Position>, trades: seq<Trade>, curve: seq<EquityPoint>)

  const WARMUP_BARS: nat := 200
  const MIN_CONFIDENCE := 0.55
  const MAX_CASH_SHARE := 0.95
  const MIN_QUANTITY := 0.00001
  const ATR_WINDOW: nat := 15

  // ------------------------------------------------------------------
  // Regime and signal
  // ------------------------------------------------------------------

  function DetectRegime(f: Indicators.FeatureSet): Regime {
    if f.adx14.None? || f.rsi14.None? then Unknown
    else if f.adx14.value > 25.0 && f.rsi14.value > 55.0 && Indicators.Truthy(f.diPlus) &&
            Indicators.Truthy(f.diMinus) && f.diPlus.value > f.diMinus.value then TrendingUp
    else if f.adx14.value > 25.0 && f.rsi14.value < 45.0 && Indicators.Truthy(f.diPlus) &&
            Indicators.Truthy(f.diMinus) && f.diMinus.value > f.diPlus.value then TrendingDown
    else if f.adx14.value < 20.0 then Ranging
    else if Indicators.Truthy(f.atrPct) && f.atrPct.value > 0.05 then HighVolatility
    else Ranging
  }

  /** The signals of the strategies that support the regime and are confident enough, in order. */
  function Signals(strategies: seq<Strategy>, f: Indicators.FeatureSet, regime: Regime): seq<Signal> {
    if |strategies| == 0 then []
    else
      var before := Signals(strategies[..|strategies| - 1], f, regime);
      var last := strategies[|strategies| - 1];
      if regime !in last.supported then before
      else
        var signal := last.generate(f, regime);
        if signal.Some? && signal.value.confidence >= MIN_CONFIDENCE then before + [signal.value] else before
  }

  /** The first of the most confident signals. */
  function MostConfident(signals: seq<Signal>): Signal
    requires |signals| > 0
  {
    if |signals| == 1 then signals[0]
    else
      var before := MostConfident(signals[..|signals| - 1]);
      if signals[|signals| - 1].confidence > before.confidence then signals[|signals| - 1] else before
  }

  predicate HasDirection(signals: seq<Signal>, d: SignalDirection) {
    exists i :: 0 <= i < |signals| && signals[i].direction == d
  }

  /** No signal at all, or one long and one short among them, means no entry. */
  function GenerateSignal(cfg: Config, f: Indicators.FeatureSet, regime: Regime): Option<Signal> {
    var signals := Signals(cfg.strategies, f, regime);
    if |signals| == 0 || (HasDirection(signals, Long) && HasDirection(signals, Short)) then None
    else Some(MostConfident(signals))
  }

  // ------------------------------------------------------------------
  // Opening and closing
  // ------------------------------------------------------------------

  function EntryPrice(cfg: Config, isLong: bool, open: real): real {
    open * (if isLong then 1.0 + cfg.slippage else 1.0 - cfg.slippage)
  }

  function ExitPrice(cfg: Config, isLong: bool, price: real): real {
    price * (if isLong then 1.0 - cfg.slippage else 1.0 + cfg.slippage)
  }

  /** Prices at which the source does not divide by zero. */
  ghost predicate Priced(cfg: Config, candles: seq<Candle>) {
    && 1.0 + cfg.slippage != 0.0 && 1.0 - cfg.slippage != 0.0
    && forall i :: 0 <= i < |candles| ==> candles[i].open != 0.0
  }

  function PortfolioValue(cash: real, position: Option<Position>, price: real): real {
    match position
    case None => cash
    case Some(p) => if p.isLong then cash + p.quantity * price else cash - p.quantity * price
  }

  function MaxNotional(cfg: Config, cash: real, portfolioValue: real): real {
    MinReal(portfolioValue * cfg.maxPositionPct, cash * MAX_CASH_SHARE)
  }

  /** Entries happen with no position open, when the portfolio value is the cash. */
  function Notional(cfg: Config, cash: real, signal: Signal): real {
    MaxNotional(cfg, cash, cash) * signal.sizeHint * signal.confidence
  }

  /** Whether an entry goes through: there is room, the quantity is not dust, and cash covers the cost. */
  predicate Affordable(cfg: Config, cash: real, signal: Signal, entryPrice: real)
    requires entryPrice != 0.0
  {
    var notional := Notional(cfg, cash, signal);
    && MaxNotional(cfg, cash, cash) > 0.0
    && notional / entryPrice > MIN_QUANTITY
    && notional + notional * cfg.takerFee <= cash
  }

  /** Every direction other than long opens a short. */
  function OpenPosition(cfg: Config, s: State, signal: Signal, bar: Candle, barIndex: int): State
    requires 1.0 + cfg.slippage != 0.0 && 1.0 - cfg.slippage != 0.0 && bar.open != 0.0
  {
    var isLong := signal.direction == Long;
    var entryPrice := EntryPrice(cfg, isLong, bar.open);
    if !Affordable(cfg, s.cash, signal, entryPrice) then s
    else
      var notional := Notional(cfg, s.cash, signal);
      var fee := notional * cfg.takerFee;
      s.(cash := if isLong then s.cash - (notional + fee) else s.cash + (notional - fee),
         position := Some(Position(signal.symbol, isLong, notional / entryPrice, entryPrice, bar.timestamp,
           signal.strategy, signal.confidence, signal.regime, signal.targetPrice, barIndex, 0.0, 0.0)))
  }

  function TradeOf(cfg: Config, p: Position, price: real, time: int, barIndex: int, reason: Reason): Trade
    requires 1.0 + cfg.slippage != 0.0
  {
    var exitPrice := ExitPrice(cfg, p.isLong, price);
    var gross := (if p.isLong then exitPrice - p.entryPrice else p.entryPrice - exitPrice) * p.quantity;
    var fees := p.quantity * p.entryPrice * cfg.takerFee + p.quantity * exitPrice * cfg.takerFee;
    Trade(p.symbol, p.strategy, p.isLong, p.entryTime, time, p.entryPrice, exitPrice, p.quantity, gross, fees,
      Abs((exitPrice - price) * p.quantity + (p.entryPrice - p.entryPrice / (1.0 + cfg.slippage)) * p.quantity),
      gross - fees, barIndex - p.entryBar, p.regime, p.mae, p.mfe, p.confidence, reason)
  }

  function ClosePosition(cfg: Config, s: State, price: real, time: int, barIndex: int, reason: Reason): State
    requires 1.0 + cfg.slippage != 0.0 && s.position.Some?
  {
    var p := s.position.value;
    var exitNotional := p.quantity * ExitPrice(cfg, p.isLong, price);
    var exitFee := exitNotional * cfg.takerFee;
    s.(cash := if p.isLong then s.cash + (exitNotional - exitFee) else s.cash - (exitNotional + exitFee),
       position := None,
       trades := s.trades + [TradeOf(cfg, p, price, time, barIndex, reason)])
  }

  // ------------------------------------------------------------------
  // Exits
  // ------------------------------------------------------------------

  /** Gain per unit, before slippage and fees. */
  function Move(isLong: bool, entryPrice: real, price: real): real {
    if isLong then price - entryPrice else entryPrice - price
  }

  function UpdateExcursions(p: Position, price: real): Position {
    var move := Move(p.isLong, p.entryPrice, price);
    p.(mae := if move < -p.mae then Abs(move) else p.mae, mfe := if move > p.mfe then move else p.mfe)
  }

  /** The average true range over the last bars, if it is there and not zero. */
  function StopAtr(window: seq<Candle>): Option<real> {
    if |window| < ATR_WINDOW then None
    else
      var atr := Indicators.Atr(window[|window| - ATR_WINDOW..], 14)[ATR_WINDOW - 1];
      if Indicators.Truthy(atr) then atr else None
  }

  function StopHit(cfg: Config, p: Position, close: real, atr: Option<real>): bool {
    atr.Some? &&
    (if p.isLong then close < p.entryPrice - atr.value * cfg.atrStopMultiplier
     else close > p.entryPrice + atr.value * cfg.atrStopMultiplier)
  }

  /** The first exit that applies, in priority order. */
  function ExitReason(
    cfg: Config, p: Position, bar: Candle, barIndex: int, window: seq<Candle>, regime: Regime): Option<Reason>
  {
    if p.symbol != bar.symbol then None
    else if p.regime == Ranging && regime != Ranging then Some(RegimeChange)
    else if StopHit(cfg, p, bar.close, StopAtr(window)) then Some(AtrStop)
    else if p.targetPrice.Some? &&
            (if p.isLong then bar.close >= p.targetPrice.value else bar.close <= p.targetPrice.value)
    then Some(TargetReached)
    else if barIndex - p.entryBar >= cfg.maxHoldingBars then Some(TimeExit)
    else None
  }

  // ------------------------------------------------------------------
  // One bar
  // ------------------------------------------------------------------

  function Updated(s: State, price: real): State {
    match s.position
    case None => s
    case Some(p) => s.(position := Some(UpdateExcursions(p, price)))
  }

  function Exited(cfg: Config, s: State, bar: Candle, barIndex: int, window: seq<Candle>, regime: Regime): State
    requires 1.0 + cfg.slippage != 0.0
  {
    match s.position
    case None => s
    case Some(p) =>
      match ExitReason(cfg, p, bar, barIndex, window, regime)
      case None => s
      case Some(reason) => ClosePosition(cfg, s, bar.close, bar.timestamp, barIndex, reason)
  }

  function Entered(
    cfg: Config, s: State, f: Indicators.FeatureSet, regime: Regime, candles: seq<Candle>, barIndex: nat): State
    requires Priced(cfg, candles)
  {
    if s.position.Some? then s
    else match GenerateSignal(cfg, f, regime)
      case None => s
      case Some(signal) =>
        if barIndex + 1 < |candles| then OpenPosition(cfg, s, signal, candles[barIndex + 1], barIndex) else s
  }

  function Recorded(s: State, bar: Candle): State {
    var value := PortfolioValue(s.cash, s.position, bar.close);
    var peak := if value > s.peak then value else s.peak;
    var drawdown := if peak > 0.0 then (peak - value) / peak * 100.0 else 0.0;
    s.(peak := peak, curve := s.curve + [EquityPoint(bar.timestamp, value, s.cash, value - s.cash, drawdown)])
  }

  function Window(candles: seq<Candle>, i: nat): seq<Candle>
    requires i < |candles|
  {
    candles[MaxInt(0, i - 14)..i + 1]
  }

  /** Excursions and exit at the bar's close; nothing here looks at the next bar. */
  function ExitPhase(cfg: Config, s: State, regime: Regime, candles: seq<Candle>, i: nat): State
    requires 1.0 + cfg.slippage != 0.0 && i < |candles|
  {
    Exited(cfg, Updated(s, candles[i].close), candles[i], i, Window(candles, i), regime)
  }

  /** A bar without features is skipped altogether. */
  function BarStep(
    cfg: Config, s: State, feature: Option<Indicators.FeatureSet>, candles: seq<Candle>, i: nat): State
    requires Priced(cfg, candles) && i < |candles|
  {
    match feature
    case None => s
    case Some(f) =>
      var regime := DetectRegime(f);
      Recorded(Entered(cfg, ExitPhase(cfg, s, regime, candles, i), f, regime, candles, i), candles[i])
  }

  // ------------------------------------------------------------------
  // The whole run
  // ------------------------------------------------------------------

  function InitialState(cfg: Config): State {
    State(cfg.capital, cfg.capital, None, [], [])
  }

  /** The state once the loop has been through the bars before n. */
  function Before(cfg: Config, candles: seq<Candle>, n: nat): State
    requires Priced(cfg, candles) && n <= |candles|
  {
    if n <= WARMUP_BARS then InitialState(cfg)
    else BarStep(cfg, Before(cfg, candles, n - 1), Indicators.Precompute(candles, cfg.sqrt)[n - 1], candles, n - 1)
  }

  function Finish(cfg: Config, s: State, candles: seq<Candle>): State
    requires Priced(cfg, candles)
  {
    if |candles| == 0 || s.position.None? then s
    else
      var last := candles[|candles| - 1];
      ClosePosition(cfg, s, last.close, last.timestamp, |candles| - 1, BacktestEnd)
  }

  /** The state that a whole run ends in. */
  function RunOf(cfg: Config, candles: seq<Candle>): State
    requires Priced(cfg, candles)
  {
    Finish(cfg, Before(cfg, candles, |candles|), candles)
  }

  function SumNet(trades: seq<Trade>): real {
    if |trades| == 0 then 0.0 else SumNet(trades[..|trades| - 1]) + trades[|trades| - 1].netPnl
  }
}
