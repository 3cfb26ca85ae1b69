/** What one futures-grid backtest computes, as functions on values. The imperative
    simulator is proved equal to GridModel.RunResultOf; the properties of the run are
    proved about these functions. */
module GridModel {
  import opened Common
  import opened GridTypes

  datatype Reason =
    | GridCycle | Liquidation | TakeProfit | StopLoss | MaxHoldingTime | RangeBreakout
    | BacktestEnd | InsufficientData

  datatype Config = Config(
    parameters: Parameters, levels: seq<real>, timeframe: string,
    capital: real, makerFee: real, takerFee: real, slippage: real,
    fundingProvider: Option<int -> real>, assumedFundingRate: real, fundingIntervalHours: int,
    breakoutFactor: real)
  {
    /** The levels are any prices, one per configured level. */
    predicate Valid() {
      GridTypes.Valid(parameters) && |levels| == parameters.gridCount
    }

    predicate IsLong() {
      parameters.direction == Long
    }

    /** +1 for a long grid, -1 for a short one. */
    function Side(): real {
      if IsLong() then 1.0 else -1.0
    }

    function CellCount(): nat
      requires Valid()
    {
      parameters.gridCount - 1
    }

    function EntryPrice(i: nat): real
      requires Valid() && i < CellCount()
    {
      if IsLong() then levels[i] else levels[i + 1]
    }

    function ExitPrice(i: nat): real
      requires Valid() && i < CellCount()
    {
      if IsLong() then levels[i + 1] else levels[i]
    }

    /** Slippage always worsens the fill: an opening long and a closing short pay more. */
    function Slipped(price: real, opening: bool): real {
      price * (1.0 + (if opening == IsLong() then 1.0 else -1.0) * slippage)
    }

    function OpenQuantity(entryPrice: real): real {
      var fill := Slipped(entryPrice, true);
      if fill > 0.0 then parameters.positionSize / fill else 0.0
    }

    function FundingRate(timestamp: int): real {
      match fundingProvider
      case Some(f) => f(timestamp)
      case None => assumedFundingRate
    }

    function FundingIntervalBars(): (n: int)
      ensures n >= 1
    {
      MaxInt(1, fundingIntervalHours * 60 / TimeframeMinutes(timeframe))
    }

    function BreakoutBuffer(): real {
      (parameters.upper - parameters.lower) * breakoutFactor
    }
  }

  function TimeframeMinutes(timeframe: string): (m: int)
    ensures m > 0
  {
    if timeframe == "1m" then 1
    else if timeframe == "5m" then 5
    else if timeframe == "15m" then 15
    else if timeframe == "30m" then 30
    else if timeframe == "4h" then 240
    else if timeframe == "8h" then 480
    else if timeframe == "12h" then 720
    else if timeframe == "1d" then 1440
    else 60
  }

  datatype Cell = Cell(
    index: int, entryPrice: real, exitPrice: real,
    isOpen: bool, openedAt: Option<int>, openedBar: int, quantity: real)

  datatype Trade = Trade(
    cellIndex: int, entryTime: int, exitTime: int, entryPrice: real, exitPrice: real, quantity: real,
    grossPnl: real, fees: real, slippage: real, netPnl: real, holdingBars: int, reason: Reason)

  datatype EquityPoint = EquityPoint(timestamp: int, portfolioValue: real, cash: real, openPositionsValue: real)

  datatype State = State(
    cells: seq<Cell>, trades: seq<Trade>, realized: real, funding: real,
    fills: int, maxOpen: int, curve: seq<EquityPoint>)

  /** Either the loop goes on to the next bar or it broke with a reason. */
  datatype Outcome = Running(state: State) | Stopped(state: State, reason: Reason)

  datatype RunResult = RunResult(
    trades: seq<Trade>, curve: seq<EquityPoint>, reason: Reason, funding: real,
    fills: int, maxOpen: int, liquidated: bool)

  // ------------------------------------------------------------------
  // Fills
  // ------------------------------------------------------------------

  predicate Opens(cfg: Config, c: Cell, bar: Candle) {
    !c.isOpen && bar.low <= c.entryPrice <= bar.high && cfg.OpenQuantity(c.entryPrice) > 0.0
  }

  function OpenedCell(cfg: Config, c: Cell, bar: Candle, barIndex: int): Cell {
    if Opens(cfg, c, bar)
    then c.(isOpen := true, openedAt := Some(bar.timestamp), openedBar := barIndex,
            quantity := cfg.OpenQuantity(c.entryPrice))
    else c
  }

  function OpenedCells(cfg: Config, cells: seq<Cell>, bar: Candle, barIndex: int): (r: seq<Cell>)
    ensures |r| == |cells|
  {
    seq(|cells|, i requires 0 <= i < |cells| => OpenedCell(cfg, cells[i], bar, barIndex))
  }

  function OpenFills(cfg: Config, cells: seq<Cell>, bar: Candle): nat {
    if |cells| == 0 then 0
    else OpenFills(cfg, cells[..|cells| - 1], bar) + if Opens(cfg, cells[|cells| - 1], bar) then 1 else 0
  }

  /** The two ways cells are closed: each at its own exit level, or all at one price. */
  datatype Pass = Cycle | Force(price: real, reason: Reason)

  predicate Closes(pass: Pass, c: Cell, bar: Candle) {
    c.isOpen && (pass.Cycle? ==> bar.low <= c.exitPrice <= bar.high)
  }

  function CloseReason(pass: Pass): Reason {
    if pass.Cycle? then GridCycle else pass.reason
  }

  function ClosePrice(cfg: Config, pass: Pass, c: Cell): real {
    if pass.Cycle? then cfg.Slipped(c.exitPrice, false) else pass.price
  }

  /** Gain of an open cell at a price, before fees. */
  function Gain(cfg: Config, c: Cell, price: real): real {
    (price - c.entryPrice) * c.quantity * cfg.Side()
  }

  function TradeOf(cfg: Config, c: Cell, price: real, time: int, barIndex: int, reason: Reason): Trade {
    var gross := Gain(cfg, c, price);
    var rate := if reason != GridCycle then cfg.takerFee else cfg.makerFee;
    var fees := (c.entryPrice * c.quantity + price * c.quantity) * rate;
    Trade(c.index, if c.openedAt.Some? then c.openedAt.value else time, time, c.entryPrice, price, c.quantity,
          gross, fees, Abs(price * c.quantity - c.exitPrice * c.quantity), gross - fees,
          MaxInt(barIndex - c.openedBar, 0), reason)
  }

  function ClosedCell(pass: Pass, c: Cell, bar: Candle): Cell {
    if Closes(pass, c, bar) then c.(isOpen := false, quantity := 0.0) else c
  }

  function ClosedCells(pass: Pass, cells: seq<Cell>, bar: Candle): (r: seq<Cell>)
    ensures |r| == |cells|
  {
    seq(|cells|, i requires 0 <= i < |cells| => ClosedCell(pass, cells[i], bar))
  }

  function PassTrade(cfg: Config, pass: Pass, c: Cell, bar: Candle, barIndex: int): Trade {
    TradeOf(cfg, c, ClosePrice(cfg, pass, c), bar.timestamp, barIndex, CloseReason(pass))
  }

  function PassTrades(cfg: Config, pass: Pass, cells: seq<Cell>, bar: Candle, barIndex: int): seq<Trade> {
    if |cells| == 0 then []
    else
      var last := cells[|cells| - 1];
      var before := PassTrades(cfg, pass, cells[..|cells| - 1], bar, barIndex);
      if Closes(pass, last, bar) then before + [PassTrade(cfg, pass, last, bar, barIndex)] else before
  }

  function SumNet(trades: seq<Trade>): real {
    if |trades| == 0 then 0.0 else SumNet(trades[..|trades| - 1]) + trades[|trades| - 1].netPnl
  }

  function SumFees(trades: seq<Trade>): real {
    if |trades| == 0 then 0.0 else SumFees(trades[..|trades| - 1]) + trades[|trades| - 1].fees
  }

  function SumGross(trades: seq<Trade>): real {
    if |trades| == 0 then 0.0 else SumGross(trades[..|trades| - 1]) + trades[|trades| - 1].grossPnl
  }

  /** Number of trades that closed at their own exit level. */
  function CycleCount(trades: seq<Trade>): nat {
    if |trades| == 0 then 0
    else CycleCount(trades[..|trades| - 1]) + if trades[|trades| - 1].reason == GridCycle then 1 else 0
  }

  function OpenCount(cells: seq<Cell>): nat {
    if |cells| == 0 then 0
    else OpenCount(cells[..|cells| - 1]) + if cells[|cells| - 1].isOpen then 1 else 0
  }

  function OpenQty(cells: seq<Cell>): real {
    if |cells| == 0 then 0.0
    else OpenQty(cells[..|cells| - 1]) + if cells[|cells| - 1].isOpen then cells[|cells| - 1].quantity else 0.0
  }

  /** Open exposure valued at one price. */
  function OpenNotionalAt(cells: seq<Cell>, price: real): real {
    if |cells| == 0 then 0.0
    else OpenNotionalAt(cells[..|cells| - 1], price) +
         if cells[|cells| - 1].isOpen then cells[|cells| - 1].quantity * price else 0.0
  }

  /** Open exposure valued at each cell's own entry level. */
  function EntryNotional(cells: seq<Cell>): real {
    if |cells| == 0 then 0.0
    else EntryNotional(cells[..|cells| - 1]) +
         if cells[|cells| - 1].isOpen then cells[|cells| - 1].entryPrice * cells[|cells| - 1].quantity else 0.0
  }

  function Unrealized(cfg: Config, cells: seq<Cell>, mark: real): real {
    if |cells| == 0 then 0.0
    else
      var last := cells[|cells| - 1];
      Unrealized(cfg, cells[..|cells| - 1], mark) +
      if last.isOpen then Gain(cfg, last, mark) else 0.0
  }

  // ------------------------------------------------------------------
  // One bar
  // ------------------------------------------------------------------

  function OpenPhase(cfg: Config, s: State, bar: Candle, barIndex: int): State {
    s.(cells := OpenedCells(cfg, s.cells, bar, barIndex), fills := s.fills + OpenFills(cfg, s.cells, bar))
  }

  function ClosePhase(cfg: Config, pass: Pass, s: State, bar: Candle, barIndex: int): State {
    var ts := PassTrades(cfg, pass, s.cells, bar, barIndex);
    s.(cells := ClosedCells(pass, s.cells, bar), trades := s.trades + ts, realized := s.realized + SumNet(ts),
       fills := s.fills + if pass.Cycle? then |ts| else 0)
  }

  /** A long grid closes first on a rising bar, a short grid on a falling one. */
  function FillPhase(cfg: Config, s: State, bar: Candle, barIndex: int): State {
    if cfg.IsLong() == (bar.close >= bar.open)
    then OpenPhase(cfg, ClosePhase(cfg, Cycle, s, bar, barIndex), bar, barIndex)
    else ClosePhase(cfg, Cycle, OpenPhase(cfg, s, bar, barIndex), bar, barIndex)
  }

  function FundingPhase(cfg: Config, s: State, bar: Candle, barIndex: int): State {
    if barIndex > 0 && barIndex % cfg.FundingIntervalBars() == 0 then
      var cost := OpenNotionalAt(s.cells, bar.close) * cfg.FundingRate(bar.timestamp);
      s.(funding := s.funding + cost, realized := s.realized - cost)
    else s
  }

  function LiquidationPrice(cfg: Config, cells: seq<Cell>): Option<real>
    requires cfg.Valid()
  {
    var qty := OpenQty(cells);
    if OpenCount(cells) == 0 || cfg.parameters.leverage <= 1.0 || qty <= 0.0 then None
    else
      var margin := 1.0 / cfg.parameters.leverage;
      Some(EntryNotional(cells) / qty * (if cfg.IsLong() then 1.0 - margin else 1.0 + margin))
  }

  function GridLevelExit(cfg: Config, bar: Candle): Option<Reason> {
    var p := cfg.parameters;
    if p.takeProfit.Some? &&
       (if cfg.IsLong() then bar.high >= p.takeProfit.value else bar.low <= p.takeProfit.value)
    then Some(TakeProfit)
    else if p.stopLoss.Some? &&
       (if cfg.IsLong() then bar.low <= p.stopLoss.value else bar.high >= p.stopLoss.value)
    then Some(StopLoss)
    else None
  }

  /** A configured exit price of zero counts as not set, and the close is used. */
  function PriceOr(price: Option<real>, fallback: real): real {
    if price.None? || price.value == 0.0 then fallback else price.value
  }

  /** The forced exits in priority order, with the price they close at. */
  function ForcedExit(cfg: Config, start: int, cells: seq<Cell>, bar: Candle): Option<Pass>
    requires cfg.Valid()
  {
    var p := cfg.parameters;
    var liq := LiquidationPrice(cfg, cells);
    if liq.Some? && (if cfg.IsLong() then bar.low <= liq.value else bar.high >= liq.value) then
      Some(Force(liq.value, Liquidation))
    else if GridLevelExit(cfg, bar).Some? then
      var reason := GridLevelExit(cfg, bar).value;
      Some(Force(PriceOr(if reason == TakeProfit then p.takeProfit else p.stopLoss, bar.close), reason))
    else if p.maximumHoldingTime.Some? && bar.timestamp - start >= p.maximumHoldingTime.value then
      Some(Force(bar.close, MaxHoldingTime))
    else if bar.close < p.lower - cfg.BreakoutBuffer() || bar.close > p.upper + cfg.BreakoutBuffer() then
      Some(Force(bar.close, RangeBreakout))
    else None
  }

  function Record(cfg: Config, s: State, bar: Candle): State {
    var u := Unrealized(cfg, s.cells, bar.close);
    s.(curve := s.curve + [EquityPoint(bar.timestamp, cfg.capital + s.realized + u, cfg.capital + s.realized, u)])
  }

  /** Fills, open-cell maximum and funding: all that happens before the forced exits are looked at. */
  function BeforeExits(cfg: Config, s: State, bar: Candle, barIndex: int): State {
    var filled := FillPhase(cfg, s, bar, barIndex);
    FundingPhase(cfg, filled.(maxOpen := MaxInt(filled.maxOpen, OpenCount(filled.cells))), bar, barIndex)
  }

  /** A forced exit closes everything and breaks; either way the bar is recorded. */
  function AfterExits(cfg: Config, t: State, exit: Option<Pass>, bar: Candle, barIndex: int): Outcome {
    match exit
    case Some(pass) => Stopped(Record(cfg, ClosePhase(cfg, pass, t, bar, barIndex), bar), CloseReason(pass))
    case None => Running(Record(cfg, t, bar))
  }

  function BarStep(cfg: Config, start: int, s: State, bar: Candle, barIndex: int): Outcome
    requires cfg.Valid()
  {
    var t := BeforeExits(cfg, s, bar, barIndex);
    AfterExits(cfg, t, ForcedExit(cfg, start, t.cells, bar), bar, barIndex)
  }

  // ------------------------------------------------------------------
  // The whole run
  // ------------------------------------------------------------------

  function InitialCells(cfg: Config, n: nat): (cells: seq<Cell>)
    requires cfg.Valid() && n <= cfg.CellCount()
    ensures |cells| == n
  {
    seq(n, i requires 0 <= i < n => Cell(i, cfg.EntryPrice(i), cfg.ExitPrice(i), false, None, 0, 0.0))
  }

  function InitialState(cfg: Config): State
    requires cfg.Valid()
  {
    State(InitialCells(cfg, cfg.CellCount()), [], 0.0, 0.0, 0, 0, [])
  }

  /** What the loop has reached after at most n bars. */
  function After(cfg: Config, candles: seq<Candle>, n: nat): Outcome
    requires cfg.Valid() && n <= |candles|
  {
    if n == 0 then Running(InitialState(cfg))
    else match After(cfg, candles, n - 1)
      case Stopped(s, reason) => Stopped(s, reason)
      case Running(s) => BarStep(cfg, candles[0].timestamp, s, candles[n - 1], n - 1)
  }

  /** The closing of what is still open once the bars are used up. */
  function Finish(cfg: Config, s: State, candles: seq<Candle>): State
    requires |candles| > 0
  {
    var last := candles[|candles| - 1];
    ClosePhase(cfg, Force(last.close, BacktestEnd), s, last, |candles| - 1)
  }

  function FinalState(cfg: Config, candles: seq<Candle>): State
    requires cfg.Valid() && |candles| > 0
  {
    match After(cfg, candles, |candles|)
    case Running(s) => Finish(cfg, s, candles)
    case Stopped(s, _) => s
  }

  function CloseReasonOf(cfg: Config, candles: seq<Candle>): Reason
    requires cfg.Valid() && |candles| > 0
  {
    match After(cfg, candles, |candles|)
    case Running(_) => BacktestEnd
    case Stopped(_, reason) => reason
  }

  function RunResultOf(cfg: Config, candles: seq<Candle>): RunResult
    requires cfg.Valid()
  {
    if |candles| < 2 then RunResult([], [], InsufficientData, 0.0, 0, 0, false)
    else
      var s := FinalState(cfg, candles);
      var reason := CloseReasonOf(cfg, candles);
      RunResult(s.trades, s.curve, reason, s.funding, s.fills, s.maxOpen, reason == Liquidation)
  }
}
