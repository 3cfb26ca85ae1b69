/** When and why a grid is closed down, at what price, what funding it pays, and how many cells it had open
    at once: in terms of the bar, the parameters and the cells that are open once the bar's fills are done. */
module GridExits {
  import opened Common
  import opened GridTypes
  import opened GridModel
  import opened GridFills
  import GridCells
  import GridLedger
  import GridRisk

  // ------------------------------------------------------------------
  // Closing down
  // ------------------------------------------------------------------

  /** The end of the bar that hurts the grid. */
  function Worst(cfg: Config, bar: Candle): real {
    if cfg.parameters.direction == Long then bar.low else bar.high
  }

  /** The end of the bar that suits the grid. */
  function Best(cfg: Config, bar: Candle): real {
    if cfg.parameters.direction == Long then bar.high else bar.low
  }

  /** How far a price lies beyond another in the grid's favour. */
  function Ahead(cfg: Config, price: real, mark: real): real {
    if cfg.parameters.direction == Long then price - mark else mark - price
  }

  /** With leverage, the open cells have lost their margin, the entry notional over the leverage, at the end of
      the bar that hurts. */
  predicate MarginLost(cfg: Config, cells: seq<Cell>, bar: Candle)
    requires cfg.Valid()
  {
    && (exists k :: 0 <= k < |cells| && cells[k].isOpen) && cfg.parameters.leverage > 1.0
    && Unrealized(cfg, cells, Worst(cfg, bar)) <= -(EntryNotional(cells) / cfg.parameters.leverage)
  }

  predicate TargetMet(cfg: Config, bar: Candle) {
    var target := cfg.parameters.takeProfit;
    target.Some? && Ahead(cfg, Best(cfg, bar), target.value) >= 0.0
  }

  predicate StopMet(cfg: Config, bar: Candle) {
    var stop := cfg.parameters.stopLoss;
    stop.Some? && Ahead(cfg, Worst(cfg, bar), stop.value) <= 0.0
  }

  predicate TimeUp(cfg: Config, start: int, bar: Candle) {
    var limit := cfg.parameters.maximumHoldingTime;
    limit.Some? && bar.timestamp - start >= limit.value
  }

  /** The close lies outside the range by more than the buffer. */
  predicate BrokenOut(cfg: Config, bar: Candle) {
    var p := cfg.parameters;
    var buffer := (p.upper - p.lower) * cfg.breakoutFactor;
    p.lower - bar.close > buffer || bar.close - p.upper > buffer
  }

  lemma {:induction false} QuantityOfOpen(cells: seq<Cell>)
    requires forall k :: 0 <= k < |cells| && cells[k].isOpen ==> cells[k].quantity > 0.0
    ensures OpenQty(cells) >= 0.0
    ensures OpenQty(cells) > 0.0 <==> exists k :: 0 <= k < |cells| && cells[k].isOpen
    ensures OpenCount(cells) > 0 <==> exists k :: 0 <= k < |cells| && cells[k].isOpen
  {
    if |cells| > 0 {
      var n := |cells| - 1;
      QuantityOfOpen(cells[..n]);
      assert forall k :: 0 <= k < n ==> cells[..n][k] == cells[k];
      if cells[n].isOpen {
        assert 0 <= n < |cells| && cells[n].isOpen;
      }
    }
  }

  lemma ReachAlgebra(n: real, q: real, leverage: real, side: real, price: real, liq: real)
    requires q > 0.0 && leverage > 1.0 && (side == 1.0 || side == -1.0)
    requires liq == n / q * (if side == 1.0 then 1.0 - 1.0 / leverage else 1.0 + 1.0 / leverage)
    ensures side * (price * q - n) <= -(n / leverage) <==> if side == 1.0 then price <= liq else price >= liq
  {
    GridRisk.MarginAlgebra(n, q, leverage, side, liq);
    assert side * (price * q - n) - side * (liq * q - n) == side * ((price - liq) * q);
    if price < liq {
      assert (price - liq) * q < 0.0;
    } else if price > liq {
      assert (price - liq) * q > 0.0;
    }
  }

  /** The estimated liquidation price is reached exactly when the margin is lost. */
  lemma LiquidatedIff(cfg: Config, cells: seq<Cell>, bar: Candle)
    requires cfg.Valid() && forall k :: 0 <= k < |cells| && cells[k].isOpen ==> cells[k].quantity > 0.0
    ensures var liq := LiquidationPrice(cfg, cells);
      (liq.Some? && (if cfg.IsLong() then bar.low <= liq.value else bar.high >= liq.value))
        <==> MarginLost(cfg, cells, bar)
  {
    hide OpenQty, OpenCount, EntryNotional, Unrealized;
    QuantityOfOpen(cells);
    GridRisk.UnrealizedLinear(cfg, cells, Worst(cfg, bar));
    if OpenQty(cells) > 0.0 && cfg.parameters.leverage > 1.0 {
      ReachAlgebra(EntryNotional(cells), OpenQty(cells), cfg.parameters.leverage, cfg.Side(),
        Worst(cfg, bar), LiquidationPrice(cfg, cells).value);
    }
  }

  /** The trades of a shutdown close at the configured price, or at the close if that is zero or there is none. */
  ghost predicate ClosesAt(cfg: Config, bar: Candle, reason: Reason, price: real) {
    match reason
    case TakeProfit => cfg.parameters.takeProfit.Some? &&
      price == if cfg.parameters.takeProfit.value == 0.0 then bar.close else cfg.parameters.takeProfit.value
    case StopLoss => cfg.parameters.stopLoss.Some? &&
      price == if cfg.parameters.stopLoss.value == 0.0 then bar.close else cfg.parameters.stopLoss.value
    case MaxHoldingTime => price == bar.close
    case RangeBreakout => price == bar.close
    case _ => true
  }

  /** The shutdown that a bar forces, in the order of priority. */
  lemma ForcedExitIs(cfg: Config, start: int, cells: seq<Cell>, bar: Candle)
    requires cfg.Valid() && forall k :: 0 <= k < |cells| && cells[k].isOpen ==> cells[k].quantity > 0.0
    ensures var e := ForcedExit(cfg, start, cells, bar);
      var lost, target, stop := MarginLost(cfg, cells, bar), TargetMet(cfg, bar), StopMet(cfg, bar);
      var late, out := TimeUp(cfg, start, bar), BrokenOut(cfg, bar);
      && (e.Some? <==> lost || target || stop || late || out)
      && (e.Some? ==>
            && e.value.Force? && ClosesAt(cfg, bar, e.value.reason, e.value.price)
            && (e.value.reason == Liquidation ==> LiquidationPrice(cfg, cells) == Some(e.value.price))
            && e.value.reason ==
                 if lost then Liquidation else if target then TakeProfit else if stop then StopLoss
                 else if late then MaxHoldingTime else RangeBreakout)
  {
    hide MarginLost, LiquidationPrice;
    LiquidatedIff(cfg, cells, bar);
  }

  lemma {:induction false} PassPrices(cfg: Config, price: real, reason: Reason, cells: seq<Cell>, bar: Candle, n: int)
    ensures forall t :: t in PassTrades(cfg, Force(price, reason), cells, bar, n) ==>
      t.exitPrice == price && t.exitTime == bar.timestamp && t.reason == reason
  {
    hide Gain;
    if |cells| > 0 {
      PassPrices(cfg, price, reason, cells[..|cells| - 1], bar, n);
    }
  }

  /** At every bar that a run reaches: the grid is closed down if and only if the margin is lost, the target or
      the stop is met, the time is up or the close breaks out, for the first of these that applies; and what
      is open is closed at the price that belongs to it. */
  lemma StopDecides(cfg: Config, candles: seq<Candle>, n: nat)
    requires cfg.Valid() && n < |candles| && After(cfg, candles, n).Running?
    ensures var s, o, bar := After(cfg, candles, n).state, After(cfg, candles, n + 1), candles[n];
      var lost := MarginLost(cfg, AfterFills(cfg, candles, n), bar);
      var target, stop, late := TargetMet(cfg, bar), StopMet(cfg, bar), TimeUp(cfg, candles[0].timestamp, bar);
      && (o.Stopped? <==> lost || target || stop || late || BrokenOut(cfg, bar))
      && (o.Stopped? ==>
            && o.reason == (if lost then Liquidation else if target then TakeProfit else if stop then StopLoss
                            else if late then MaxHoldingTime else RangeBreakout)
            && s.trades <= o.state.trades
            && forall t :: t in o.state.trades[|s.trades|..] && t.reason != GridCycle ==>
                 t.reason == o.reason && t.exitTime == bar.timestamp && ClosesAt(cfg, bar, o.reason, t.exitPrice))
  {
    hide BeforeExits, ForcedExit, PassTrades, ClosedCells, MarginLost, TargetMet, StopMet, TimeUp, BrokenOut, ClosesAt,
         LiquidationPrice;
    var s, bar := After(cfg, candles, n).state, candles[n];
    var t := BeforeExits(cfg, s, bar, n);
    CellsAfter(cfg, candles, n);
    FilledStayOk(cfg, candles, s, n);
    OpenHaveQuantity(cfg, candles, n + 1, t.cells);
    ForcedExitIs(cfg, candles[0].timestamp, t.cells, bar);
    var exit := ForcedExit(cfg, candles[0].timestamp, t.cells, bar);
    FillTrades(cfg, s, bar, n);
    if exit.Some? {
      PassPrices(cfg, exit.value.price, exit.value.reason, t.cells, bar, n);
      var fills, forced := t.trades[|s.trades|..], PassTrades(cfg, exit.value, t.cells, bar, n);
      var o := After(cfg, candles, n + 1);
      assert o.state.trades == t.trades + forced;
      assert o.state.trades[|s.trades|..] == fills + forced;
    }
  }

  lemma OpenHaveQuantity(cfg: Config, candles: seq<Candle>, n: nat, cells: seq<Cell>)
    requires cfg.Valid() && n <= |candles| && GridCells.CellsOk(cfg, candles, n, cells)
    ensures forall k :: 0 <= k < |cells| && cells[k].isOpen ==> cells[k].quantity > 0.0
  {
    assert forall k :: 0 <= k < |cells| ==> GridCells.CellOk(cfg, candles, n, k, cells[k]);
  }

  /** A bar's fills add cycle trades only. */
  lemma FillTrades(cfg: Config, s: State, bar: Candle, n: int)
    ensures var t := BeforeExits(cfg, s, bar, n);
      s.trades <= t.trades && forall x :: x in t.trades[|s.trades|..] ==> x.reason == GridCycle
  {
    hide BeforeExits, PassTrades, OpenedCells;
    FillsAre(cfg, s, bar, n);
    GridLedger.PassConserves(cfg, Cycle, s.cells, bar, n);
    GridLedger.PassConserves(cfg, Cycle, OpenedCells(cfg, s.cells, bar, n), bar, n);
  }

  // ------------------------------------------------------------------
  // Funding
  // ------------------------------------------------------------------

  lemma {:induction false} NotionalAt(cells: seq<Cell>, price: real)
    ensures OpenNotionalAt(cells, price) == OpenQty(cells) * price
  {
    if |cells| > 0 {
      NotionalAt(cells[..|cells| - 1], price);
    }
  }

  /** The funding interval in bars is as many whole bars as fit into its hours, but at least one. */
  lemma IntervalIs(cfg: Config)
    ensures var k, minutes := cfg.FundingIntervalBars(), TimeframeMinutes(cfg.timeframe);
      && k >= 1 && cfg.fundingIntervalHours * 60 < (k + 1) * minutes
      && (k > 1 ==> k * minutes <= cfg.fundingIntervalHours * 60)
  {
    var m, h := TimeframeMinutes(cfg.timeframe), cfg.fundingIntervalHours * 60;
    var q := h / m;
    assert h == q * m + h % m && 0 <= h % m < m;
    var k := cfg.FundingIntervalBars();
    assert (k + 1) * m == k * m + m;
    if q < 1 {
      assert q * m <= 0;
    }
  }

  /** The minutes of the timeframes that the source names: a number and a unit. */
  lemma TimeframesAre()
    ensures TimeframeMinutes("1m") == 1 && TimeframeMinutes("5m") == 5
    ensures TimeframeMinutes("15m") == 15 && TimeframeMinutes("30m") == 30
    ensures TimeframeMinutes("1h") == 1 * 60 && TimeframeMinutes("4h") == 4 * 60
    ensures TimeframeMinutes("8h") == 8 * 60 && TimeframeMinutes("12h") == 12 * 60
    ensures TimeframeMinutes("1d") == 24 * 60
  {
  }

  /** At every bar that a run reaches, funding is charged exactly at the whole intervals after the first bar:
      the open quantity at that bar's close, at the rate provided for its time or else the assumed one. */
  lemma FundingIs(cfg: Config, candles: seq<Candle>, n: nat)
    requires cfg.Valid() && n < |candles| && After(cfg, candles, n).Running?
    ensures var s, o, bar := After(cfg, candles, n).state, After(cfg, candles, n + 1).state, candles[n];
      var rate := match cfg.fundingProvider
        case Some(provided) => provided(bar.timestamp)
        case None => cfg.assumedFundingRate;
      o.funding == s.funding +
        if n > 0 && n % cfg.FundingIntervalBars() == 0
        then OpenQty(AfterFills(cfg, candles, n)) * bar.close * rate else 0.0
  {
    hide BeforeExits, ForcedExit, OpenQty;
    var s, bar := After(cfg, candles, n).state, candles[n];
    GridRisk.BarStepFunding(cfg, candles[0].timestamp, s, bar, n);
    NotionalAt(AfterFills(cfg, candles, n), bar.close);
    FundingOfBar(cfg, s, bar, n);
  }

  lemma FundingOfBar(cfg: Config, s: State, bar: Candle, n: nat)
    ensures var t := BeforeExits(cfg, s, bar, n);
      t.funding == s.funding +
        if n > 0 && n % cfg.FundingIntervalBars() == 0
        then OpenNotionalAt(t.cells, bar.close) * cfg.FundingRate(bar.timestamp) else 0.0
  {
    hide PassTrades, OpenedCells, ClosedCells, OpenFills, OpenCount, OpenNotionalAt, SumNet;
  }

  // ------------------------------------------------------------------
  // Cells open at once
  // ------------------------------------------------------------------

  /** Cells open after the fills of bar n, or none if the run does not reach it. */
  ghost function OpenAt(cfg: Config, candles: seq<Candle>, n: nat): nat
    requires cfg.Valid() && n < |candles|
  {
    if After(cfg, candles, n).Running? then OpenCount(AfterFills(cfg, candles, n)) else 0
  }

  /** The reported maximum is the largest number of cells that were open after the fills of a bar. */
  lemma {:induction false} MaxOpenIs(cfg: Config, candles: seq<Candle>, n: nat)
    requires cfg.Valid() && n <= |candles|
    ensures var m := After(cfg, candles, n).state.maxOpen;
      && (forall k :: 0 <= k < n ==> OpenAt(cfg, candles, k) <= m)
      && (m == 0 || exists k :: 0 <= k < n && OpenAt(cfg, candles, k) == m)
  {
    hide BeforeExits, ForcedExit, OpenCount, AfterFills;
    if n > 0 {
      MaxOpenIs(cfg, candles, n - 1);
      match After(cfg, candles, n - 1) {
        case Stopped(_, _) =>
        case Running(s) =>
          MaxOpenStep(cfg, candles, n - 1);
          assert OpenAt(cfg, candles, n - 1) == OpenCount(AfterFills(cfg, candles, n - 1));
      }
    }
  }

  lemma MaxOpenStep(cfg: Config, candles: seq<Candle>, n: nat)
    requires cfg.Valid() && n < |candles| && After(cfg, candles, n).Running?
    ensures After(cfg, candles, n + 1).state.maxOpen
         == MaxInt(After(cfg, candles, n).state.maxOpen, OpenCount(AfterFills(cfg, candles, n)))
  {
    hide ForcedExit, PassTrades, OpenedCells, ClosedCells, OpenFills, OpenCount, OpenNotionalAt, SumNet;
  }
}
