/** What a liquidation costs, and when a grid cycle earns money. */
module GridRisk {
  import opened Common
  import opened GridTypes
  import opened GridModel
  import GridLedger
  import GridCells
  import GridExposure

  // ------------------------------------------------------------------
  // Liquidation
  // ------------------------------------------------------------------

  function GrossFor(trades: seq<Trade>, reason: Reason): real {
    if |trades| == 0 then 0.0
    else
      GrossFor(trades[..|trades| - 1], reason) +
      if trades[|trades| - 1].reason == reason then trades[|trades| - 1].grossPnl else 0.0
  }

  /** Entry notional of the trades that closed for one reason. */
  function NotionalFor(trades: seq<Trade>, reason: Reason): real {
    if |trades| == 0 then 0.0
    else
      NotionalFor(trades[..|trades| - 1], reason) +
      if trades[|trades| - 1].reason == reason
      then trades[|trades| - 1].entryPrice * trades[|trades| - 1].quantity else 0.0
  }

  lemma {:induction false} ForAppend(a: seq<Trade>, b: seq<Trade>, reason: Reason)
    ensures GrossFor(a + b, reason) == GrossFor(a, reason) + GrossFor(b, reason)
    ensures NotionalFor(a + b, reason) == NotionalFor(a, reason) + NotionalFor(b, reason)
  {
    if |b| == 0 {
      assert a + b == a;
    } else {
      var n := |b| - 1;
      assert (a + b)[..|a + b| - 1] == a + b[..n];
      ForAppend(a, b[..n], reason);
    }
  }

  lemma {:induction false} ForNone(trades: seq<Trade>, reason: Reason)
    requires forall t :: t in trades ==> t.reason != reason
    ensures GrossFor(trades, reason) == 0.0 && NotionalFor(trades, reason) == 0.0
  {
    if |trades| > 0 {
      ForNone(trades[..|trades| - 1], reason);
    }
  }

  lemma {:induction false} ForAll(trades: seq<Trade>, reason: Reason)
    requires forall t :: t in trades ==> t.reason == reason
    ensures GrossFor(trades, reason) == SumGross(trades)
  {
    if |trades| > 0 {
      ForAll(trades[..|trades| - 1], reason);
    }
  }

  lemma NotionalOneMore(a: seq<Trade>, t: Trade, reason: Reason)
    ensures NotionalFor(a + [t], reason)
         == NotionalFor(a, reason) + if t.reason == reason then t.entryPrice * t.quantity else 0.0
  {
    assert (a + [t])[..|a|] == a;
  }

  lemma {:induction false} ForcedNotional(
    cfg: Config, price: real, reason: Reason, cells: seq<Cell>, bar: Candle, barIndex: int)
    ensures NotionalFor(PassTrades(cfg, Force(price, reason), cells, bar, barIndex), reason) == EntryNotional(cells)
  {
    hide PassTrade, NotionalFor;
    if |cells| == 0 {
      ForNone([], reason);
    } else {
      var n := |cells| - 1;
      var pass := Force(price, reason);
      GridLedger.PassTradeFields(cfg, pass, cells[n], bar, barIndex);
      ForcedNotional(cfg, price, reason, cells[..n], bar, barIndex);
      NotionalOneMore(PassTrades(cfg, pass, cells[..n], bar, barIndex),
                      PassTrade(cfg, pass, cells[n], bar, barIndex), reason);
    }
  }

  lemma GainLinear(cfg: Config, c: Cell, price: real)
    ensures Gain(cfg, c, price) == cfg.Side() * (price * c.quantity - c.entryPrice * c.quantity)
  {
  }

  lemma SideDistributes(side: real, price: real, q: real, n: real, dq: real, dn: real)
    requires side == 1.0 || side == -1.0
    ensures side * (price * q - n) + side * (price * dq - dn) == side * (price * (q + dq) - (n + dn))
  {
  }

  /** Marking all open cells at one price depends on them only through quantity and entry notional. */
  lemma {:induction false} UnrealizedLinear(cfg: Config, cells: seq<Cell>, price: real)
    ensures Unrealized(cfg, cells, price) == cfg.Side() * (price * OpenQty(cells) - EntryNotional(cells))
  {
    hide Gain;
    if |cells| > 0 {
      var c := cells[|cells| - 1];
      var rest := cells[..|cells| - 1];
      UnrealizedLinear(cfg, rest, price);
      if c.isOpen {
        GainLinear(cfg, c, price);
        SideDistributes(cfg.Side(), price, OpenQty(rest), EntryNotional(rest),
                        c.quantity, c.entryPrice * c.quantity);
      }
    }
  }

  lemma MarginAlgebra(n: real, q: real, leverage: real, side: real, price: real)
    requires q > 0.0 && leverage > 0.0 && (side == 1.0 || side == -1.0)
    requires price == n / q * (if side == 1.0 then 1.0 - 1.0 / leverage else 1.0 + 1.0 / leverage)
    ensures side * (price * q - n) == -(n / leverage)
  {
    var m := 1.0 / leverage;
    assert n / q * q == n;
    assert price * q == n * (if side == 1.0 then 1.0 - m else 1.0 + m);
    assert n * m == n / leverage;
  }

  /** Closing everything at the estimated liquidation price loses exactly the margin, the entry
      notional divided by the leverage, for long and short grids alike. */
  lemma LiquidationLosesMargin(cfg: Config, cells: seq<Cell>)
    requires cfg.Valid()
    ensures var price := LiquidationPrice(cfg, cells);
      price.Some? ==> Unrealized(cfg, cells, price.value) == -(EntryNotional(cells) / cfg.parameters.leverage)
  {
    hide Unrealized, EntryNotional, OpenQty, OpenCount;
    if LiquidationPrice(cfg, cells).Some? {
      var price := LiquidationPrice(cfg, cells).value;
      UnrealizedLinear(cfg, cells, price);
      MarginAlgebra(EntryNotional(cells), OpenQty(cells), cfg.parameters.leverage, cfg.Side(), price);
    }
  }

  /** While the loop runs every trade so far is a cycle trade. */
  lemma {:induction false} RunningOnlyCycles(cfg: Config, candles: seq<Candle>, n: nat)
    requires cfg.Valid() && n <= |candles|
    ensures var o := After(cfg, candles, n);
      o.Running? ==> forall t :: t in o.state.trades ==> t.reason == GridCycle
  {
    hide BeforeExits;
    if n > 0 {
      RunningOnlyCycles(cfg, candles, n - 1);
      var o := After(cfg, candles, n - 1);
      if o.Running? {
        BeforeExitsOnlyCycles(cfg, o.state, candles[n - 1], n - 1);
      }
    }
  }

  lemma BeforeExitsOnlyCycles(cfg: Config, s: State, bar: Candle, barIndex: int)
    requires forall t :: t in s.trades ==> t.reason == GridCycle
    ensures forall t :: t in BeforeExits(cfg, s, bar, barIndex).trades ==> t.reason == GridCycle
  {
    hide PassTrades, ClosedCells, OpenedCells;
    GridLedger.PassConserves(cfg, Cycle, s.cells, bar, barIndex);
    GridLedger.PassConserves(cfg, Cycle, OpenPhase(cfg, s, bar, barIndex).cells, bar, barIndex);
  }

  /** A run that was liquidated lost, on the liquidated cells, exactly their entry notional divided
      by the leverage, and that notional is within the announced exposure. */
  lemma LiquidatedRun(cfg: Config, candles: seq<Candle>)
    requires cfg.Valid() && |candles| >= 2
    ensures var r := RunResultOf(cfg, candles);
      r.liquidated ==>
        && GrossFor(r.trades, Liquidation) == -(NotionalFor(r.trades, Liquidation) / cfg.parameters.leverage)
        && (GridExposure.Bounded(cfg) ==> NotionalFor(r.trades, Liquidation) <= TotalNotional(cfg.parameters))
  {
    hide After;
    var o := After(cfg, candles, |candles|);
    if CloseReasonOf(cfg, candles) != Liquidation {
      return;
    }
    GridLedger.CurveShape(cfg, candles, |candles|);
    var k := |o.state.curve|;
    StoppedAtItsBar(cfg, candles, k);
    var s := After(cfg, candles, k - 1).state;
    var cells := BeforeExits(cfg, s, candles[k - 1], k - 1).cells;
    LiquidatedBar(cfg, candles, k, s);
    LiquidationLosesMargin(cfg, cells);
    if GridExposure.Bounded(cfg) {
      GridExposure.WithinTotalAtEveryBar(cfg, candles, k - 1);
    }
  }

  /** A loop that broke after its k-th bar was still running before it. */
  lemma StoppedAtItsBar(cfg: Config, candles: seq<Candle>, k: nat)
    requires cfg.Valid() && 0 < k <= |candles|
    requires var o := After(cfg, candles, k); o.Stopped? && |o.state.curve| == k
    ensures After(cfg, candles, k - 1).Running?
  {
    hide BarStep;
    GridLedger.CurveShape(cfg, candles, k - 1);
  }

  lemma LiquidatedBar(cfg: Config, candles: seq<Candle>, k: nat, s: State)
    requires cfg.Valid() && 0 < k <= |candles|
    requires After(cfg, candles, k - 1) == Running(s)
    requires var o := After(cfg, candles, k); o.Stopped? && o.reason == Liquidation
    ensures var trades := After(cfg, candles, k).state.trades;
      var cells := BeforeExits(cfg, s, candles[k - 1], k - 1).cells;
      && LiquidationPrice(cfg, cells).Some?
      && GrossFor(trades, Liquidation) == Unrealized(cfg, cells, LiquidationPrice(cfg, cells).value)
      && NotionalFor(trades, Liquidation) == EntryNotional(cells)
  {
    hide BeforeExits, PassTrades, ClosedCells;
    var bar := candles[k - 1];
    var t := BeforeExits(cfg, s, bar, k - 1);
    RunningOnlyCycles(cfg, candles, k - 1);
    BeforeExitsOnlyCycles(cfg, s, bar, k - 1);
    var price := LiquidationExit(cfg, candles[0].timestamp, t.cells, bar);
    var ts := PassTrades(cfg, Force(price, Liquidation), t.cells, bar, k - 1);
    assert After(cfg, candles, k).state.trades == t.trades + ts;
    ForcedSums(cfg, t, price, bar, k - 1);
  }

  lemma ForcedSums(cfg: Config, t: State, price: real, bar: Candle, barIndex: int)
    requires forall x :: x in t.trades ==> x.reason == GridCycle
    ensures var trades := t.trades + PassTrades(cfg, Force(price, Liquidation), t.cells, bar, barIndex);
      && GrossFor(trades, Liquidation) == Unrealized(cfg, t.cells, price)
      && NotionalFor(trades, Liquidation) == EntryNotional(t.cells)
  {
    var ts := PassTrades(cfg, Force(price, Liquidation), t.cells, bar, barIndex);
    ForAppend(t.trades, ts, Liquidation);
    ForNone(t.trades, Liquidation);
    GridLedger.PassConserves(cfg, Force(price, Liquidation), t.cells, bar, barIndex);
    ForAll(ts, Liquidation);
    GridLedger.ForceCloseRealisesMark(cfg, price, Liquidation, t.cells, bar, barIndex);
    ForcedNotional(cfg, price, Liquidation, t.cells, bar, barIndex);
  }

  lemma LiquidationExit(cfg: Config, start: int, cells: seq<Cell>, bar: Candle) returns (price: real)
    requires cfg.Valid()
    requires var e := ForcedExit(cfg, start, cells, bar); e.Some? && CloseReason(e.value) == Liquidation
    ensures LiquidationPrice(cfg, cells) == Some(price)
    ensures ForcedExit(cfg, start, cells, bar) == Some(Force(price, Liquidation))
  {
    price := LiquidationPrice(cfg, cells).value;
  }

  // ------------------------------------------------------------------
  // Break-even of a grid cycle
  // ------------------------------------------------------------------

  /** The distance between a cell's two levels outweighs slippage and both maker fees. */
  predicate Clears(cfg: Config, i: nat)
    requires cfg.Valid() && i < cfg.CellCount()
  {
    var e, x, f, s := cfg.EntryPrice(i), cfg.ExitPrice(i), cfg.makerFee, cfg.slippage;
    if cfg.IsLong() then x * (1.0 - s) * (1.0 - f) > e * (1.0 + f)
    else e * (1.0 - f) > x * (1.0 + s) * (1.0 + f)
  }

  lemma NetAlgebra(p: real, e: real, q: real, side: real, f: real)
    requires q > 0.0 && (side == 1.0 || side == -1.0)
    ensures var net := (p - e) * q * side - (e * q + p * q) * f;
      net > 0.0 <==> (if side == 1.0 then p * (1.0 - f) > e * (1.0 + f) else e * (1.0 - f) > p * (1.0 + f))
  {
    var unit := (p - e) * side - (e + p) * f;
    assert (p - e) * q * side - (e * q + p * q) * f == q * unit;
    if side == 1.0 {
      assert unit == p * (1.0 - f) - e * (1.0 + f);
    } else {
      assert unit == e * (1.0 - f) - p * (1.0 + f);
    }
    assert unit > 0.0 ==> q * unit > 0.0;
    assert unit <= 0.0 ==> q * unit <= 0.0;
  }

  lemma CycleFill(cfg: Config, x: real)
    ensures cfg.Slipped(x, false) == if cfg.IsLong() then x * (1.0 - cfg.slippage) else x * (1.0 + cfg.slippage)
  {
    assert 1.0 + -1.0 * cfg.slippage == 1.0 - cfg.slippage && 1.0 + 1.0 * cfg.slippage == 1.0 + cfg.slippage;
  }

  /** A cycle earns money if and only if its cell clears its costs. */
  lemma CycleBreakEven(cfg: Config, t: Trade)
    requires cfg.Valid() && GridCells.TradeOk(cfg, t) && t.reason == GridCycle
    ensures t.netPnl > 0.0 <==> Clears(cfg, t.cellIndex)
  {
    CycleFill(cfg, cfg.ExitPrice(t.cellIndex));
    NetAlgebra(t.exitPrice, t.entryPrice, t.quantity, cfg.Side(), cfg.makerFee);
  }

  lemma {:induction false} SumNetOfWinners(a: seq<Trade>, b: seq<Trade>)
    requires a <= b && forall i :: |a| <= i < |b| ==> b[i].netPnl > 0.0
    ensures SumNet(a) <= SumNet(b)
  {
    if |a| == |b| {
      assert a == b;
    } else {
      SumNetOfWinners(a, b[..|b| - 1]);
    }
  }

  lemma {:induction false} NoFundingRateNoFunding(cfg: Config, candles: seq<Candle>, n: nat)
    requires cfg.Valid() && n <= |candles| && forall t: int :: cfg.FundingRate(t) == 0.0
    ensures After(cfg, candles, n).state.funding == 0.0
  {
    hide BarStep;
    if n > 0 {
      NoFundingRateNoFunding(cfg, candles, n - 1);
      var o := After(cfg, candles, n - 1);
      if o.Running? {
        BarStepFunding(cfg, candles[0].timestamp, o.state, candles[n - 1], n - 1);
        FundingUnchanged(cfg, o.state, candles[n - 1], n - 1);
      }
    }
  }

  lemma BarStepFunding(cfg: Config, start: int, s: State, bar: Candle, barIndex: int)
    requires cfg.Valid()
    ensures BarStep(cfg, start, s, bar, barIndex).state.funding == BeforeExits(cfg, s, bar, barIndex).funding
  {
    hide BeforeExits, ForcedExit;
  }

  lemma FundingUnchanged(cfg: Config, s: State, bar: Candle, barIndex: int)
    requires cfg.FundingRate(bar.timestamp) == 0.0
    ensures BeforeExits(cfg, s, bar, barIndex).funding == s.funding
  {
  }

  lemma LaterTradesWin(cfg: Config, candles: seq<Candle>, i: nat, j: nat)
    requires cfg.Valid() && TimeOrdered(candles) && i < j < |candles|
    requires After(cfg, candles, j + 1).Running?
    requires forall k :: 0 <= k < cfg.CellCount() ==> Clears(cfg, k)
    ensures SumNet(After(cfg, candles, i + 1).state.trades) <= SumNet(After(cfg, candles, j + 1).state.trades)
  {
    hide After, Clears;
    var later := After(cfg, candles, j + 1).state;
    GridLedger.CurveShape(cfg, candles, j + 1);
    StillRunning(cfg, candles, i + 1, j + 1);
    var earlier := After(cfg, candles, i + 1).state;
    GridCells.AfterOrderly(cfg, candles, j + 1);
    RunningOnlyCycles(cfg, candles, j + 1);
    forall k | |earlier.trades| <= k < |later.trades| ensures later.trades[k].netPnl > 0.0 {
      assert later.trades[k] in later.trades;
      CycleBreakEven(cfg, later.trades[k]);
    }
    SumNetOfWinners(earlier.trades, later.trades);
  }

  /** When every cell clears its costs, cash falls from one bar to a later one by at most the
      funding paid between them, as long as no exit is forced. */
  lemma CashRisesWhileCellsClear(cfg: Config, candles: seq<Candle>, i: nat, j: nat)
    requires cfg.Valid() && TimeOrdered(candles) && i < j < |candles|
    requires After(cfg, candles, j + 1).Running?
    requires forall k :: 0 <= k < cfg.CellCount() ==> Clears(cfg, k)
    ensures var curve := After(cfg, candles, j + 1).state.curve;
      && |curve| == j + 1
      && curve[i].cash - curve[j].cash <=
           After(cfg, candles, j + 1).state.funding - After(cfg, candles, i + 1).state.funding
  {
    hide BarStep, After;
    var curve := After(cfg, candles, j + 1).state.curve;
    GridLedger.CurveShape(cfg, candles, j + 1);
    LaterTradesWin(cfg, candles, i, j);
    GridLedger.CurveIsLedger(cfg, candles, j + 1);
    assert GridLedger.PointIsLedger(cfg, candles, curve, i);
    assert GridLedger.PointIsLedger(cfg, candles, curve, j);
  }

  /** Without funding the cash column never falls before a forced exit. */
  lemma CashNeverFallsWithoutFunding(cfg: Config, candles: seq<Candle>, i: nat, j: nat)
    requires cfg.Valid() && TimeOrdered(candles) && i < j < |candles|
    requires After(cfg, candles, j + 1).Running?
    requires forall k :: 0 <= k < cfg.CellCount() ==> Clears(cfg, k)
    requires forall t: int :: cfg.FundingRate(t) == 0.0
    ensures var curve := After(cfg, candles, j + 1).state.curve;
      |curve| == j + 1 && curve[i].cash <= curve[j].cash
  {
    hide After;
    CashRisesWhileCellsClear(cfg, candles, i, j);
    NoFundingRateNoFunding(cfg, candles, i + 1);
    NoFundingRateNoFunding(cfg, candles, j + 1);
  }

  lemma {:induction false} StillRunning(cfg: Config, candles: seq<Candle>, i: nat, n: nat)
    requires cfg.Valid() && i <= n <= |candles| && After(cfg, candles, n).Running?
    ensures After(cfg, candles, i).Running?
  {
    hide BarStep;
    if i < n {
      StillRunning(cfg, candles, i, n - 1);
    }
  }
}
