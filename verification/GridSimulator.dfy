/** The grid backtest as it runs: cell objects updated in place, one pass over the bars.
    Each method is proved equal to the function of GridModel that specifies it. */
module GridSimulator {
  import opened Common
  import opened GridTypes
  import opened GridModel
  import GridLedger

  class CellState {
    const index: int
    const entryPrice: real
    const exitPrice: real
    var isOpen: bool
    var openedAt: Option<int>
    var openedBar: int
    var quantity: real

    constructor (index: int, entryPrice: real, exitPrice: real)
      ensures View() == Cell(index, entryPrice, exitPrice, false, None, 0, 0.0)
    {
      this.index, this.entryPrice, this.exitPrice := index, entryPrice, exitPrice;
      isOpen, openedAt, openedBar, quantity := false, None, 0, 0.0;
    }

    function View(): Cell
      reads this
    {
      Cell(index, entryPrice, exitPrice, isOpen, openedAt, openedBar, quantity)
    }
  }

  function Views(cells: seq<CellState>): (r: seq<Cell>)
    reads cells
    ensures |r| == |cells|
  {
    seq(|cells|, i requires 0 <= i < |cells| reads cells => cells[i].View())
  }

  ghost predicate Distinct(cells: seq<CellState>) {
    forall i, j :: 0 <= i < j < |cells| ==> cells[i] != cells[j]
  }

  lemma PassTradesExtend(cfg: Config, pass: Pass, cells: seq<Cell>, bar: Candle, barIndex: int, n: nat)
    requires n < |cells|
    ensures var before := PassTrades(cfg, pass, cells[..n], bar, barIndex);
      PassTrades(cfg, pass, cells[..n + 1], bar, barIndex) ==
        if Closes(pass, cells[n], bar) then before + [PassTrade(cfg, pass, cells[n], bar, barIndex)] else before
  {
    hide PassTrade, Closes;
    assert cells[..n + 1][..n] == cells[..n];
  }

  lemma OpenFillsExtend(cfg: Config, cells: seq<Cell>, bar: Candle, n: nat)
    requires n < |cells|
    ensures OpenFills(cfg, cells[..n + 1], bar)
         == OpenFills(cfg, cells[..n], bar) + if Opens(cfg, cells[n], bar) then 1 else 0
  {
    hide Opens;
    assert cells[..n + 1][..n] == cells[..n];
  }

  lemma UnrealizedExtend(cfg: Config, cells: seq<Cell>, mark: real, n: nat)
    requires n < |cells|
    ensures Unrealized(cfg, cells[..n + 1], mark)
         == Unrealized(cfg, cells[..n], mark) + if cells[n].isOpen then Gain(cfg, cells[n], mark) else 0.0
  {
    hide Gain;
    assert cells[..n + 1][..n] == cells[..n];
  }

  /** Once the loop has broken, the remaining bars change nothing. */
  lemma {:induction false} StaysStopped(cfg: Config, candles: seq<Candle>, k: nat, n: nat)
    requires cfg.Valid() && k <= n <= |candles| && After(cfg, candles, k).Stopped?
    ensures After(cfg, candles, n) == After(cfg, candles, k)
  {
    hide BarStep;
    if k < n {
      StaysStopped(cfg, candles, k, n - 1);
    }
  }

  class GridBacktestSimulator {
    const config: Config

    constructor (settings: Config, ratioPower: int -> real)
      requires GridTypes.Valid(settings.parameters)
      ensures config == settings.(levels := ComputeLevels(settings.parameters, ratioPower))
      ensures config.Valid()
    {
      config := settings.(levels := ComputeLevels(settings.parameters, ratioPower));
    }

    method BuildCells() returns (cells: seq<CellState>)
      requires config.Valid()
      ensures fresh(cells) && Distinct(cells)
      ensures Views(cells) == InitialCells(config, config.CellCount())
    {
      cells := [];
      for i := 0 to config.CellCount()
        invariant |cells| == i && fresh(cells) && Distinct(cells)
        invariant forall k :: 0 <= k < i ==>
          cells[k].View() == Cell(k, config.EntryPrice(k), config.ExitPrice(k), false, None, 0, 0.0)
      {
        var cell := new CellState(i, config.EntryPrice(i), config.ExitPrice(i));
        cells := cells + [cell];
      }
    }

    method TryOpenCells(cells: seq<CellState>, bar: Candle, barIndex: int) returns (fills: int)
      requires Distinct(cells)
      modifies cells
      ensures Views(cells) == OpenedCells(config, old(Views(cells)), bar, barIndex)
      ensures fills == OpenFills(config, old(Views(cells)), bar)
    {
      ghost var before := Views(cells);
      fills := 0;
      for i := 0 to |cells|
        invariant forall k :: 0 <= k < i ==> cells[k].View() == OpenedCell(config, before[k], bar, barIndex)
        invariant forall k :: i <= k < |cells| ==> cells[k].View() == before[k]
        invariant fills == OpenFills(config, before[..i], bar)
      {
        OpenFillsExtend(config, before, bar, i);
        assert cells[i].View() == before[i];
        var cell := cells[i];
        if !cell.isOpen && bar.low <= cell.entryPrice <= bar.high {
          var quantity := config.OpenQuantity(cell.entryPrice);
          if quantity > 0.0 {
            cell.isOpen, cell.openedAt, cell.openedBar, cell.quantity :=
              true, Some(bar.timestamp), barIndex, quantity;
            fills := fills + 1;
          }
        }
      }
      assert before[..|cells|] == before;
    }

    method CloseCell(cell: CellState, price: real, bar: Candle, barIndex: int, reason: Reason)
      returns (trade: Trade, pnl: real)
      modifies cell
      ensures trade == TradeOf(config, old(cell.View()), price, bar.timestamp, barIndex, reason)
      ensures pnl == trade.netPnl
      ensures cell.View() == old(cell.View()).(isOpen := false, quantity := 0.0)
    {
      var gross := Gain(config, cell.View(), price);
      var entryNotional := cell.entryPrice * cell.quantity;
      var exitNotional := price * cell.quantity;
      var rate := if reason != GridCycle then config.takerFee else config.makerFee;
      var fees := (entryNotional + exitNotional) * rate;
      pnl := gross - fees;
      trade := Trade(cell.index, if cell.openedAt.Some? then cell.openedAt.value else bar.timestamp,
        bar.timestamp, cell.entryPrice, price, cell.quantity, gross, fees,
        Abs(exitNotional - cell.exitPrice * cell.quantity), pnl, MaxInt(barIndex - cell.openedBar, 0), reason);
      cell.isOpen, cell.quantity := false, 0.0;
    }

    method TryCloseCells(cells: seq<CellState>, bar: Candle, barIndex: int)
      returns (trades: seq<Trade>, realized: real, fills: int)
      requires Distinct(cells)
      modifies cells
      ensures Views(cells) == ClosedCells(Cycle, old(Views(cells)), bar)
      ensures trades == PassTrades(config, Cycle, old(Views(cells)), bar, barIndex)
      ensures realized == SumNet(trades) && fills == |trades|
    {
      ghost var before := Views(cells);
      trades, realized, fills := [], 0.0, 0;
      for i := 0 to |cells|
        invariant forall k :: 0 <= k < i ==> cells[k].View() == ClosedCell(Cycle, before[k], bar)
        invariant forall k :: i <= k < |cells| ==> cells[k].View() == before[k]
        invariant trades == PassTrades(config, Cycle, before[..i], bar, barIndex)
        invariant realized == SumNet(trades) && fills == |trades|
      {
        PassTradesExtend(config, Cycle, before, bar, barIndex, i);
        assert cells[i].View() == before[i];
        var cell := cells[i];
        if cell.isOpen && bar.low <= cell.exitPrice <= bar.high {
          var fillPrice := config.Slipped(cell.exitPrice, false);
          var trade, pnl := CloseCell(cell, fillPrice, bar, barIndex, GridCycle);
          GridLedger.SumsOneMore(trades, trade);
          trades, realized, fills := trades + [trade], realized + pnl, fills + 1;
        }
      }
      assert before[..|cells|] == before;
    }

    method ForceCloseAll(cells: seq<CellState>, price: real, bar: Candle, barIndex: int, reason: Reason)
      returns (trades: seq<Trade>, realized: real)
      requires Distinct(cells)
      modifies cells
      ensures Views(cells) == ClosedCells(Force(price, reason), old(Views(cells)), bar)
      ensures trades == PassTrades(config, Force(price, reason), old(Views(cells)), bar, barIndex)
      ensures realized == SumNet(trades)
    {
      ghost var before := Views(cells);
      ghost var pass := Force(price, reason);
      trades, realized := [], 0.0;
      for i := 0 to |cells|
        invariant forall k :: 0 <= k < i ==> cells[k].View() == ClosedCell(pass, before[k], bar)
        invariant forall k :: i <= k < |cells| ==> cells[k].View() == before[k]
        invariant trades == PassTrades(config, pass, before[..i], bar, barIndex)
        invariant realized == SumNet(trades)
      {
        PassTradesExtend(config, pass, before, bar, barIndex, i);
        assert cells[i].View() == before[i];
        var cell := cells[i];
        if cell.isOpen {
          var trade, pnl := CloseCell(cell, price, bar, barIndex, reason);
          GridLedger.SumsOneMore(trades, trade);
          trades, realized := trades + [trade], realized + pnl;
        }
      }
      assert before[..|cells|] == before;
    }

    method Point(bar: Candle, realized: real, cells: seq<CellState>) returns (p: EquityPoint)
      ensures var u := Unrealized(config, Views(cells), bar.close);
        p == EquityPoint(bar.timestamp, config.capital + realized + u, config.capital + realized, u)
    {
      hide Gain;
      var unrealized := 0.0;
      var views := Views(cells);
      for i := 0 to |cells|
        invariant unrealized == Unrealized(config, views[..i], bar.close)
      {
        UnrealizedExtend(config, views, bar.close, i);
        if cells[i].isOpen {
          unrealized := unrealized + Gain(config, cells[i].View(), bar.close);
        }
      }
      assert views[..|cells|] == views;
      p := EquityPoint(bar.timestamp, config.capital + realized + unrealized, config.capital + realized, unrealized);
    }

    /** The two fill passes of one bar, in the order that the bar's direction suggests. */
    method FillBar(cells: seq<CellState>, bar: Candle, barIndex: int, ghost s: State)
      returns (trades: seq<Trade>, realized: real, fills: int)
      requires Distinct(cells) && Views(cells) == s.cells
      modifies cells
      ensures FillPhase(config, s, bar, barIndex) ==
        s.(cells := Views(cells), trades := s.trades + trades, realized := s.realized + realized,
           fills := s.fills + fills)
    {
      hide PassTrades, OpenedCells, ClosedCells, OpenFills, SumNet;
      if config.IsLong() == (bar.close >= bar.open) {
        var closings;
        trades, realized, closings := TryCloseCells(cells, bar, barIndex);
        var openings := TryOpenCells(cells, bar, barIndex);
        fills := closings + openings;
      } else {
        var openings := TryOpenCells(cells, bar, barIndex);
        var closings;
        trades, realized, closings := TryCloseCells(cells, bar, barIndex);
        fills := openings + closings;
      }
    }

    method Run(candles: seq<Candle>) returns (r: RunResult)
      requires config.Valid()
      ensures r == RunResultOf(config, candles)
    {
      hide FillPhase, PassTrades, ClosedCells, ForcedExit, Unrealized, OpenCount, OpenNotionalAt, SumNet, After;
      if |candles| < 2 {
        return RunResult([], [], InsufficientData, 0.0, 0, 0, false);
      }
      var cells := BuildCells();
      var trades: seq<Trade>, curve: seq<EquityPoint> := [], [];
      var realized, funding, fills, maxOpen := 0.0, 0.0, 0, 0;
      var start := candles[0].timestamp;
      var reason, broke := BacktestEnd, false;
      var i := 0;
      AtStart(config, candles);
      while i < |candles| && !broke
        invariant 0 <= i <= |candles| && fresh(cells) && Distinct(cells)
        invariant var s := State(Views(cells), trades, realized, funding, fills, maxOpen, curve);
          After(config, candles, i) == if broke then Stopped(s, reason) else Running(s)
        invariant !broke ==> reason == BacktestEnd
        decreases |candles| - i
      {
        var bar := candles[i];
        ghost var s := State(Views(cells), trades, realized, funding, fills, maxOpen, curve);
        var newTrades, delta, newFills := FillBar(cells, bar, i, s);
        trades, realized, fills := trades + newTrades, realized + delta, fills + newFills;
        maxOpen := MaxInt(maxOpen, OpenCount(Views(cells)));
        if i > 0 && i % config.FundingIntervalBars() == 0 {
          var cost := OpenNotionalAt(Views(cells), bar.close) * config.FundingRate(bar.timestamp);
          funding, realized := funding + cost, realized - cost;
        }
        ghost var t := State(Views(cells), trades, realized, funding, fills, maxOpen, curve);
        assert t == BeforeExits(config, s, bar, i);
        AtNextBar(config, candles, i, s);
        var exit := FindExit(start, cells, bar);
        if exit.Some? {
          reason, broke := exit.value.reason, true;
          newTrades, delta := ForceCloseAll(cells, exit.value.price, bar, i, reason);
          trades, realized := trades + newTrades, realized + delta;
        }
        var point := Point(bar, realized, cells);
        curve := curve + [point];
        i := i + 1;
      }
      if broke {
        StaysStopped(config, candles, i, |candles|);
      } else {
        var last := candles[|candles| - 1];
        var newTrades, delta := ForceCloseAll(cells, last.close, last, |candles| - 1, BacktestEnd);
        trades, realized := trades + newTrades, realized + delta;
      }
      r := RunResult(trades, curve, reason, funding, fills, maxOpen, reason == Liquidation);
    }

    lemma AtStart(cfg: Config, candles: seq<Candle>)
      requires cfg.Valid()
      ensures After(cfg, candles, 0) == Running(InitialState(cfg))
    {
    }

    lemma AtNextBar(cfg: Config, candles: seq<Candle>, i: nat, s: State)
      requires cfg.Valid() && i < |candles| && After(cfg, candles, i) == Running(s)
      ensures var t := BeforeExits(cfg, s, candles[i], i);
        After(cfg, candles, i + 1) ==
          AfterExits(cfg, t, ForcedExit(cfg, candles[0].timestamp, t.cells, candles[i]), candles[i], i)
    {
      hide BeforeExits, ForcedExit, AfterExits;
    }

    /** The checks that can force the grid closed, in the order in which they are made. */
    method FindExit(start: int, cells: seq<CellState>, bar: Candle) returns (exit: Option<Pass>)
      requires config.Valid()
      ensures exit == ForcedExit(config, start, Views(cells), bar)
      ensures exit.Some? ==> exit.value.Force?
    {
      hide LiquidationPrice, GridLevelExit;
      var p := config.parameters;
      var liquidation := LiquidationPrice(config, Views(cells));
      if liquidation.Some? &&
         ((config.IsLong() && bar.low <= liquidation.value) || (!config.IsLong() && bar.high >= liquidation.value)) {
        return Some(Force(liquidation.value, Liquidation));
      }
      var forced := GridLevelExit(config, bar);
      if forced.Some? {
        var level := if forced.value == TakeProfit then p.takeProfit else p.stopLoss;
        return Some(Force(PriceOr(level, bar.close), forced.value));
      }
      if p.maximumHoldingTime.Some? {
        var elapsed := bar.timestamp - start;
        if elapsed >= p.maximumHoldingTime.value {
          return Some(Force(bar.close, MaxHoldingTime));
        }
      }
      var buffer := (p.upper - p.lower) * config.breakoutFactor;
      if bar.close < p.lower - buffer || bar.close > p.upper + buffer {
        return Some(Force(bar.close, RangeBreakout));
      }
      return None;
    }
  }
}
