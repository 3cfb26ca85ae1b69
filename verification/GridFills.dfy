/** Which cells a bar opens and closes, and in which order: in terms of the bar, the levels, and the cells
    before and after it. */
module GridFills {
  import opened Common
  import opened GridTypes
  import opened GridModel
  import GridCells
  import GridLedger

  predicate Touched(price: real, bar: Candle) {
    bar.low <= price <= bar.high
  }

  /** The bar moves the way the grid hopes for: not down for a long grid, down for a short one. */
  predicate Favours(cfg: Config, bar: Candle) {
    if cfg.parameters.direction == Long then bar.close >= bar.open else bar.close < bar.open
  }

  /** The cycle trades of one cell. */
  function CyclesOf(trades: seq<Trade>, i: int): seq<Trade> {
    if |trades| == 0 then []
    else
      var t := trades[|trades| - 1];
      CyclesOf(trades[..|trades| - 1], i) + if t.reason == GridCycle && t.cellIndex == i then [t] else []
  }

  lemma {:induction false} CyclesAppend(a: seq<Trade>, b: seq<Trade>, i: int)
    ensures CyclesOf(a + b, i) == CyclesOf(a, i) + CyclesOf(b, i)
  {
    if |b| == 0 {
      assert a + b == a;
    } else {
      var n := |b| - 1;
      assert (a + b)[..|a + b| - 1] == a + b[..n];
      CyclesAppend(a, b[..n], i);
    }
  }

  lemma {:induction false} NoCycles(trades: seq<Trade>, i: int)
    requires forall t :: t in trades ==> t.reason != GridCycle
    ensures CyclesOf(trades, i) == []
  {
    if |trades| > 0 {
      NoCycles(trades[..|trades| - 1], i);
    }
  }

  lemma {:induction false} CyclesOfPass(cfg: Config, cells: seq<Cell>, bar: Candle, barIndex: int, i: nat)
    requires forall k :: 0 <= k < |cells| ==> cells[k].index == k
    ensures CyclesOf(PassTrades(cfg, Cycle, cells, bar, barIndex), i) ==
      if i < |cells| && Closes(Cycle, cells[i], bar) then [PassTrade(cfg, Cycle, cells[i], bar, barIndex)] else []
  {
    if |cells| > 0 {
      var n := |cells| - 1;
      CyclesOfPass(cfg, cells[..n], bar, barIndex, i);
      GridLedger.PassTradeFields(cfg, Cycle, cells[n], bar, barIndex);
      PassTradeOf(cfg, cells[n], bar, barIndex);
      var before := PassTrades(cfg, Cycle, cells[..n], bar, barIndex);
      CyclesAppend(before, [PassTrade(cfg, Cycle, cells[n], bar, barIndex)], i);
      OneCycle(PassTrade(cfg, Cycle, cells[n], bar, barIndex), i);
    }
  }

  lemma OneCycle(t: Trade, i: int)
    ensures CyclesOf([t], i) == if t.reason == GridCycle && t.cellIndex == i then [t] else []
  {
    assert [t][..0] == [];
  }

  lemma PassTradeOf(cfg: Config, c: Cell, bar: Candle, barIndex: int)
    ensures var t := PassTrade(cfg, Cycle, c, bar, barIndex);
      && t.cellIndex == c.index && t.exitTime == bar.timestamp
      && t.entryTime == (if c.openedAt.Some? then c.openedAt.value else bar.timestamp)
      && t.holdingBars == MaxInt(barIndex - c.openedBar, 0)
  {
  }

  // ------------------------------------------------------------------
  // Cells over a run
  // ------------------------------------------------------------------

  lemma OpenedStayOk(cfg: Config, candles: seq<Candle>, cells: seq<Cell>, n: nat)
    requires cfg.Valid() && n < |candles| && GridCells.CellsOk(cfg, candles, n + 1, cells)
    ensures GridCells.CellsOk(cfg, candles, n + 1, OpenedCells(cfg, cells, candles[n], n))
  {
    var after := OpenedCells(cfg, cells, candles[n], n);
    forall k | 0 <= k < |after| ensures GridCells.CellOk(cfg, candles, n + 1, k, after[k]) {
      assert GridCells.CellOk(cfg, candles, n + 1, k, cells[k]);
    }
  }

  lemma ClosedStayOk(cfg: Config, candles: seq<Candle>, pass: Pass, cells: seq<Cell>, n: nat)
    requires cfg.Valid() && n < |candles| && GridCells.CellsOk(cfg, candles, n + 1, cells)
    ensures GridCells.CellsOk(cfg, candles, n + 1, ClosedCells(pass, cells, candles[n]))
  {
    var after := ClosedCells(pass, cells, candles[n]);
    forall k | 0 <= k < |after| ensures GridCells.CellOk(cfg, candles, n + 1, k, after[k]) {
      assert GridCells.CellOk(cfg, candles, n + 1, k, cells[k]);
    }
  }

  lemma LaterStayOk(cfg: Config, candles: seq<Candle>, cells: seq<Cell>, n: nat)
    requires cfg.Valid() && n < |candles| && GridCells.CellsOk(cfg, candles, n, cells)
    ensures GridCells.CellsOk(cfg, candles, n + 1, cells)
  {
    forall k | 0 <= k < |cells| ensures GridCells.CellOk(cfg, candles, n + 1, k, cells[k]) {
      assert GridCells.CellOk(cfg, candles, n, k, cells[k]);
    }
  }

  lemma FilledStayOk(cfg: Config, candles: seq<Candle>, s: State, n: nat)
    requires cfg.Valid() && n < |candles| && GridCells.CellsOk(cfg, candles, n, s.cells)
    ensures GridCells.CellsOk(cfg, candles, n + 1, BeforeExits(cfg, s, candles[n], n).cells)
  {
    hide OpenedCells, ClosedCells, PassTrades, OpenFills, OpenCount, OpenNotionalAt, SumNet, GridCells.CellsOk;
    var bar := candles[n];
    LaterStayOk(cfg, candles, s.cells, n);
    ClosedStayOk(cfg, candles, Cycle, s.cells, n);
    OpenedStayOk(cfg, candles, ClosedCells(Cycle, s.cells, bar), n);
    OpenedStayOk(cfg, candles, s.cells, n);
    ClosedStayOk(cfg, candles, Cycle, OpenedCells(cfg, s.cells, bar, n), n);
  }

  lemma {:induction false} CellsAfter(cfg: Config, candles: seq<Candle>, n: nat)
    requires cfg.Valid() && n <= |candles|
    ensures GridCells.CellsOk(cfg, candles, n, After(cfg, candles, n).state.cells)
  {
    hide BeforeExits, ForcedExit, ClosedCells, PassTrades, GridCells.CellsOk;
    if n == 0 {
      NoneOpenYet(cfg, candles);
    } else {
      CellsAfter(cfg, candles, n - 1);
      match After(cfg, candles, n - 1) {
        case Stopped(s, _) =>
          LaterStayOk(cfg, candles, s.cells, n - 1);
        case Running(s) =>
          var t := BeforeExits(cfg, s, candles[n - 1], n - 1);
          FilledStayOk(cfg, candles, s, n - 1);
          var exit := ForcedExit(cfg, candles[0].timestamp, t.cells, candles[n - 1]);
          if exit.Some? {
            ClosedStayOk(cfg, candles, exit.value, t.cells, n - 1);
          }
      }
    }
  }

  lemma NoneOpenYet(cfg: Config, candles: seq<Candle>)
    requires cfg.Valid()
    ensures GridCells.CellsOk(cfg, candles, 0, InitialState(cfg).cells)
  {
  }

  // ------------------------------------------------------------------
  // The order of the fills
  // ------------------------------------------------------------------

  /** The cells once bar n's fills are done, before its forced exits. */
  ghost function AfterFills(cfg: Config, candles: seq<Candle>, n: nat): seq<Cell>
    requires cfg.Valid() && n < |candles| && After(cfg, candles, n).Running?
  {
    BeforeExits(cfg, After(cfg, candles, n).state, candles[n], n).cells
  }

  /** What bar n does to cell i, c before and d after the fills, and its cycle trades there. On a bar that
      favours the grid closings come first, so only a cell that was open gives a trade, and it can open
      again. On a bar against the grid openings come first, so a cell can open and close at once, and a cell
      whose exit level is touched ends closed. */
  ghost predicate FilledAs(cfg: Config, candles: seq<Candle>, n: nat, i: nat, c: Cell, d: Cell, cycles: seq<Trade>)
    requires cfg.Valid() && n < |candles| && i < cfg.CellCount()
  {
    var bar := candles[n];
    var entry := Touched(cfg.EntryPrice(i), bar) && cfg.OpenQuantity(cfg.EntryPrice(i)) > 0.0;
    var exit := Touched(cfg.ExitPrice(i), bar);
    && (if Favours(cfg, bar) then
          && |cycles| == (if c.isOpen && exit then 1 else 0)
          && (d.isOpen <==> entry || (c.isOpen && !exit))
          && (d.isOpen ==> d.openedBar == if c.isOpen && !exit then c.openedBar else n)
        else
          && |cycles| == (if (c.isOpen || entry) && exit then 1 else 0)
          && (d.isOpen <==> (c.isOpen || entry) && !exit)
          && (d.isOpen ==> d.openedBar == if c.isOpen then c.openedBar else n))
    && (|cycles| == 1 ==>
          && cycles[0].exitTime == bar.timestamp
          && (if c.isOpen
              then 0 <= c.openedBar < n && cycles[0].entryTime == candles[c.openedBar].timestamp &&
                   cycles[0].holdingBars == n - c.openedBar
              else cycles[0].entryTime == bar.timestamp && cycles[0].holdingBars == 0))
  }

  /** The trades that bar n adds to a run: those of its fills, and after them those of a forced exit. */
  lemma BarTrades(cfg: Config, candles: seq<Candle>, n: nat) returns (forced: seq<Trade>)
    requires cfg.Valid() && n < |candles| && After(cfg, candles, n).Running?
    ensures var s, o := After(cfg, candles, n).state, After(cfg, candles, n + 1);
      && o.state.trades == BeforeExits(cfg, s, candles[n], n).trades + forced
      && (forall t :: t in forced ==> t.reason != GridCycle)
      && (o.Running? ==> forced == [] && o.state.cells == AfterFills(cfg, candles, n))
  {
    hide BeforeExits, ForcedExit, PassTrades, ClosedCells;
    var s, bar := After(cfg, candles, n).state, candles[n];
    var t := BeforeExits(cfg, s, bar, n);
    var exit := ForcedExit(cfg, candles[0].timestamp, t.cells, bar);
    GridLedger.ForcedExitForces(cfg, candles[0].timestamp, t.cells, bar);
    forced := [];
    if exit.Some? {
      forced := PassTrades(cfg, exit.value, t.cells, bar, n);
      GridLedger.PassConserves(cfg, exit.value, t.cells, bar, n);
    }
  }

  /** The fills of one bar as one pass over the cells it closes. */
  lemma FillsAre(cfg: Config, s: State, bar: Candle, n: int)
    ensures var t := BeforeExits(cfg, s, bar, n);
      if Favours(cfg, bar)
      then t.trades == s.trades + PassTrades(cfg, Cycle, s.cells, bar, n) &&
           t.cells == OpenedCells(cfg, ClosedCells(Cycle, s.cells, bar), bar, n)
      else t.trades == s.trades + PassTrades(cfg, Cycle, OpenedCells(cfg, s.cells, bar, n), bar, n) &&
           t.cells == ClosedCells(Cycle, OpenedCells(cfg, s.cells, bar, n), bar)
  {
    hide PassTrades, OpenedCells, ClosedCells, OpenFills, OpenCount, OpenNotionalAt, SumNet;
  }

  function CycleOf(cfg: Config, c: Cell, bar: Candle, n: int): seq<Trade> {
    if Closes(Cycle, c, bar) then [PassTrade(cfg, Cycle, c, bar, n)] else []
  }

  /** One cell through the two passes. */
  lemma OneCell(cfg: Config, candles: seq<Candle>, n: nat, i: nat, c: Cell)
    requires cfg.Valid() && n < |candles| && i < cfg.CellCount() && GridCells.CellOk(cfg, candles, n, i, c)
    ensures var bar := candles[n];
      if Favours(cfg, bar)
      then FilledAs(cfg, candles, n, i, c, OpenedCell(cfg, ClosedCell(Cycle, c, bar), bar, n), CycleOf(cfg, c, bar, n))
      else var o := OpenedCell(cfg, c, bar, n);
        FilledAs(cfg, candles, n, i, c, ClosedCell(Cycle, o, bar), CycleOf(cfg, o, bar, n))
  {
    hide PassTrade;
    var bar := candles[n];
    PassTradeOf(cfg, c, bar, n);
    PassTradeOf(cfg, OpenedCell(cfg, c, bar, n), bar, n);
  }

  /** At every bar that a run reaches, and for every cell. */
  lemma FillOrder(cfg: Config, candles: seq<Candle>, n: nat, i: nat)
    requires cfg.Valid() && n < |candles| && i < cfg.CellCount() && After(cfg, candles, n).Running?
    ensures var s, o := After(cfg, candles, n).state, After(cfg, candles, n + 1);
      && |AfterFills(cfg, candles, n)| == |s.cells| == cfg.CellCount()
      && (o.Running? ==> o.state.cells == AfterFills(cfg, candles, n))
      && s.trades <= o.state.trades
      && FilledAs(cfg, candles, n, i, s.cells[i], AfterFills(cfg, candles, n)[i],
                  CyclesOf(o.state.trades[|s.trades|..], i))
  {
    hide After, BeforeExits, PassTrades, PassTrade, FilledAs, OpenedCell, ClosedCell, Closes, CyclesOf;
    var s, o, bar := After(cfg, candles, n).state, After(cfg, candles, n + 1), candles[n];
    CellsAfter(cfg, candles, n);
    PlacesOf(cfg, candles, n, s.cells);
    OneCell(cfg, candles, n, i, s.cells[i]);
    var forced := BarTrades(cfg, candles, n);
    FillsAre(cfg, s, bar, n);
    NoCycles(forced, i);
    var cells := if Favours(cfg, bar) then s.cells else OpenedCells(cfg, s.cells, bar, n);
    OpenedPlaces(cfg, s.cells, bar, n);
    var fills := PassTrades(cfg, Cycle, cells, bar, n);
    assert o.state.trades == s.trades + (fills + forced);
    assert o.state.trades[|s.trades|..] == fills + forced;
    CyclesAppend(fills, forced, i);
    CyclesOfPass(cfg, cells, bar, n, i);
    assert CyclesOf(fills + forced, i) == CycleOf(cfg, cells[i], bar, n);
  }

  lemma PlacesOf(cfg: Config, candles: seq<Candle>, n: nat, cells: seq<Cell>)
    requires cfg.Valid() && n <= |candles| && GridCells.CellsOk(cfg, candles, n, cells)
    ensures |cells| == cfg.CellCount() && forall k :: 0 <= k < |cells| ==>
      cells[k].index == k && GridCells.CellOk(cfg, candles, n, k, cells[k])
  {
    assert forall k :: 0 <= k < |cells| ==> GridCells.CellOk(cfg, candles, n, k, cells[k]);
  }

  lemma OpenedPlaces(cfg: Config, cells: seq<Cell>, bar: Candle, n: int)
    ensures forall k :: 0 <= k < |cells| ==> OpenedCells(cfg, cells, bar, n)[k].index == cells[k].index
  {
  }

  /** The cycle trades of a bar that favours the grid are all of cells that were open before it. */
  lemma FavouredCyclesWereOpen(cfg: Config, candles: seq<Candle>, n: nat, i: nat)
    requires cfg.Valid() && n < |candles| && i < cfg.CellCount() && After(cfg, candles, n).Running?
    requires Favours(cfg, candles[n])
    ensures var s, o := After(cfg, candles, n).state, After(cfg, candles, n + 1);
      && |s.cells| == cfg.CellCount() && s.trades <= o.state.trades
      && (CyclesOf(o.state.trades[|s.trades|..], i) != [] ==> s.cells[i].isOpen)
  {
    hide After, AfterFills, CyclesOf;
    FillOrder(cfg, candles, n, i);
  }
}
