/** How much a grid can have open: the entry notional of its open cells against the total that its
    parameters announce, at every bar of every run. */
module GridExposure {
  import opened Common
  import opened GridTypes
  import opened GridModel

  /** The factor by which slippage moves an opening fill away from its level. */
  function OpeningFactor(cfg: Config): real {
    1.0 + cfg.Side() * cfg.slippage
  }

  /** An open cell ties up the position size divided by the opening factor f. */
  ghost predicate Ties(c: Cell, f: real, size: real) {
    c.entryPrice * c.quantity * f == size
  }

  lemma OpenCellTies(cfg: Config, c: Cell)
    requires c.quantity == cfg.OpenQuantity(c.entryPrice) && c.quantity > 0.0
    ensures Ties(c, OpeningFactor(cfg), cfg.parameters.positionSize)
  {
    var e, q, f, size := c.entryPrice, c.quantity, OpeningFactor(cfg), cfg.parameters.positionSize;
    var fill := e * f;
    assert fill > 0.0 && q == size / fill;
    assert q * fill == size;
    assert e * q * f == q * fill;
  }

  lemma {:induction false} EntryNotionalOfOpenCells(cells: seq<Cell>, f: real, size: real)
    requires forall i :: 0 <= i < |cells| && cells[i].isOpen ==> Ties(cells[i], f, size)
    ensures EntryNotional(cells) * f == OpenCount(cells) as real * size
  {
    if |cells| > 0 {
      EntryNotionalOfOpenCells(cells[..|cells| - 1], f, size);
    }
  }

  /** A cell keeps its entry level, and open it holds what its opening bought. */
  ghost predicate Filled(cfg: Config, cells: seq<Cell>)
    requires cfg.Valid()
  {
    && |cells| == cfg.CellCount()
    && forall i :: 0 <= i < |cells| ==>
         && cells[i].entryPrice == cfg.EntryPrice(i)
         && (cells[i].isOpen ==> cells[i].quantity == cfg.OpenQuantity(cells[i].entryPrice) && cells[i].quantity > 0.0)
  }

  lemma FilledCellsTie(cfg: Config, cells: seq<Cell>)
    requires cfg.Valid() && Filled(cfg, cells)
    ensures EntryNotional(cells) * OpeningFactor(cfg) == OpenCount(cells) as real * cfg.parameters.positionSize
  {
    forall i | 0 <= i < |cells| && cells[i].isOpen
      ensures Ties(cells[i], OpeningFactor(cfg), cfg.parameters.positionSize)
    {
      OpenCellTies(cfg, cells[i]);
    }
    EntryNotionalOfOpenCells(cells, OpeningFactor(cfg), cfg.parameters.positionSize);
  }

  // ------------------------------------------------------------------
  // Which cells can be open
  // ------------------------------------------------------------------

  /** Number of the first n cells whose entry level is positive. */
  function PositiveEntries(cfg: Config, n: nat): (k: nat)
    requires cfg.Valid() && n <= cfg.CellCount()
    ensures k <= n
  {
    if n == 0 then 0 else PositiveEntries(cfg, n - 1) + if cfg.EntryPrice(n - 1) > 0.0 then 1 else 0
  }

  lemma OpensIffPositive(cfg: Config, price: real)
    requires cfg.parameters.positionSize > 0.0 && OpeningFactor(cfg) > 0.0
    ensures cfg.OpenQuantity(price) > 0.0 <==> price > 0.0
  {
    var f := OpeningFactor(cfg);
    assert cfg.Slipped(price, true) == price * f;
    if price > 0.0 {
      assert price * f > 0.0;
    } else {
      assert price * f <= 0.0;
    }
  }

  lemma {:induction false} OpenWithinPositive(cfg: Config, cells: seq<Cell>, n: nat)
    requires cfg.Valid() && Filled(cfg, cells) && n <= |cells|
    requires cfg.parameters.positionSize > 0.0 && OpeningFactor(cfg) > 0.0
    ensures OpenCount(cells[..n]) <= PositiveEntries(cfg, n)
    ensures (forall i :: 0 <= i < n && cfg.EntryPrice(i) > 0.0 ==> cells[i].isOpen) ==>
      OpenCount(cells[..n]) == PositiveEntries(cfg, n)
  {
    hide OpeningFactor;
    if n > 0 {
      OpenWithinPositive(cfg, cells, n - 1);
      OpensIffPositive(cfg, cells[n - 1].entryPrice);
      assert cells[..n][..n - 1] == cells[..n - 1];
    }
  }

  lemma {:induction false} NoneOpen(cells: seq<Cell>)
    requires forall i :: 0 <= i < |cells| ==> !cells[i].isOpen
    ensures EntryNotional(cells) == 0.0
  {
    if |cells| > 0 {
      NoneOpen(cells[..|cells| - 1]);
    }
  }

  lemma {:induction false} CountZero(cells: seq<Cell>)
    requires OpenCount(cells) == 0
    ensures EntryNotional(cells) == 0.0
  {
    if |cells| > 0 {
      CountZero(cells[..|cells| - 1]);
    }
  }

  // ------------------------------------------------------------------
  // The bound
  // ------------------------------------------------------------------

  predicate WithinTotal(cfg: Config, cells: seq<Cell>) {
    EntryNotional(cells) <= TotalNotional(cfg.parameters)
  }

  /** What a caller can check before a run: nothing ever opens, because the size is zero or slippage leaves
      no positive fill price, or the cells that can open are few enough for the slippage. */
  predicate Bounded(cfg: Config)
    requires cfg.Valid()
  {
    && cfg.parameters.positionSize >= 0.0
    && (|| cfg.parameters.positionSize == 0.0 || OpeningFactor(cfg) <= 0.0
        || PositiveEntries(cfg, cfg.CellCount()) as real <= cfg.parameters.gridCount as real * OpeningFactor(cfg))
  }

  lemma BoundAlgebra(n: real, f: real, k: real, m: real, size: real, count: real)
    requires size > 0.0 && f > 0.0 && k <= m <= count * f && n * f == k * size
    ensures n <= size * count
  {
    MulMonotone(k, count * f, size);
    assert count * f * size == size * count * f;
    MulCancel(n, size * count, f);
  }

  lemma ExcessAlgebra(n: real, f: real, m: real, size: real, count: real)
    requires size > 0.0 && f > 0.0 && m > count * f && n * f == m * size
    ensures n > size * count
  {
    assert (m - count * f) * size > 0.0;
    assert count * f * size == size * count * f;
    MulCancelStrict(size * count, n, f);
  }

  lemma NoFillAlgebra(n: real, f: real, k: real, size: real)
    requires size > 0.0 && f <= 0.0 && 0.0 <= k && n * f == k * size
    ensures f < 0.0 ==> n <= 0.0
    ensures f == 0.0 ==> k == 0.0
  {
    assert k * size >= 0.0;
    if f < 0.0 {
      assert n > 0.0 ==> n * f < 0.0;
    }
    if f == 0.0 {
      assert k > 0.0 ==> k * size > 0.0;
    }
  }

  lemma TotalSign(size: real, count: real)
    requires count >= 2.0
    ensures size >= 0.0 ==> size * count >= 0.0
    ensures size < 0.0 ==> size * count < 0.0
  {
  }

  lemma FilledWithinTotal(cfg: Config, cells: seq<Cell>)
    requires cfg.Valid() && Filled(cfg, cells) && Bounded(cfg)
    ensures WithinTotal(cfg, cells)
  {
    hide EntryNotional, OpenCount, PositiveEntries, OpeningFactor;
    var size, count, f := cfg.parameters.positionSize, cfg.parameters.gridCount as real, OpeningFactor(cfg);
    TotalSign(size, count);
    FilledCellsTie(cfg, cells);
    if size == 0.0 {
      NothingBought(cfg, cells);
    } else if f <= 0.0 {
      NoFillAlgebra(EntryNotional(cells), f, OpenCount(cells) as real, size);
      if f == 0.0 {
        CountZero(cells);
      }
    } else {
      OpenWithinPositive(cfg, cells, |cells|);
      assert cells[..|cells|] == cells;
      BoundAlgebra(EntryNotional(cells), f, OpenCount(cells) as real,
        PositiveEntries(cfg, cfg.CellCount()) as real, size, count);
    }
  }

  lemma NothingBought(cfg: Config, cells: seq<Cell>)
    requires cfg.Valid() && Filled(cfg, cells) && cfg.parameters.positionSize == 0.0
    ensures EntryNotional(cells) == 0.0
  {
    forall i | 0 <= i < |cells| ensures !cells[i].isOpen {
      assert cfg.OpenQuantity(cells[i].entryPrice) == 0.0;
    }
    NoneOpen(cells);
  }

  // ------------------------------------------------------------------
  // Whole runs
  // ------------------------------------------------------------------

  /** The cells right after the opening pass of a bar, when the most of them are open. */
  function AfterOpening(cfg: Config, s: State, bar: Candle, barIndex: int): seq<Cell> {
    if cfg.IsLong() == (bar.close >= bar.open)
    then OpenPhase(cfg, ClosePhase(cfg, Cycle, s, bar, barIndex), bar, barIndex).cells
    else OpenPhase(cfg, s, bar, barIndex).cells
  }

  lemma BarStaysFilled(cfg: Config, s: State, bar: Candle, barIndex: int)
    requires cfg.Valid() && Filled(cfg, s.cells)
    ensures Filled(cfg, AfterOpening(cfg, s, bar, barIndex))
    ensures Filled(cfg, BeforeExits(cfg, s, bar, barIndex).cells)
  {
    hide PassTrades, OpenFills, OpenCount, OpenNotionalAt, SumNet;
  }

  lemma ExitStaysFilled(cfg: Config, t: State, exit: Option<Pass>, bar: Candle, barIndex: int)
    requires cfg.Valid() && Filled(cfg, t.cells)
    ensures Filled(cfg, AfterExits(cfg, t, exit, bar, barIndex).state.cells)
  {
    hide PassTrades;
  }

  lemma {:induction false} AfterFilled(cfg: Config, candles: seq<Candle>, n: nat)
    requires cfg.Valid() && n <= |candles|
    ensures Filled(cfg, After(cfg, candles, n).state.cells)
  {
    hide BeforeExits, ForcedExit, AfterExits, Filled;
    if n == 0 {
      InitiallyFilled(cfg);
    } else {
      AfterFilled(cfg, candles, n - 1);
      match After(cfg, candles, n - 1) {
        case Stopped(_, _) =>
        case Running(s) =>
          var t := BeforeExits(cfg, s, candles[n - 1], n - 1);
          BarStaysFilled(cfg, s, candles[n - 1], n - 1);
          var exit := ForcedExit(cfg, candles[0].timestamp, t.cells, candles[n - 1]);
          ExitStaysFilled(cfg, t, exit, candles[n - 1], n - 1);
      }
    }
  }

  lemma InitiallyFilled(cfg: Config)
    requires cfg.Valid()
    ensures Filled(cfg, InitialState(cfg).cells)
  {
  }

  /** At bar n of a run the open entry notional is within the announced total: right after the opening
      pass, when the forced exits are looked at, and once the bar is over. */
  ghost predicate Holds(cfg: Config, candles: seq<Candle>, n: nat)
    requires cfg.Valid() && n < |candles|
  {
    match After(cfg, candles, n)
    case Stopped(_, _) => true
    case Running(s) =>
      && WithinTotal(cfg, AfterOpening(cfg, s, candles[n], n))
      && WithinTotal(cfg, BeforeExits(cfg, s, candles[n], n).cells)
      && WithinTotal(cfg, After(cfg, candles, n + 1).state.cells)
  }

  lemma WithinTotalAtEveryBar(cfg: Config, candles: seq<Candle>, n: nat)
    requires cfg.Valid() && n < |candles| && Bounded(cfg)
    ensures Holds(cfg, candles, n)
  {
    hide After, BeforeExits, AfterOpening, WithinTotal, Filled, Bounded;
    AfterFilled(cfg, candles, n);
    AfterFilled(cfg, candles, n + 1);
    match After(cfg, candles, n) {
      case Stopped(_, _) =>
      case Running(s) =>
        BarStaysFilled(cfg, s, candles[n], n);
        FilledWithinTotal(cfg, AfterOpening(cfg, s, candles[n], n));
        FilledWithinTotal(cfg, BeforeExits(cfg, s, candles[n], n).cells);
        FilledWithinTotal(cfg, After(cfg, candles, n + 1).state.cells);
    }
  }

  /** For every valid configuration, long or short, the open entry notional stays within the announced total
      at every bar of every run if and only if the configuration is bounded. */
  lemma ExposureIff(cfg: Config)
    requires cfg.Valid()
    ensures (forall candles, n: nat :: |candles| >= 2 && n < |candles| ==> Holds(cfg, candles, n)) <==> Bounded(cfg)
  {
    hide Holds, Bounded;
    if Bounded(cfg) {
      forall candles, n: nat | |candles| >= 2 && n < |candles| ensures Holds(cfg, candles, n) {
        WithinTotalAtEveryBar(cfg, candles, n);
      }
    } else {
      var candles := Excess(cfg);
      assert !Holds(cfg, candles, 0);
    }
  }

  /** A run that exceeds the total at its first bar. A negative size needs no open cell for that; otherwise
      the bar spans all positive entry levels and opens them at once. */
  lemma Excess(cfg: Config) returns (candles: seq<Candle>)
    requires cfg.Valid() && !Bounded(cfg)
    ensures |candles| == 2 && StrictlyTimeOrdered(candles) && !Holds(cfg, candles, 0)
  {
    hide AfterOpening, BeforeExits, BarStep, EntryNotional, PositiveEntries, OpeningFactor, Filled;
    var low, high := EntryRange(cfg, cfg.CellCount());
    if cfg.parameters.positionSize < 0.0 {
      low, high := high + 1.0, high + 1.0;
    }
    var bar := Candle("", 0, high + 1.0, high + 1.0, low, low, 0.0);
    candles := [bar, bar.(timestamp := 60)];
    assert After(cfg, candles, 0) == Running(InitialState(cfg));
    if cfg.parameters.positionSize < 0.0 {
      UntouchedExceeds(cfg, bar);
    } else {
      SpannedExceeds(cfg, bar);
    }
  }

  /** Before any cell is open the first bar's closing pass does nothing. */
  lemma FirstOpening(cfg: Config, bar: Candle)
    requires cfg.Valid()
    ensures AfterOpening(cfg, InitialState(cfg), bar, 0) == OpenedCells(cfg, InitialState(cfg).cells, bar, 0)
  {
    hide PassTrades;
    assert ClosedCells(Cycle, InitialState(cfg).cells, bar) == InitialState(cfg).cells;
  }

  lemma UntouchedExceeds(cfg: Config, bar: Candle)
    requires cfg.Valid() && cfg.parameters.positionSize < 0.0
    requires forall i :: 0 <= i < cfg.CellCount() ==> cfg.EntryPrice(i) < bar.low
    ensures !WithinTotal(cfg, AfterOpening(cfg, InitialState(cfg), bar, 0))
  {
    hide AfterOpening, EntryNotional;
    FirstOpening(cfg, bar);
    NoneOpen(AfterOpening(cfg, InitialState(cfg), bar, 0));
    TotalSign(cfg.parameters.positionSize, cfg.parameters.gridCount as real);
  }

  lemma SpannedExceeds(cfg: Config, bar: Candle)
    requires cfg.Valid() && !Bounded(cfg) && cfg.parameters.positionSize >= 0.0
    requires forall i :: 0 <= i < cfg.CellCount() && cfg.EntryPrice(i) > 0.0 ==>
      bar.low <= cfg.EntryPrice(i) <= bar.high
    ensures !WithinTotal(cfg, AfterOpening(cfg, InitialState(cfg), bar, 0))
  {
    hide AfterOpening, BeforeExits, EntryNotional, OpenCount, PositiveEntries, OpeningFactor, Filled;
    var cells := AfterOpening(cfg, InitialState(cfg), bar, 0);
    InitiallyFilled(cfg);
    BarStaysFilled(cfg, InitialState(cfg), bar, 0);
    PositiveEntriesOpen(cfg, bar);
    assert |cells| == cfg.CellCount();
    OpenWithinPositive(cfg, cells, |cells|);
    assert cells[..|cells|] == cells;
    FilledCellsTie(cfg, cells);
    ExcessAlgebra(EntryNotional(cells), OpeningFactor(cfg), OpenCount(cells) as real,
      cfg.parameters.positionSize, cfg.parameters.gridCount as real);
  }

  lemma PositiveEntriesOpen(cfg: Config, bar: Candle)
    requires cfg.Valid() && cfg.parameters.positionSize > 0.0 && OpeningFactor(cfg) > 0.0
    requires forall i :: 0 <= i < cfg.CellCount() && cfg.EntryPrice(i) > 0.0 ==>
      bar.low <= cfg.EntryPrice(i) <= bar.high
    ensures var cells := AfterOpening(cfg, InitialState(cfg), bar, 0);
      |cells| == cfg.CellCount() && forall i :: 0 <= i < |cells| && cfg.EntryPrice(i) > 0.0 ==> cells[i].isOpen
  {
    hide AfterOpening, OpeningFactor;
    FirstOpening(cfg, bar);
    forall i | 0 <= i < cfg.CellCount() && cfg.EntryPrice(i) > 0.0
      ensures OpenedCells(cfg, InitialState(cfg).cells, bar, 0)[i].isOpen
    {
      OpensIffPositive(cfg, cfg.EntryPrice(i));
    }
  }

  lemma {:induction false} EntryRange(cfg: Config, n: nat) returns (low: real, high: real)
    requires cfg.Valid() && n <= cfg.CellCount()
    ensures 0.0 < low <= high && forall i :: 0 <= i < n ==>
      cfg.EntryPrice(i) <= high && (cfg.EntryPrice(i) > 0.0 ==> low <= cfg.EntryPrice(i))
  {
    low, high := 1.0, 1.0;
    if n > 0 {
      var price := cfg.EntryPrice(n - 1);
      low, high := EntryRange(cfg, n - 1);
      low, high := if price > 0.0 then MinReal(low, price) else low, MaxReal(high, price);
    }
  }

  // ------------------------------------------------------------------
  // Long and short grids with positive levels
  // ------------------------------------------------------------------

  lemma {:induction false} AllEntriesPositive(cfg: Config, n: nat)
    requires cfg.Valid() && n <= cfg.CellCount() && forall i :: 0 <= i < n ==> cfg.EntryPrice(i) > 0.0
    ensures PositiveEntries(cfg, n) == n
  {
    if n > 0 {
      AllEntriesPositive(cfg, n - 1);
    }
  }

  /** For a short grid with positive entry levels this comes down to the level count times the slippage. */
  lemma ShortExposureIff(cfg: Config)
    requires cfg.Valid() && !cfg.IsLong() && forall i :: 0 <= i < cfg.CellCount() ==> cfg.EntryPrice(i) > 0.0
    ensures (forall candles, n: nat :: |candles| >= 2 && n < |candles| ==> Holds(cfg, candles, n)) <==>
      && cfg.parameters.positionSize >= 0.0
      && (|| cfg.parameters.positionSize == 0.0 || cfg.slippage >= 1.0
          || cfg.parameters.gridCount as real * cfg.slippage <= 1.0)
  {
    hide Holds, PositiveEntries;
    ExposureIff(cfg);
    AllEntriesPositive(cfg, cfg.CellCount());
    ShortAlgebra(cfg.parameters.gridCount as real, cfg.slippage, OpeningFactor(cfg));
  }

  lemma ShortAlgebra(count: real, slip: real, f: real)
    requires f == 1.0 + -1.0 * slip
    ensures count - 1.0 <= count * f <==> count * slip <= 1.0
  {
    assert count * f == count - count * slip;
  }

  /** A long grid stays within the total for every slippage that is not negative. */
  lemma LongExposureHolds(cfg: Config, candles: seq<Candle>, n: nat)
    requires cfg.Valid() && cfg.IsLong() && cfg.parameters.positionSize >= 0.0 && cfg.slippage >= 0.0
    requires n < |candles|
    ensures Holds(cfg, candles, n)
  {
    hide Holds, PositiveEntries;
    LongAlgebra(cfg.parameters.gridCount as real, cfg.slippage, OpeningFactor(cfg));
    WithinTotalAtEveryBar(cfg, candles, n);
  }

  lemma LongAlgebra(count: real, slip: real, f: real)
    requires count >= 0.0 && slip >= 0.0 && f == 1.0 + slip
    ensures count <= count * f
  {
    assert count * f == count + count * slip;
  }
}
