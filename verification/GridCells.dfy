/** Every cell's life over a run: what an open cell holds, and that its trades follow one
    another in time without overlap. */
module GridCells {
  import opened Common
  import opened GridModel
  import opened GridTypes
  import GridLedger

  /** A cell lies between two neighbouring levels, and with ascending levels a long one buys low and sells
      high, a short one the other way round: before costs a cycle never loses. */
  lemma CellLevels(cfg: Config, i: nat)
    requires cfg.Valid() && i < cfg.CellCount()
    ensures {cfg.EntryPrice(i), cfg.ExitPrice(i)} == {cfg.levels[i], cfg.levels[i + 1]}
    ensures cfg.levels[i] <= cfg.levels[i + 1] ==>
      if cfg.parameters.direction == Long then cfg.EntryPrice(i) <= cfg.ExitPrice(i)
      else cfg.ExitPrice(i) <= cfg.EntryPrice(i)
  {
  }

  /** A cell keeps its two levels; open, it holds what its opening bought at a bar before n. */
  ghost predicate CellOk(cfg: Config, candles: seq<Candle>, n: nat, i: nat, c: Cell)
    requires cfg.Valid() && i < cfg.CellCount() && n <= |candles|
  {
    && c.index == i && c.entryPrice == cfg.EntryPrice(i) && c.exitPrice == cfg.ExitPrice(i)
    && (c.isOpen ==>
          && 0 <= c.openedBar < n && c.openedAt == Some(candles[c.openedBar].timestamp)
          && c.quantity == cfg.OpenQuantity(c.entryPrice) && c.quantity > 0.0)
    && (!c.isOpen ==> c.quantity == 0.0)
  }

  ghost predicate CellsOk(cfg: Config, candles: seq<Candle>, n: nat, cells: seq<Cell>)
    requires cfg.Valid() && n <= |candles|
  {
    |cells| == cfg.CellCount() && forall i :: 0 <= i < |cells| ==> CellOk(cfg, candles, n, i, cells[i])
  }

  /** What one trade records: one of the cells, the full quantity, P&L and fees from its own prices. */
  ghost predicate TradeOk(cfg: Config, t: Trade)
    requires cfg.Valid()
  {
    && 0 <= t.cellIndex < cfg.CellCount()
    && t.entryPrice == cfg.EntryPrice(t.cellIndex)
    && t.quantity == cfg.OpenQuantity(t.entryPrice) && t.quantity > 0.0
    && t.grossPnl == (t.exitPrice - t.entryPrice) * t.quantity * cfg.Side()
    && t.fees == (t.entryPrice * t.quantity + t.exitPrice * t.quantity)
                 * (if t.reason == GridCycle then cfg.makerFee else cfg.takerFee)
    && t.netPnl == t.grossPnl - t.fees
    && t.slippage == Abs(t.exitPrice * t.quantity - cfg.ExitPrice(t.cellIndex) * t.quantity)
    && (t.reason == GridCycle ==> t.exitPrice == cfg.Slipped(cfg.ExitPrice(t.cellIndex), false))
    && t.entryTime <= t.exitTime && t.holdingBars >= 0
  }

  /** The trade opened at one bar before n and closed at the same or a later one, and its holding counts the
      bars between. */
  ghost predicate Dated(candles: seq<Candle>, n: nat, t: Trade)
    requires n <= |candles|
  {
    exists b: nat, e: nat :: b <= e < n && OpenedAndClosed(candles, t, b, e)
  }

  predicate OpenedAndClosed(candles: seq<Candle>, t: Trade, b: nat, e: nat)
    requires b <= e < |candles|
  {
    t.entryTime == candles[b].timestamp && t.exitTime == candles[e].timestamp && t.holdingBars == e - b
  }

  /** Trades of one cell follow one another without overlap, and all exits are in time order. */
  ghost predicate InOrder(trades: seq<Trade>) {
    && (forall i, j :: 0 <= i < j < |trades| ==> trades[i].exitTime <= trades[j].exitTime)
    && (forall i, j :: 0 <= i < j < |trades| && trades[i].cellIndex == trades[j].cellIndex ==>
          trades[i].exitTime <= trades[j].entryTime)
  }

  /** The past of a cell that is open now ended before it was opened. */
  ghost predicate PastBeforeOpen(cells: seq<Cell>, trades: seq<Trade>) {
    forall i, k :: 0 <= i < |trades| && 0 <= k < |cells| && cells[k].isOpen && trades[i].cellIndex == k ==>
      cells[k].openedAt.Some? && trades[i].exitTime <= cells[k].openedAt.value
  }

  /** n bars have been seen; now is the time of the last of them. */
  ghost predicate Orderly(cfg: Config, candles: seq<Candle>, n: nat, now: int, s: State)
    requires cfg.Valid() && n <= |candles|
  {
    && CellsOk(cfg, candles, n, s.cells)
    && (forall i :: 0 <= i < |s.trades| ==> TradeOk(cfg, s.trades[i]) && s.trades[i].exitTime <= now)
    && (forall i :: 0 <= i < |s.trades| ==> Dated(candles, n, s.trades[i]))
    && InOrder(s.trades)
    && PastBeforeOpen(s.cells, s.trades)
  }

  /** The trades ts come from distinct cells that the pass closes, in the order of the cells. */
  ghost predicate FromCells(
    ts: seq<Trade>, cfg: Config, pass: Pass, cells: seq<Cell>, bar: Candle, barIndex: int)
  {
    && (forall j :: 0 <= j < |ts| ==> FromCell(ts[j], cfg, pass, cells, bar, barIndex))
    && (forall i, j :: 0 <= i < j < |ts| ==> ts[i].cellIndex < ts[j].cellIndex)
  }

  ghost predicate FromCell(
    t: Trade, cfg: Config, pass: Pass, cells: seq<Cell>, bar: Candle, barIndex: int)
  {
    && 0 <= t.cellIndex < |cells| && Closes(pass, cells[t.cellIndex], bar)
    && t == PassTrade(cfg, pass, cells[t.cellIndex], bar, barIndex)
  }

  lemma {:induction false} PassTradesShape(cfg: Config, pass: Pass, cells: seq<Cell>, bar: Candle, barIndex: int)
    requires forall k :: 0 <= k < |cells| ==> cells[k].index == k
    ensures FromCells(PassTrades(cfg, pass, cells, bar, barIndex), cfg, pass, cells, bar, barIndex)
  {
    if |cells| > 0 {
      var n := |cells| - 1;
      var before := PassTrades(cfg, pass, cells[..n], bar, barIndex);
      PassTradesShape(cfg, pass, cells[..n], bar, barIndex);
      var ts := PassTrades(cfg, pass, cells, bar, barIndex);
      forall j | 0 <= j < |ts|
        ensures FromCell(ts[j], cfg, pass, cells, bar, barIndex)
        ensures if j < |before| then ts[j] == before[j] && ts[j].cellIndex < n else ts[j].cellIndex == n
      {
        if j < |before| {
          assert FromCell(before[j], cfg, pass, cells[..n], bar, barIndex);
        }
      }
    }
  }

  lemma PassTradeOk(cfg: Config, candles: seq<Candle>, pass: Pass, c: Cell, i: nat, barIndex: nat)
    requires cfg.Valid() && TimeOrdered(candles) && barIndex < |candles| && i < cfg.CellCount()
    requires CellOk(cfg, candles, barIndex + 1, i, c) && Closes(pass, c, candles[barIndex])
    requires pass.Force? ==> pass.reason != GridCycle
    ensures var t := PassTrade(cfg, pass, c, candles[barIndex], barIndex);
      TradeOk(cfg, t) && t.exitTime == candles[barIndex].timestamp && c.openedAt == Some(t.entryTime) &&
      Dated(candles, barIndex + 1, t)
  {
    var t := PassTrade(cfg, pass, c, candles[barIndex], barIndex);
    assert OpenedAndClosed(candles, t, c.openedBar, barIndex);
  }

  lemma ClosePhaseOrderly(cfg: Config, candles: seq<Candle>, pass: Pass, s: State, barIndex: nat)
    requires cfg.Valid() && TimeOrdered(candles) && barIndex < |candles|
    requires Orderly(cfg, candles, barIndex + 1, candles[barIndex].timestamp, s)
    requires pass.Force? ==> pass.reason != GridCycle
    ensures Orderly(cfg, candles, barIndex + 1, candles[barIndex].timestamp,
                    ClosePhase(cfg, pass, s, candles[barIndex], barIndex))
  {
    var bar := candles[barIndex];
    var ts := PassTrades(cfg, pass, s.cells, bar, barIndex);
    PassTradesShape(cfg, pass, s.cells, bar, barIndex);
    var after := ClosedCells(pass, s.cells, bar);
    forall j | 0 <= j < |ts|
      ensures TradeOk(cfg, ts[j]) && ts[j].exitTime == bar.timestamp && Dated(candles, barIndex + 1, ts[j])
      ensures s.cells[ts[j].cellIndex].openedAt == Some(ts[j].entryTime)
      ensures !after[ts[j].cellIndex].isOpen
    {
      assert FromCell(ts[j], cfg, pass, s.cells, bar, barIndex);
      PassTradeOk(cfg, candles, pass, s.cells[ts[j].cellIndex], ts[j].cellIndex, barIndex);
    }
    AppendedInOrder(s.cells, s.trades, ts, bar.timestamp);
    forall i, k | 0 <= i < |s.trades + ts| && 0 <= k < |after| && after[k].isOpen && (s.trades + ts)[i].cellIndex == k
      ensures after[k].openedAt.Some? && (s.trades + ts)[i].exitTime <= after[k].openedAt.value
    {
      assert after[k] == s.cells[k];
    }
    forall k | 0 <= k < |after| ensures CellOk(cfg, candles, barIndex + 1, k, after[k]) {
      assert CellOk(cfg, candles, barIndex + 1, k, s.cells[k]);
    }
  }

  lemma AppendedInOrder(cells: seq<Cell>, trades: seq<Trade>, ts: seq<Trade>, now: int)
    requires InOrder(trades) && PastBeforeOpen(cells, trades)
    requires forall i :: 0 <= i < |trades| ==> trades[i].exitTime <= now
    requires forall j :: 0 <= j < |ts| ==>
      && 0 <= ts[j].cellIndex < |cells| && cells[ts[j].cellIndex].isOpen && ts[j].exitTime == now
      && cells[ts[j].cellIndex].openedAt == Some(ts[j].entryTime)
    requires forall i, j :: 0 <= i < j < |ts| ==> ts[i].cellIndex < ts[j].cellIndex
    ensures InOrder(trades + ts)
  {
  }

  lemma OpenPhaseOrderly(cfg: Config, candles: seq<Candle>, s: State, barIndex: nat)
    requires cfg.Valid() && barIndex < |candles|
    requires Orderly(cfg, candles, barIndex + 1, candles[barIndex].timestamp, s)
    ensures Orderly(cfg, candles, barIndex + 1, candles[barIndex].timestamp,
                    OpenPhase(cfg, s, candles[barIndex], barIndex))
  {
    var bar := candles[barIndex];
    var after := OpenedCells(cfg, s.cells, bar, barIndex);
    forall k | 0 <= k < |after|
      ensures CellOk(cfg, candles, barIndex + 1, k, after[k])
    {
      assert CellOk(cfg, candles, barIndex + 1, k, s.cells[k]);
    }
  }

  lemma NextBarOrderly(cfg: Config, candles: seq<Candle>, s: State, barIndex: nat, now: int)
    requires cfg.Valid() && barIndex < |candles| && Orderly(cfg, candles, barIndex, now, s)
    requires now <= candles[barIndex].timestamp
    ensures Orderly(cfg, candles, barIndex + 1, candles[barIndex].timestamp, s)
  {
    forall k | 0 <= k < |s.cells| ensures CellOk(cfg, candles, barIndex + 1, k, s.cells[k]) {
      assert CellOk(cfg, candles, barIndex, k, s.cells[k]);
    }
    forall i | 0 <= i < |s.trades| ensures Dated(candles, barIndex + 1, s.trades[i]) {
      var b: nat, e: nat :| b <= e < barIndex && OpenedAndClosed(candles, s.trades[i], b, e);
    }
  }

  lemma BeforeExitsOrderly(cfg: Config, candles: seq<Candle>, s: State, barIndex: nat)
    requires cfg.Valid() && TimeOrdered(candles) && barIndex < |candles|
    requires Orderly(cfg, candles, barIndex + 1, candles[barIndex].timestamp, s)
    ensures Orderly(cfg, candles, barIndex + 1, candles[barIndex].timestamp,
                    BeforeExits(cfg, s, candles[barIndex], barIndex))
  {
    hide PassTrades, ClosedCells, OpenedCells;
    var bar := candles[barIndex];
    if cfg.IsLong() == (bar.close >= bar.open) {
      ClosePhaseOrderly(cfg, candles, Cycle, s, barIndex);
      OpenPhaseOrderly(cfg, candles, ClosePhase(cfg, Cycle, s, bar, barIndex), barIndex);
    } else {
      OpenPhaseOrderly(cfg, candles, s, barIndex);
      ClosePhaseOrderly(cfg, candles, Cycle, OpenPhase(cfg, s, bar, barIndex), barIndex);
    }
  }

  lemma AfterExitsOrderly(cfg: Config, candles: seq<Candle>, t: State, exit: Option<Pass>, barIndex: nat)
    requires cfg.Valid() && TimeOrdered(candles) && barIndex < |candles|
    requires Orderly(cfg, candles, barIndex + 1, candles[barIndex].timestamp, t)
    requires exit.Some? ==> exit.value.Force? && exit.value.reason in GridLedger.FORCED_REASONS
    ensures Orderly(cfg, candles, barIndex + 1, candles[barIndex].timestamp,
                    AfterExits(cfg, t, exit, candles[barIndex], barIndex).state)
  {
    if exit.Some? {
      ClosePhaseOrderly(cfg, candles, exit.value, t, barIndex);
    }
  }

  function LastTime(candles: seq<Candle>, n: nat): int
    requires 0 < n <= |candles|
  {
    candles[n - 1].timestamp
  }

  lemma InitialOrderly(cfg: Config, candles: seq<Candle>, now: int)
    requires cfg.Valid()
    ensures Orderly(cfg, candles, 0, now, InitialState(cfg))
  {
  }

  lemma {:induction false} AfterOrderly(cfg: Config, candles: seq<Candle>, n: nat)
    requires cfg.Valid() && TimeOrdered(candles) && 0 < n <= |candles|
    ensures Orderly(cfg, candles, n, LastTime(candles, n), After(cfg, candles, n).state)
  {
    hide BarStep;
    var now := LastTime(candles, n);
    if n == 1 {
      InitialOrderly(cfg, candles, now);
      BarOrderly(cfg, candles, InitialState(cfg), 0, now);
    } else {
      AfterOrderly(cfg, candles, n - 1);
      var o := After(cfg, candles, n - 1);
      if o.Running? {
        BarOrderly(cfg, candles, o.state, n - 1, LastTime(candles, n - 1));
      } else {
        NextBarOrderly(cfg, candles, o.state, n - 1, LastTime(candles, n - 1));
      }
    }
  }

  lemma BarOrderly(cfg: Config, candles: seq<Candle>, s: State, barIndex: nat, now: int)
    requires cfg.Valid() && TimeOrdered(candles) && barIndex < |candles|
    requires Orderly(cfg, candles, barIndex, now, s) && now <= candles[barIndex].timestamp
    ensures Orderly(cfg, candles, barIndex + 1, candles[barIndex].timestamp,
                    BarStep(cfg, candles[0].timestamp, s, candles[barIndex], barIndex).state)
  {
    hide BeforeExits, ForcedExit, AfterExits;
    var bar := candles[barIndex];
    NextBarOrderly(cfg, candles, s, barIndex, now);
    BeforeExitsOrderly(cfg, candles, s, barIndex);
    var t := BeforeExits(cfg, s, bar, barIndex);
    GridLedger.ForcedExitForces(cfg, candles[0].timestamp, t.cells, bar);
    AfterExitsOrderly(cfg, candles, t, ForcedExit(cfg, candles[0].timestamp, t.cells, bar), barIndex);
  }

  /** Over a whole run every trade is one full cell at its own levels, trades of one cell do not
      overlap, exits are in time order, and the cells keep their levels. */
  lemma TradesOfARun(cfg: Config, candles: seq<Candle>)
    requires cfg.Valid() && TimeOrdered(candles) && |candles| >= 2
    ensures var r := RunResultOf(cfg, candles);
      && (forall i :: 0 <= i < |r.trades| ==> TradeOk(cfg, r.trades[i]) && Dated(candles, |candles|, r.trades[i]))
      && InOrder(r.trades)
  {
    hide After;
    var n := |candles|;
    AfterOrderly(cfg, candles, n);
    var o := After(cfg, candles, n);
    if o.Running? {
      ClosePhaseOrderly(cfg, candles, Force(candles[n - 1].close, BacktestEnd), o.state, n - 1);
    }
  }

  /** The grid never looks ahead: what it has done by bar n depends on the first n bars only. */
  lemma {:induction false} GridDoesNotLookAhead(cfg: Config, a: seq<Candle>, b: seq<Candle>, n: nat)
    requires cfg.Valid() && n <= |a| && n <= |b| && a[..n] == b[..n]
    ensures After(cfg, a, n) == After(cfg, b, n)
  {
    hide BarStep;
    if n > 0 {
      assert a[n - 1] == a[..n][n - 1] && b[n - 1] == b[..n][n - 1];
      assert a[0] == a[..n][0] && b[0] == b[..n][0];
      assert a[..n - 1] == a[..n][..n - 1] && b[..n - 1] == b[..n][..n - 1];
      GridDoesNotLookAhead(cfg, a, b, n - 1);
    }
  }
}
