/** Money and fill conservation over whole grid runs. */
module GridLedger {
  import opened Common
  import opened GridModel

  // ------------------------------------------------------------------
  // Sums and counts over one pass
  // ------------------------------------------------------------------

  /** Fees of the trades that closed for one reason. */
  function FeesFor(trades: seq<Trade>, reason: Reason): real {
    if |trades| == 0 then 0.0
    else
      FeesFor(trades[..|trades| - 1], reason) +
      if trades[|trades| - 1].reason == reason then trades[|trades| - 1].fees else 0.0
  }

  lemma {:induction false} SumsAppend(a: seq<Trade>, b: seq<Trade>)
    ensures SumNet(a + b) == SumNet(a) + SumNet(b)
    ensures SumFees(a + b) == SumFees(a) + SumFees(b)
    ensures SumGross(a + b) == SumGross(a) + SumGross(b)
    ensures CycleCount(a + b) == CycleCount(a) + CycleCount(b)
    ensures forall r :: FeesFor(a + b, r) == FeesFor(a, r) + FeesFor(b, r)
  {
    if |b| == 0 {
      assert a + b == a;
    } else {
      var n := |b| - 1;
      assert (a + b)[..|a + b| - 1] == a + b[..n];
      SumsAppend(a, b[..n]);
    }
  }

  lemma SumsOneMore(a: seq<Trade>, t: Trade)
    ensures var b := a + [t];
      && SumNet(b) == SumNet(a) + t.netPnl && SumFees(b) == SumFees(a) + t.fees
      && SumGross(b) == SumGross(a) + t.grossPnl
      && CycleCount(b) == CycleCount(a) + if t.reason == GridCycle then 1 else 0
  {
    assert (a + [t])[..|a|] == a;
  }

  lemma SumsOfNone()
    ensures SumNet([]) == SumFees([]) == SumGross([]) == 0.0 && CycleCount([]) == 0
  {
  }

  lemma {:induction false} FeesForAll(trades: seq<Trade>, reason: Reason)
    requires forall t :: t in trades ==> t.reason == reason
    ensures FeesFor(trades, reason) == SumFees(trades)
  {
    if |trades| > 0 {
      FeesForAll(trades[..|trades| - 1], reason);
    }
  }

  lemma {:induction false} FeesForNone(trades: seq<Trade>, reason: Reason)
    requires forall t :: t in trades ==> t.reason != reason
    ensures FeesFor(trades, reason) == 0.0
  {
    if |trades| > 0 {
      FeesForNone(trades[..|trades| - 1], reason);
    }
  }

  /** What the sums over a pass need to know of one of its trades. */
  lemma PassTradeFields(cfg: Config, pass: Pass, c: Cell, bar: Candle, barIndex: int)
    ensures var t := PassTrade(cfg, pass, c, bar, barIndex);
      && t.reason == CloseReason(pass)
      && t.grossPnl == Gain(cfg, c, ClosePrice(cfg, pass, c)) && t.netPnl == t.grossPnl - t.fees
      && t.entryPrice == c.entryPrice && t.quantity == c.quantity
  {
    hide Gain, ClosePrice;
  }

  /** A pass turns each cell it closes into exactly one trade. */
  lemma {:induction false} PassConserves(cfg: Config, pass: Pass, cells: seq<Cell>, bar: Candle, barIndex: int)
    ensures var ts := PassTrades(cfg, pass, cells, bar, barIndex);
      && OpenCount(cells) == OpenCount(ClosedCells(pass, cells, bar)) + |ts|
      && (forall t :: t in ts ==> t.reason == CloseReason(pass))
      && CycleCount(ts) == (if CloseReason(pass) == GridCycle then |ts| else 0)
      && (pass.Force? ==> OpenCount(ClosedCells(pass, cells, bar)) == 0)
  {
    hide PassTrade, CycleCount;
    SumsOfNone();
    if |cells| > 0 {
      var n := |cells| - 1;
      var before := PassTrades(cfg, pass, cells[..n], bar, barIndex);
      PassConserves(cfg, pass, cells[..n], bar, barIndex);
      PassTradeFields(cfg, pass, cells[n], bar, barIndex);
      SumsOneMore(before, PassTrade(cfg, pass, cells[n], bar, barIndex));
      assert ClosedCells(pass, cells, bar)[..n] == ClosedCells(pass, cells[..n], bar);
    }
  }

  lemma {:induction false} OpeningCounts(cfg: Config, cells: seq<Cell>, bar: Candle, barIndex: int)
    ensures OpenCount(OpenedCells(cfg, cells, bar, barIndex)) == OpenCount(cells) + OpenFills(cfg, cells, bar)
  {
    if |cells| > 0 {
      var n := |cells| - 1;
      OpeningCounts(cfg, cells[..n], bar, barIndex);
      assert OpenedCells(cfg, cells, bar, barIndex)[..n] == OpenedCells(cfg, cells[..n], bar, barIndex);
    }
  }

  /** Closing everything at the mark realises the mark-to-market value less the fees. */
  lemma {:induction false} ForceCloseRealisesMark(
    cfg: Config, price: real, reason: Reason, cells: seq<Cell>, bar: Candle, barIndex: int)
    ensures var ts := PassTrades(cfg, Force(price, reason), cells, bar, barIndex);
      SumNet(ts) == Unrealized(cfg, cells, price) - SumFees(ts) && SumGross(ts) == Unrealized(cfg, cells, price)
  {
    hide PassTrade, Gain, SumNet, SumFees, SumGross;
    SumsOfNone();
    if |cells| > 0 {
      var n := |cells| - 1;
      var pass := Force(price, reason);
      ForceCloseRealisesMark(cfg, price, reason, cells[..n], bar, barIndex);
      PassTradeFields(cfg, pass, cells[n], bar, barIndex);
      SumsOneMore(PassTrades(cfg, pass, cells[..n], bar, barIndex), PassTrade(cfg, pass, cells[n], bar, barIndex));
    }
  }

  lemma {:induction false} NothingOpenNothingMarked(cfg: Config, cells: seq<Cell>, mark: real)
    requires OpenCount(cells) == 0
    ensures Unrealized(cfg, cells, mark) == 0.0
    ensures forall i :: 0 <= i < |cells| ==> !cells[i].isOpen
  {
    if |cells| > 0 {
      NothingOpenNothingMarked(cfg, cells[..|cells| - 1], mark);
    }
  }

  // ------------------------------------------------------------------
  // The invariant
  // ------------------------------------------------------------------

  /** Realised P&L is the net P&L of the trades less funding, and every fill is an opening or
      a cycle close, where an opening is either a trade by now or an open cell. */
  ghost predicate Balanced(s: State) {
    && s.realized == SumNet(s.trades) - s.funding
    && s.fills == |s.trades| + OpenCount(s.cells) + CycleCount(s.trades)
    && forall t :: t in s.trades ==> t.reason != BacktestEnd
  }

  lemma ClosePhaseBalanced(cfg: Config, pass: Pass, s: State, bar: Candle, barIndex: int)
    requires Balanced(s) && (pass.Force? ==> pass.reason != GridCycle && pass.reason != BacktestEnd)
    ensures Balanced(ClosePhase(cfg, pass, s, bar, barIndex))
  {
    hide PassTrades, ClosedCells;
    PassConserves(cfg, pass, s.cells, bar, barIndex);
    SumsAppend(s.trades, PassTrades(cfg, pass, s.cells, bar, barIndex));
  }

  lemma BeforeExitsBalanced(cfg: Config, s: State, bar: Candle, barIndex: int)
    requires Balanced(s)
    ensures Balanced(BeforeExits(cfg, s, bar, barIndex))
  {
    hide PassTrades, OpenFills, OpenedCells, ClosedCells, OpenNotionalAt;
    OpeningCounts(cfg, s.cells, bar, barIndex);
    var closed := ClosePhase(cfg, Cycle, s, bar, barIndex);
    OpeningCounts(cfg, closed.cells, bar, barIndex);
    ClosePhaseBalanced(cfg, Cycle, s, bar, barIndex);
    ClosePhaseBalanced(cfg, Cycle, OpenPhase(cfg, s, bar, barIndex), bar, barIndex);
  }

  const FORCED_REASONS := {Liquidation, TakeProfit, StopLoss, MaxHoldingTime, RangeBreakout}

  lemma ForcedExitForces(cfg: Config, start: int, cells: seq<Cell>, bar: Candle)
    requires cfg.Valid()
    ensures var e := ForcedExit(cfg, start, cells, bar);
      e.Some? ==> e.value.Force? && e.value.reason in FORCED_REASONS
  {
  }

  // ------------------------------------------------------------------
  // The equity curve
  // ------------------------------------------------------------------

  /** Ledger value of a state: capital plus net P&L of its trades less the funding paid. */
  function Ledger(cfg: Config, s: State): real {
    cfg.capital + SumNet(s.trades) - s.funding
  }

  /** The equity point that shows a state's ledger, marked at a bar's close. */
  function LedgerPoint(cfg: Config, s: State, bar: Candle): EquityPoint {
    var u := Unrealized(cfg, s.cells, bar.close);
    EquityPoint(bar.timestamp, Ledger(cfg, s) + u, Ledger(cfg, s), u)
  }

  lemma RecordIsLedger(cfg: Config, s: State, bar: Candle)
    requires Balanced(s)
    ensures Record(cfg, s, bar) == s.(curve := s.curve + [LedgerPoint(cfg, s, bar)])
  {
  }

  lemma BeforeExitsExtends(cfg: Config, s: State, bar: Candle, barIndex: int)
    ensures var t := BeforeExits(cfg, s, bar, barIndex); s.trades <= t.trades && t.curve == s.curve
  {
  }

  lemma AfterExitsRecords(cfg: Config, t: State, exit: Option<Pass>, bar: Candle, barIndex: int)
    requires Balanced(t)
    requires exit.Some? ==> exit.value.Force? && exit.value.reason in FORCED_REASONS
    ensures var o := AfterExits(cfg, t, exit, bar, barIndex);
      && Balanced(o.state)
      && t.trades <= o.state.trades
      && o.state.curve == t.curve + [LedgerPoint(cfg, o.state, bar)]
      && (o.Stopped? ==> o.reason in FORCED_REASONS && OpenCount(o.state.cells) == 0
                         && Unrealized(cfg, o.state.cells, bar.close) == 0.0)
  {
    hide PassTrades, ClosedCells, Unrealized;
    match exit {
      case Some(pass) =>
        var closed := ClosePhase(cfg, pass, t, bar, barIndex);
        ClosePhaseBalanced(cfg, pass, t, bar, barIndex);
        RecordIsLedger(cfg, closed, bar);
        PassConserves(cfg, pass, t.cells, bar, barIndex);
        NothingOpenNothingMarked(cfg, closed.cells, bar.close);
      case None =>
        RecordIsLedger(cfg, t, bar);
    }
  }

  lemma BarStepRecords(cfg: Config, start: int, s: State, bar: Candle, barIndex: int)
    requires cfg.Valid() && Balanced(s)
    ensures var o := BarStep(cfg, start, s, bar, barIndex);
      && Balanced(o.state)
      && s.trades <= o.state.trades
      && o.state.curve == s.curve + [LedgerPoint(cfg, o.state, bar)]
      && (o.Stopped? ==> o.reason in FORCED_REASONS && OpenCount(o.state.cells) == 0
                         && Unrealized(cfg, o.state.cells, bar.close) == 0.0)
  {
    hide BeforeExits, ForcedExit, AfterExits;
    var t := BeforeExits(cfg, s, bar, barIndex);
    BeforeExitsBalanced(cfg, s, bar, barIndex);
    BeforeExitsExtends(cfg, s, bar, barIndex);
    ForcedExitForces(cfg, start, t.cells, bar);
    AfterExitsRecords(cfg, t, ForcedExit(cfg, start, t.cells, bar), bar, barIndex);
  }

  lemma {:induction false} InitialCellsClosed(cfg: Config, n: nat)
    requires cfg.Valid() && n <= cfg.CellCount()
    ensures OpenCount(InitialCells(cfg, n)) == 0
  {
    if n > 0 {
      InitialCellsClosed(cfg, n - 1);
      assert InitialCells(cfg, n)[..n - 1] == InitialCells(cfg, n - 1);
    }
  }

  lemma {:induction false} AfterBalanced(cfg: Config, candles: seq<Candle>, n: nat)
    requires cfg.Valid() && n <= |candles|
    ensures Balanced(After(cfg, candles, n).state)
  {
    hide BarStep;
    if n == 0 {
      InitialCellsClosed(cfg, cfg.CellCount());
    } else {
      AfterBalanced(cfg, candles, n - 1);
      match After(cfg, candles, n - 1) {
        case Stopped(_, _) =>
        case Running(s) => BarStepRecords(cfg, candles[0].timestamp, s, candles[n - 1], n - 1);
      }
    }
  }

  /** One point per executed bar; a loop that still runs has executed all of them. */
  lemma {:induction false} CurveShape(cfg: Config, candles: seq<Candle>, n: nat)
    requires cfg.Valid() && n <= |candles|
    ensures var o := After(cfg, candles, n);
      && |o.state.curve| <= n && (o.Running? ==> |o.state.curve| == n)
      && (o.Stopped? ==> OpenCount(o.state.cells) == 0 && o == After(cfg, candles, |o.state.curve|)
                         && |o.state.curve| > 0
                         && var p := o.state.curve[|o.state.curve| - 1];
                            p.cash == Ledger(cfg, o.state) && p.openPositionsValue == 0.0)
      && forall k :: 0 <= k <= n && After(cfg, candles, k).Running? ==>
           k <= |o.state.curve| && After(cfg, candles, k).state.trades <= o.state.trades
  {
    hide BarStep;
    if n > 0 {
      CurveShape(cfg, candles, n - 1);
      AfterBalanced(cfg, candles, n - 1);
      match After(cfg, candles, n - 1) {
        case Stopped(_, _) =>
        case Running(s) => BarStepRecords(cfg, candles[0].timestamp, s, candles[n - 1], n - 1);
      }
    }
  }

  /** Point j of the curve is the ledger right after bar j, marked at that bar's close. */
  ghost predicate PointIsLedger(cfg: Config, candles: seq<Candle>, curve: seq<EquityPoint>, j: nat)
    requires cfg.Valid() && j < |curve| && j < |candles|
  {
    curve[j] == LedgerPoint(cfg, After(cfg, candles, j + 1).state, candles[j])
  }

  /** At every recorded bar cash is the ledger of the trades and funding so far, and the portfolio
      value adds the mark-to-market of the cells open at that bar. */
  lemma {:induction false} CurveIsLedger(cfg: Config, candles: seq<Candle>, n: nat)
    requires cfg.Valid() && n <= |candles|
    ensures var s := After(cfg, candles, n).state;
      |s.curve| <= n && forall j :: 0 <= j < |s.curve| ==> PointIsLedger(cfg, candles, s.curve, j)
  {
    hide BarStep;
    CurveShape(cfg, candles, n);
    if n > 0 {
      CurveIsLedger(cfg, candles, n - 1);
      AfterBalanced(cfg, candles, n - 1);
      CurveShape(cfg, candles, n - 1);
      var o := After(cfg, candles, n - 1);
      if o.Running? {
        BarStepRecords(cfg, candles[0].timestamp, o.state, candles[n - 1], n - 1);
        AppendedPoint(cfg, candles, o.state.curve, n);
      }
    }
  }

  lemma AppendedPoint(cfg: Config, candles: seq<Candle>, curve: seq<EquityPoint>, n: nat)
    requires cfg.Valid() && 0 < n <= |candles| && |curve| == n - 1
    requires forall j :: 0 <= j < |curve| ==> PointIsLedger(cfg, candles, curve, j)
    ensures var longer := curve + [LedgerPoint(cfg, After(cfg, candles, n).state, candles[n - 1])];
      forall j :: 0 <= j < n ==> PointIsLedger(cfg, candles, longer, j)
  {
    hide BarStep, After;
    var longer := curve + [LedgerPoint(cfg, After(cfg, candles, n).state, candles[n - 1])];
    forall j | 0 <= j < n ensures PointIsLedger(cfg, candles, longer, j) {
      if j < n - 1 {
        assert PointIsLedger(cfg, candles, curve, j);
      }
    }
  }

  // ------------------------------------------------------------------
  // Whole-run theorems
  // ------------------------------------------------------------------

  /** The last point exceeds the final ledger by exactly the fees of the cells that the end of the
      data closed. After an early exit there are none, so the last point is the final ledger. */
  lemma LastPointAgainstFinalLedger(cfg: Config, candles: seq<Candle>)
    requires cfg.Valid() && |candles| >= 2
    ensures var r := RunResultOf(cfg, candles);
      && |r.curve| > 0
      && var last := r.curve[|r.curve| - 1];
         var ledger := cfg.capital + SumNet(r.trades) - r.funding;
      && last.portfolioValue == ledger + FeesFor(r.trades, BacktestEnd)
      && (r.reason != BacktestEnd ==>
            FeesFor(r.trades, BacktestEnd) == 0.0 && last.cash == ledger && last.openPositionsValue == 0.0)
      && (r.reason == BacktestEnd ==> |r.curve| == |candles|)
  {
    hide After;
    var n := |candles|;
    var o := After(cfg, candles, n);
    AfterBalanced(cfg, candles, n);
    CurveIsLedger(cfg, candles, n);
    CurveShape(cfg, candles, n);
    StopReasons(cfg, candles, n);
    FeesForNone(o.state.trades, BacktestEnd);
    var k := |o.state.curve|;
    if o.Stopped? {
      assert PointIsLedger(cfg, candles, o.state.curve, k - 1);
      NothingOpenNothingMarked(cfg, o.state.cells, candles[k - 1].close);
    } else {
      assert n > 0 && k == n;
      assert PointIsLedger(cfg, candles, o.state.curve, n - 1);
      FinishedLedger(cfg, o.state, candles);
    }
  }

  /** The end of the data closes every open cell at the last close and pays taker fees for it. */
  lemma FinishedLedger(cfg: Config, s: State, candles: seq<Candle>)
    requires Balanced(s) && |candles| > 0
    ensures var end := Finish(cfg, s, candles);
      && Ledger(cfg, end) + FeesFor(end.trades, BacktestEnd)
           == Ledger(cfg, s) + Unrealized(cfg, s.cells, candles[|candles| - 1].close)
      && end.fills == |end.trades| + CycleCount(end.trades)
      && OpenCount(end.cells) == 0
  {
    hide PassTrades, ClosedCells, Unrealized, CycleCount, FeesFor, SumFees, SumNet, OpenCount;
    var last := candles[|candles| - 1];
    var pass := Force(last.close, BacktestEnd);
    var ts := PassTrades(cfg, pass, s.cells, last, |candles| - 1);
    PassConserves(cfg, pass, s.cells, last, |candles| - 1);
    ForceCloseRealisesMark(cfg, last.close, BacktestEnd, s.cells, last, |candles| - 1);
    SumsAppend(s.trades, ts);
    FeesForNone(s.trades, BacktestEnd);
    FeesForAll(ts, BacktestEnd);
  }

  /** The loop never breaks with a reason that belongs to a cycle or to the end of the data. */
  lemma {:induction false} StopReasons(cfg: Config, candles: seq<Candle>, n: nat)
    requires cfg.Valid() && n <= |candles|
    ensures var o := After(cfg, candles, n);
      o.Stopped? ==> o.reason in FORCED_REASONS
  {
    hide BarStep;
    if n > 0 {
      StopReasons(cfg, candles, n - 1);
      AfterBalanced(cfg, candles, n - 1);
      var o := After(cfg, candles, n - 1);
      if o.Running? {
        BarStepRecords(cfg, candles[0].timestamp, o.state, candles[n - 1], n - 1);
      }
    }
  }

  /** Fewer than two bars are reported as insufficient data, with no point and no trade. Any other run has a
      point for every bar until it breaks, for a forced reason, or for every bar there is. */
  lemma ReportedReason(cfg: Config, candles: seq<Candle>)
    requires cfg.Valid()
    ensures var r := RunResultOf(cfg, candles);
      && (r.reason == InsufficientData <==> |candles| < 2) && (r.curve == [] <==> |candles| < 2)
      && (|candles| < 2 ==> r.trades == [])
      && (|candles| >= 2 ==> r.reason in FORCED_REASONS || (r.reason == BacktestEnd && |r.curve| == |candles|))
  {
    hide After, PassTrades, ClosedCells, SumNet;
    if |candles| >= 2 {
      CurveShape(cfg, candles, |candles|);
      StopReasons(cfg, candles, |candles|);
    }
  }

  /** On every exit path all cells end closed, and the fills are exactly one opening per trade
      plus one closing per cycle trade. */
  lemma FillConservation(cfg: Config, candles: seq<Candle>)
    requires cfg.Valid() && |candles| > 0
    ensures var s := FinalState(cfg, candles);
      && s.fills == |s.trades| + CycleCount(s.trades)
      && forall i :: 0 <= i < |s.cells| ==> !s.cells[i].isOpen
  {
    hide After, Finish;
    var o := After(cfg, candles, |candles|);
    AfterBalanced(cfg, candles, |candles|);
    CurveShape(cfg, candles, |candles|);
    FinishedLedger(cfg, o.state, candles);
    NothingOpenNothingMarked(cfg, FinalState(cfg, candles).cells, 0.0);
  }
}
