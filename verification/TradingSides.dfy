/** On which side trades are: long exactly for a signal to go long, short for every other signal. */
module TradingSides {
  import opened Common
  import opened TradingModel
  import opened TradingCurve
  import Indicators

  /** A position or trade follows the signal of bar b: it was filled at the time of the bar after it, and is
      long if and only if that signal's direction is long. */
  ghost predicate FollowsSignal(cfg: Config, candles: seq<Candle>, isLong: bool, entryTime: int, b: nat)
    requires Priced(cfg, candles)
  {
    && WARMUP_BARS <= b && b + 1 < |candles| && entryTime == candles[b + 1].timestamp
    && var signal := AtEntry(cfg, candles, b).1;
       signal.Some? && (isLong <==> signal.value.direction == Long)
  }

  ghost predicate FollowsSome(cfg: Config, candles: seq<Candle>, isLong: bool, entryTime: int)
    requires Priced(cfg, candles)
  {
    exists b: nat :: FollowsSignal(cfg, candles, isLong, entryTime, b)
  }

  ghost predicate AllFollow(cfg: Config, candles: seq<Candle>, s: State)
    requires Priced(cfg, candles)
  {
    && (s.position.Some? ==> FollowsSome(cfg, candles, s.position.value.isLong, s.position.value.entryTime))
    && forall t :: t in s.trades ==> FollowsSome(cfg, candles, t.isLong, t.entryTime)
  }

  lemma ExitFollows(cfg: Config, s: State, regime: Regime, candles: seq<Candle>, i: nat)
    requires Priced(cfg, candles) && i < |candles| && AllFollow(cfg, candles, s)
    ensures AllFollow(cfg, candles, ExitPhase(cfg, s, regime, candles, i))
  {
    hide ExitReason, FollowsSome, ExitPrice;
  }

  lemma EntryFollows(cfg: Config, candles: seq<Candle>, i: nat)
    requires Priced(cfg, candles) && WARMUP_BARS <= i < |candles|
    requires AllFollow(cfg, candles, AtEntry(cfg, candles, i).0)
    ensures var (x, signal) := AtEntry(cfg, candles, i);
      AllFollow(cfg, candles, EnteredWith(cfg, x, signal, Next(candles, i), i))
  {
    hide AtEntry, Affordable, EntryPrice, Notional, FollowsSome;
    var (x, signal) := AtEntry(cfg, candles, i);
    var t := EnteredWith(cfg, x, signal, Next(candles, i), i);
    if t != x {
      var p := t.position.value;
      assert FollowsSignal(cfg, candles, p.isLong, p.entryTime, i);
      SomeFollows(cfg, candles, p.isLong, p.entryTime, i);
    }
  }

  lemma SomeFollows(cfg: Config, candles: seq<Candle>, isLong: bool, entryTime: int, b: nat)
    requires Priced(cfg, candles) && FollowsSignal(cfg, candles, isLong, entryTime, b)
    ensures FollowsSome(cfg, candles, isLong, entryTime)
  {
  }

  lemma {:induction false} BeforeFollows(cfg: Config, candles: seq<Candle>, n: nat)
    requires Priced(cfg, candles) && n <= |candles|
    ensures AllFollow(cfg, candles, Before(cfg, candles, n))
  {
    hide BarStep, ExitPhase, EnteredWith, Indicators.Precompute, DetectRegime, GenerateSignal, FollowsSome, FillOf;
    if n > WARMUP_BARS {
      var i := n - 1;
      BeforeFollows(cfg, candles, i);
      HasFeatures(cfg, candles, i);
      var f := Indicators.Precompute(candles, cfg.sqrt)[i].value;
      ExitFollows(cfg, Before(cfg, candles, i), DetectRegime(f), candles, i);
      EntryFollows(cfg, candles, i);
      BeforeByFill(cfg, candles, i);
    }
  }

  /** Every trade of a run was filled at the bar after its signal, and is short if and only if that signal
      does not say long. A signal to close or to stay neutral opens a short. */
  lemma TradesFollowSignals(cfg: Config, candles: seq<Candle>)
    requires Priced(cfg, candles)
    ensures forall t :: t in RunOf(cfg, candles).trades ==>
      exists b: nat :: FollowsSignal(cfg, candles, t.isLong, t.entryTime, b)
  {
    hide Before, FollowsSignal, ExitPrice;
    BeforeFollows(cfg, candles, |candles|);
    var s := Before(cfg, candles, |candles|);
    forall t | t in RunOf(cfg, candles).trades ensures FollowsSome(cfg, candles, t.isLong, t.entryTime) {
      assert t in s.trades || (s.position.Some? && t.isLong == s.position.value.isLong
                               && t.entryTime == s.position.value.entryTime);
    }
  }

  /** A position that a bar finds open is still open after it or has become a trade. */
  lemma OpenOrTraded(cfg: Config, candles: seq<Candle>, i: nat)
    requires Priced(cfg, candles) && WARMUP_BARS <= i < |candles| && Before(cfg, candles, i).position.Some?
    ensures var s := Before(cfg, candles, i + 1); s.position.Some? || |s.trades| > 0
  {
    hide Before, AtEntry, Affordable, EntryPrice, Notional, ExitReason, UpdateExcursions, TradeOf, ExitPrice,
         Indicators.Precompute, DetectRegime, GenerateSignal;
    HasFeatures(cfg, candles, i);
    BeforeByFill(cfg, candles, i);
    var f := Indicators.Precompute(candles, cfg.sqrt)[i].value;
    AtEntryIs(cfg, candles, i);
    assert var x := ExitPhase(cfg, Before(cfg, candles, i), DetectRegime(f), candles, i);
      x.position.Some? || |x.trades| > 0;
  }

  lemma AtEntryIs(cfg: Config, candles: seq<Candle>, i: nat)
    requires Priced(cfg, candles) && WARMUP_BARS <= i < |candles| && Indicators.Precompute(candles, cfg.sqrt)[i].Some?
    ensures var f := Indicators.Precompute(candles, cfg.sqrt)[i].value;
      AtEntry(cfg, candles, i) == (ExitPhase(cfg, Before(cfg, candles, i), DetectRegime(f), candles, i),
                                   GenerateSignal(cfg, f, DetectRegime(f)))
  {
    hide Before, ExitPhase, Indicators.Precompute, DetectRegime, GenerateSignal;
  }

  /** A run without signals to go long has no long trade. */
  lemma NoLongSignalNoLongTrade(cfg: Config, candles: seq<Candle>)
    requires Priced(cfg, candles)
    requires forall f, regime :: GenerateSignal(cfg, f, regime).Some? ==>
      GenerateSignal(cfg, f, regime).value.direction != Long
    ensures forall t :: t in RunOf(cfg, candles).trades ==> !t.isLong
  {
    hide Before, AtEntry, GenerateSignal, RunOf, Indicators.Precompute;
    TradesFollowSignals(cfg, candles);
    forall t | t in RunOf(cfg, candles).trades ensures !t.isLong {
      var b: nat :| FollowsSignal(cfg, candles, t.isLong, t.entryTime, b);
      HasFeatures(cfg, candles, b);
      AtEntryIs(cfg, candles, b);
    }
  }

  lemma RunCloses(cfg: Config, candles: seq<Candle>)
    requires Priced(cfg, candles) && |candles| > 0
    requires var s := Before(cfg, candles, |candles|); s.position.Some? || |s.trades| > 0
    ensures |RunOf(cfg, candles).trades| > 0
  {
    hide Before, TradeOf, ExitPrice;
  }

  /** A run whose only strategy signals at every bar that a position should be closed: it goes short. */
  lemma CloseSignalGoesShort() returns (cfg: Config, candles: seq<Candle>)
    ensures Priced(cfg, candles)
    ensures forall f, regime :: GenerateSignal(cfg, f, regime) == Some(Always(CloseSignal))
    ensures |RunOf(cfg, candles).trades| > 0 && forall t :: t in RunOf(cfg, candles).trades ==> !t.isLong
  {
    hide Before, GenerateSignal, RunOf;
    cfg := Steady(CloseSignal);
    candles := seq(WARMUP_BARS + 2, i => Candle("S", 60 * i, 100.0, 100.0, 100.0, 100.0, 1.0));
    SteadyEntry(CloseSignal, candles);
    OpenOrTraded(cfg, candles, WARMUP_BARS + 1);
    RunCloses(cfg, candles);
    forall f, regime ensures GenerateSignal(cfg, f, regime) == Some(Always(CloseSignal)) {
      SteadySignal(CloseSignal, f, regime);
    }
    NoLongSignalNoLongTrade(cfg, candles);
  }
}
