/** The indicators a strategy sees, computed over whole arrays, and the proof that computing them
    once over a full series gives, at every bar, what computing them on the history up to that bar
    gives. A value that is not a finite number is None. */
module Indicators {
  import opened Common

  type Series = seq<Option<real>>

  // ------------------------------------------------------------------
  // Building blocks
  // ------------------------------------------------------------------

  function Nans(n: nat): (r: Series)
    ensures |r| == n
  {
    seq(n, _ => None)
  }

  function Finite(values: seq<real>): (r: Series)
    ensures |r| == |values|
  {
    seq(|values|, i requires 0 <= i < |values| => Some(values[i]))
  }

  function Divide(x: real, y: real): Option<real> {
    if y == 0.0 then None else Some(x / y)
  }

  function Mean(values: seq<real>): real
    requires |values| > 0
  {
    Sum(values) / |values| as real
  }

  /** Recursive smoothing, seeded with the mean of the first `period` values. */
  function SmoothAt(values: seq<real>, period: nat, alpha: real, i: nat): real
    requires 0 < period && period - 1 <= i < |values|
  {
    if i == period - 1 then Mean(values[..period])
    else values[i] * alpha + SmoothAt(values, period, alpha, i - 1) * (1.0 - alpha)
  }

  function Smooth(values: seq<real>, period: nat, alpha: real): (r: Series)
    requires 0 < period
    ensures |r| == |values|
  {
    if |values| < period then Nans(|values|)
    else
      seq(|values|, i requires 0 <= i < |values| =>
        if i < period - 1 then None else Some(SmoothAt(values, period, alpha, i)))
  }

  function Ema(values: seq<real>, period: nat): (r: Series)
    requires 0 < period
    ensures |r| == |values|
  {
    Smooth(values, period, 2.0 / (period + 1) as real)
  }

  /** Wilder's smoothed moving average. */
  function Rma(values: seq<real>, period: nat): (r: Series)
    requires 0 < period
    ensures |r| == |values|
  {
    Smooth(values, period, 1.0 / period as real)
  }

  /** A statistic of the last `period` values, once there are that many. */
  function Rolling(values: seq<real>, period: nat, stat: seq<real> -> real): (r: Series)
    requires 0 < period
    ensures |r| == |values|
  {
    if |values| < period then Nans(|values|)
    else
      seq(|values|, i requires 0 <= i < |values| =>
        if i < period - 1 then None else Some(stat(values[i + 1 - period..i + 1])))
  }

  function MeanOf(window: seq<real>): real {
    if |window| == 0 then 0.0 else Mean(window)
  }

  function SquaredDeviations(window: seq<real>, mean: real): seq<real> {
    seq(|window|, i requires 0 <= i < |window| => (window[i] - mean) * (window[i] - mean))
  }

  /** Running total of the first i + 1 values. */
  function Cumulative(values: seq<real>): (r: seq<real>)
    ensures |r| == |values|
  {
    seq(|values|, i requires 0 <= i < |values| => Sum(values[..i + 1]))
  }

  /** Combines two arrays where both have a value. */
  function Combine(a: Series, b: Series, f: (real, real) -> Option<real>): (r: Series)
    requires |a| == |b|
    ensures |r| == |a|
  {
    seq(|a|, i requires 0 <= i < |a| =>
      if a[i].Some? && b[i].Some? then f(a[i].value, b[i].value) else None)
  }

  /** An array of differences has one entry less; shifting puts entry i - 1 at bar i. */
  function Shifted(a: Series): (r: Series)
    ensures |r| == |a| + 1
  {
    [None] + a
  }

  /** The values present, in order. */
  function Compact(a: Series): seq<real> {
    if |a| == 0 then []
    else
      var before := Compact(a[..|a| - 1]);
      if a[|a| - 1].Some? then before + [a[|a| - 1].value] else before
  }

  lemma {:induction false} CompactPrefix(a: Series, i: nat)
    requires i <= |a|
    ensures Compact(a[..i]) <= Compact(a)
    ensures i < |a| && a[i].Some? ==> |Compact(a[..i])| < |Compact(a)|
  {
    if i == |a| {
      assert a[..i] == a;
    } else {
      var b := a[..|a| - 1];
      CompactPrefix(b, i);
      assert b[..i] == a[..i];
      if i < |b| {
        assert b[i] == a[i];
      }
    }
  }

  /** Smooths the values present and puts the results back where those values were. */
  function SmoothPresent(a: Series, period: nat, alpha: real): (r: Series)
    requires 0 < period
    ensures |r| == |a|
  {
    var smoothed := Smooth(Compact(a), period, alpha);
    seq(|a|, i requires 0 <= i < |a| =>
      CompactPrefix(a, i);
      if a[i].Some? then smoothed[|Compact(a[..i])|] else None)
  }

  // ------------------------------------------------------------------
  // Indicators
  // ------------------------------------------------------------------

  function Closes(cs: seq<Candle>): (r: seq<real>)
    ensures |r| == |cs|
  {
    seq(|cs|, i requires 0 <= i < |cs| => cs[i].close)
  }

  function Volumes(cs: seq<Candle>): (r: seq<real>)
    ensures |r| == |cs|
  {
    seq(|cs|, i requires 0 <= i < |cs| => cs[i].volume)
  }

  /** A quantity of each bar and the bar before it, from the second bar on. */
  function Steps(cs: seq<Candle>, f: (Candle, Candle) -> real): (r: seq<real>)
    ensures |r| == MaxInt(|cs| - 1, 0)
  {
    seq(MaxInt(|cs| - 1, 0), i requires 0 <= i < MaxInt(|cs| - 1, 0) => f(cs[i], cs[i + 1]))
  }

  function TrueRanges(cs: seq<Candle>): (r: seq<real>)
    ensures |r| == |cs|
  {
    seq(|cs|, i requires 0 <= i < |cs| =>
      var range := cs[i].high - cs[i].low;
      if i == 0 then range
      else MaxReal(range, MaxReal(Abs(cs[i].high - cs[i - 1].close), Abs(cs[i].low - cs[i - 1].close))))
  }

  function Atr(cs: seq<Candle>, period: nat): (r: Series)
    requires 0 < period
    ensures |r| == |cs|
  {
    Rma(TrueRanges(cs), period)
  }

  function Gain(p: Candle, c: Candle): real {
    if c.close - p.close > 0.0 then c.close - p.close else 0.0
  }

  function Loss(p: Candle, c: Candle): real {
    if c.close - p.close < 0.0 then p.close - c.close else 0.0
  }

  function DmPlus(p: Candle, c: Candle): real {
    if c.high - p.high > p.low - c.low && c.high - p.high > 0.0 then c.high - p.high else 0.0
  }

  function DmMinus(p: Candle, c: Candle): real {
    if p.low - c.low > c.high - p.high && p.low - c.low > 0.0 then p.low - c.low else 0.0
  }

  function Minus(x: real, y: real): Option<real> {
    Some(x - y)
  }

  function BandAbove(middle: real, width: real): Option<real> {
    Some(middle + 2.0 * width)
  }

  function BandBelow(middle: real, width: real): Option<real> {
    Some(middle - 2.0 * width)
  }

  function Strength(gain: real, loss: real): Option<real> {
    if loss == 0.0 then Some(100.0)
    else if 1.0 + gain / loss == 0.0 then None
    else Some(100.0 - 100.0 / (1.0 + gain / loss))
  }

  function Directional(movement: real, atr: real): Option<real> {
    if atr > 0.0 then Some(100.0 * movement / atr) else None
  }

  function Spread(plus: real, minus: real): Option<real> {
    if plus + minus > 0.0 then Some(100.0 * Abs(plus - minus) / (plus + minus)) else None
  }

  function RatioIfPositive(x: real, y: real): Option<real> {
    if y > 0.0 then Some(x / y) else None
  }

  function Rsi(cs: seq<Candle>, period: nat): (r: Series)
    requires 0 < period
    ensures |r| == |cs|
  {
    if |cs| < period + 1 then Nans(|cs|)
    else Shifted(Combine(Rma(Steps(cs, Gain), period), Rma(Steps(cs, Loss), period), Strength))
  }

  function MacdLine(cs: seq<Candle>): (r: Series)
    ensures |r| == |cs|
  {
    Combine(Ema(Closes(cs), 12), Ema(Closes(cs), 26), Minus)
  }

  function MacdSignal(cs: seq<Candle>): (r: Series)
    ensures |r| == |cs|
  {
    SmoothPresent(MacdLine(cs), 9, 2.0 / 10.0)
  }

  function Di(cs: seq<Candle>, movement: (Candle, Candle) -> real): (r: Series)
    ensures |r| == |cs|
  {
    if |cs| == 0 then []
    else Combine(Shifted(Rma(Steps(cs, movement), 14)), Atr(cs, 14), Directional)
  }

  function Adx(cs: seq<Candle>): (r: Series)
    ensures |r| == |cs|
  {
    SmoothPresent(Combine(Di(cs, DmPlus), Di(cs, DmMinus), Spread), 14, 1.0 / 14.0)
  }

  function TypicalVolume(c: Candle): real {
    (c.high + c.low + c.close) / 3.0 * c.volume
  }

  function TypicalVolumes(cs: seq<Candle>): (r: seq<real>)
    ensures |r| == |cs|
  {
    seq(|cs|, i requires 0 <= i < |cs| => TypicalVolume(cs[i]))
  }

  function Vwap(cs: seq<Candle>): (r: Series)
    ensures |r| == |cs|
  {
    Combine(Finite(Cumulative(TypicalVolumes(cs))), Finite(Cumulative(Volumes(cs))), RatioIfPositive)
  }

  function ObvAt(cs: seq<Candle>, i: nat): real
    requires i < |cs|
  {
    if i == 0 then 0.0
    else if cs[i].close > cs[i - 1].close then ObvAt(cs, i - 1) + cs[i].volume
    else if cs[i].close < cs[i - 1].close then ObvAt(cs, i - 1) - cs[i].volume
    else ObvAt(cs, i - 1)
  }

  function Obv(cs: seq<Candle>): (r: seq<real>)
    ensures |r| == |cs|
  {
    seq(|cs|, i requires 0 <= i < |cs| => ObvAt(cs, i))
  }

  /** All arrays of one series. The square root of the Bollinger deviation is an input. */
  datatype Lines = Lines(
    rsi14: Series, rsi7: Series, macdLine: Series, macdSignal: Series, macdHistogram: Series,
    atr14: Series, adx14: Series, diPlus: Series, diMinus: Series,
    bbUpper: Series, bbMiddle: Series, bbLower: Series, kcUpper: Series, kcLower: Series,
    ema9: Series, ema21: Series, ema50: Series, ema200: Series, sma20: Series,
    vwap: Series, volumeSma20: Series, obv: Series, obvSma: Series)

  predicate Sized(l: Lines, n: nat) {
    && |l.rsi14| == |l.rsi7| == |l.macdLine| == |l.macdSignal| == |l.macdHistogram| == n
    && |l.atr14| == |l.adx14| == |l.diPlus| == |l.diMinus| == n
    && |l.bbUpper| == |l.bbMiddle| == |l.bbLower| == |l.kcUpper| == |l.kcLower| == n
    && |l.ema9| == |l.ema21| == |l.ema50| == |l.ema200| == |l.sma20| == n
    && |l.vwap| == |l.volumeSma20| == |l.obv| == |l.obvSma| == n
  }

  function Deviation(sqrt: real -> real): seq<real> -> real {
    window => sqrt(MeanOf(SquaredDeviations(window, MeanOf(window))))
  }

  function AllLines(cs: seq<Candle>, sqrt: real -> real): (r: Lines)
    ensures Sized(r, |cs|)
  {
    var c := Closes(cs);
    var macd, signal := MacdLine(cs), MacdSignal(cs);
    var middle, std := Rolling(c, 20, MeanOf), Rolling(c, 20, Deviation(sqrt));
    var ema20, atr10 := Ema(c, 20), Atr(cs, 10);
    Lines(
      Rsi(cs, 14), Rsi(cs, 7), macd, signal, Combine(macd, signal, Minus),
      Atr(cs, 14), Adx(cs), Di(cs, DmPlus), Di(cs, DmMinus),
      Combine(middle, std, BandAbove), middle, Combine(middle, std, BandBelow),
      Combine(ema20, atr10, BandAbove), Combine(ema20, atr10, BandBelow),
      Ema(c, 9), Ema(c, 21),
      if |cs| >= 50 then Ema(c, 50) else Nans(|cs|), if |cs| >= 200 then Ema(c, 200) else Nans(|cs|),
      Rolling(c, 20, MeanOf), Vwap(cs), Rolling(Volumes(cs), 20, MeanOf), Finite(Obv(cs)),
      Rolling(Obv(cs), 20, MeanOf))
  }

  // ------------------------------------------------------------------
  // Feature sets
  // ------------------------------------------------------------------

  datatype FeatureSet = FeatureSet(
    symbol: string, timestamp: int, close: real, volume: real,
    rsi14: Option<real>, rsi7: Option<real>,
    macdLine: Option<real>, macdSignal: Option<real>, macdHistogram: Option<real>,
    adx14: Option<real>, diPlus: Option<real>, diMinus: Option<real>,
    atr14: Option<real>, atrPct: Option<real>,
    bbUpper: Option<real>, bbMiddle: Option<real>, bbLower: Option<real>,
    bbWidth: Option<real>, bbPosition: Option<real>,
    kcUpper: Option<real>, kcLower: Option<real>,
    ema9: Option<real>, ema21: Option<real>, ema50: Option<real>, ema200: Option<real>, sma20: Option<real>,
    vwap: Option<real>, volumeSma20: Option<real>, volumeRatio: Option<real>, obv: Option<real>,
    returns1: Option<real>, returns5: Option<real>, returns10: Option<real>, returns20: Option<real>)

  const MIN_CANDLES := 50

  /** Present and not zero, the way the source tests an optional number. */
  predicate Truthy(x: Option<real>) {
    x.Some? && x.value != 0.0
  }

  function Rounded(x: Option<real>): Option<real> {
    if x.None? then None else Some(Round8(x.value))
  }

  function Returns(cs: seq<Candle>, i: nat, k: nat): Option<real>
    requires i < |cs|
  {
    if i < k then None else Divide(cs[i].close - cs[i - k].close, cs[i - k].close)
  }

  function BandWidth(upper: Option<real>, middle: Option<real>, lower: Option<real>): Option<real> {
    if Truthy(upper) && Truthy(middle) && Truthy(lower) && middle.value > 0.0
    then Some((upper.value - lower.value) / middle.value) else None
  }

  function BandPosition(upper: Option<real>, middle: Option<real>, lower: Option<real>, close: real): Option<real> {
    if Truthy(upper) && Truthy(middle) && Truthy(lower) && middle.value > 0.0 && upper.value != lower.value
    then Some((close - lower.value) / (upper.value - lower.value)) else None
  }

  /** The features of bar i, read off the arrays of the series cs. */
  function FeaturesAt(l: Lines, cs: seq<Candle>, i: nat): FeatureSet
    requires Sized(l, |cs|) && i < |cs|
  {
    var c := cs[i];
    var atr := Rounded(l.atr14[i]);
    FeatureSet(
      c.symbol, c.timestamp, c.close, c.volume,
      l.rsi14[i], l.rsi7[i], l.macdLine[i], l.macdSignal[i], l.macdHistogram[i],
      l.adx14[i], l.diPlus[i], l.diMinus[i],
      atr, if Truthy(atr) && c.close > 0.0 then Some(atr.value / c.close) else None,
      Rounded(l.bbUpper[i]), Rounded(l.bbMiddle[i]), Rounded(l.bbLower[i]),
      BandWidth(l.bbUpper[i], l.bbMiddle[i], l.bbLower[i]),
      BandPosition(l.bbUpper[i], l.bbMiddle[i], l.bbLower[i], c.close),
      Rounded(l.kcUpper[i]), Rounded(l.kcLower[i]),
      Rounded(l.ema9[i]), Rounded(l.ema21[i]), Rounded(l.ema50[i]), Rounded(l.ema200[i]), Rounded(l.sma20[i]),
      Rounded(l.vwap[i]), Rounded(l.volumeSma20[i]),
      if l.volumeSma20[i].Some? && l.volumeSma20[i].value > 0.0
        then Some(c.volume / l.volumeSma20[i].value) else None,
      if Truthy(l.obvSma[i]) && l.obv[i].Some?
        then Divide(l.obv[i].value - l.obvSma[i].value, Abs(l.obvSma[i].value)) else None,
      Returns(cs, i, 1), Returns(cs, i, 5), Returns(cs, i, 10), Returns(cs, i, 20))
  }

  /** The slow form: all arrays are computed anew over a history, and the last entry is read. The source
      writes the formulas that turn array entries into a feature set twice, once for each form; here both
      forms share FeaturesAt, so a divergence between the two texts would not show. */
  function Compute(history: seq<Candle>, sqrt: real -> real): FeatureSet
    requires |history| >= 2
  {
    FeaturesAt(AllLines(history, sqrt), history, |history| - 1)
  }

  /** The fast form: the arrays are computed once, and every entry is read. */
  function Precompute(cs: seq<Candle>, sqrt: real -> real): (r: seq<Option<FeatureSet>>)
    ensures |r| == |cs|
  {
    var l := AllLines(cs, sqrt);
    seq(|cs|, i requires 0 <= i < |cs| =>
      if i + 1 < MIN_CANDLES then None else Some(FeaturesAt(l, cs, i)))
  }

  // ------------------------------------------------------------------
  // No entry depends on a later bar
  // ------------------------------------------------------------------

  /** Two arrays show the same values at the first n bars. */
  ghost predicate Agree<T>(a: seq<T>, b: seq<T>, n: nat) {
    n <= |a| && n <= |b| && a[..n] == b[..n]
  }

  lemma AgreeAt<T>(a: seq<T>, b: seq<T>, n: nat)
    requires n <= |a| && n <= |b| && forall i :: 0 <= i < n ==> a[i] == b[i]
    ensures Agree(a, b, n)
  {
  }

  lemma AgreeUse<T>(a: seq<T>, b: seq<T>, n: nat)
    requires Agree(a, b, n)
    ensures forall i :: 0 <= i < n ==> a[i] == b[i]
  {
    assert forall i :: 0 <= i < n ==> a[i] == a[..n][i] && b[i] == b[..n][i];
  }

  lemma AgreeLess<T>(a: seq<T>, b: seq<T>, n: nat, k: nat)
    requires Agree(a, b, n) && k <= n
    ensures Agree(a, b, k)
  {
    assert a[..k] == a[..n][..k] && b[..k] == b[..n][..k];
  }

  lemma {:induction false} SmoothAtCausal(a: seq<real>, b: seq<real>, period: nat, alpha: real, n: nat, i: nat)
    requires 0 < period && period - 1 <= i < n && Agree(a, b, n)
    ensures SmoothAt(a, period, alpha, i) == SmoothAt(b, period, alpha, i)
  {
    AgreeUse(a, b, n);
    if i == period - 1 {
      AgreeLess(a, b, n, period);
    } else {
      SmoothAtCausal(a, b, period, alpha, n, i - 1);
    }
  }

  lemma SmoothCausal(a: seq<real>, b: seq<real>, period: nat, alpha: real, n: nat)
    requires 0 < period && Agree(a, b, n)
    ensures Agree(Smooth(a, period, alpha), Smooth(b, period, alpha), n)
  {
    var x, y := Smooth(a, period, alpha), Smooth(b, period, alpha);
    forall i | 0 <= i < n ensures x[i] == y[i] {
      if i >= period - 1 {
        SmoothAtCausal(a, b, period, alpha, n, i);
      }
    }
    AgreeAt(x, y, n);
  }

  lemma RollingCausal(a: seq<real>, b: seq<real>, period: nat, stat: seq<real> -> real, n: nat)
    requires 0 < period && Agree(a, b, n)
    ensures Agree(Rolling(a, period, stat), Rolling(b, period, stat), n)
  {
    var x, y := Rolling(a, period, stat), Rolling(b, period, stat);
    forall i | 0 <= i < n ensures x[i] == y[i] {
      if i >= period - 1 {
        assert a[i + 1 - period..i + 1] == a[..n][i + 1 - period..i + 1];
        assert b[i + 1 - period..i + 1] == b[..n][i + 1 - period..i + 1];
      }
    }
    AgreeAt(x, y, n);
  }

  lemma CombineCausal(a: Series, b: Series, c: Series, d: Series, f: (real, real) -> Option<real>, n: nat)
    requires |a| == |b| && |c| == |d| && Agree(a, c, n) && Agree(b, d, n)
    ensures Agree(Combine(a, b, f), Combine(c, d, f), n)
  {
    AgreeUse(a, c, n);
    AgreeUse(b, d, n);
    AgreeAt(Combine(a, b, f), Combine(c, d, f), n);
  }

  lemma ShiftedCausal(a: Series, b: Series, n: nat)
    requires Agree(a, b, n)
    ensures Agree(Shifted(a), Shifted(b), n + 1)
  {
    AgreeUse(a, b, n);
    AgreeAt(Shifted(a), Shifted(b), n + 1);
  }

  lemma FiniteCausal(a: seq<real>, b: seq<real>, n: nat)
    requires Agree(a, b, n)
    ensures Agree(Finite(a), Finite(b), n)
  {
    AgreeUse(a, b, n);
    AgreeAt(Finite(a), Finite(b), n);
  }

  lemma CumulativeCausal(a: seq<real>, b: seq<real>, n: nat)
    requires Agree(a, b, n)
    ensures Agree(Cumulative(a), Cumulative(b), n)
  {
    var x, y := Cumulative(a), Cumulative(b);
    forall i | 0 <= i < n ensures x[i] == y[i] {
      AgreeLess(a, b, n, i + 1);
    }
    AgreeAt(x, y, n);
  }

  /** The values present in agreeing prefixes agree, so smoothing them does. */
  lemma SmoothPresentCausal(a: Series, b: Series, period: nat, alpha: real, n: nat)
    requires 0 < period && Agree(a, b, n)
    ensures Agree(SmoothPresent(a, period, alpha), SmoothPresent(b, period, alpha), n)
  {
    AgreeUse(a, b, n);
    var x, y := SmoothPresent(a, period, alpha), SmoothPresent(b, period, alpha);
    var m := |Compact(a[..n])|;
    CompactPrefix(a, n);
    CompactPrefix(b, n);
    assert Agree(Compact(a), Compact(b), m);
    SmoothCausal(Compact(a), Compact(b), period, alpha, m);
    AgreeUse(Smooth(Compact(a), period, alpha), Smooth(Compact(b), period, alpha), m);
    forall i | 0 <= i < n ensures x[i] == y[i] {
      AgreeLess(a, b, n, i);
      CompactPrefix(a, i);
      CompactPrefix(b, i);
      CompactPrefix(a[..n], i);
      assert a[..n][..i] == a[..i];
    }
    AgreeAt(x, y, n);
  }

  lemma CandlesCausal(a: seq<Candle>, b: seq<Candle>, n: nat)
    requires Agree(a, b, n)
    ensures Agree(Closes(a), Closes(b), n) && Agree(Volumes(a), Volumes(b), n)
    ensures Agree(TrueRanges(a), TrueRanges(b), n) && Agree(TypicalVolumes(a), TypicalVolumes(b), n)
  {
    hide TypicalVolume;
    AgreeUse(a, b, n);
    AgreeAt(Closes(a), Closes(b), n);
    AgreeAt(Volumes(a), Volumes(b), n);
    AgreeAt(TrueRanges(a), TrueRanges(b), n);
    AgreeAt(TypicalVolumes(a), TypicalVolumes(b), n);
  }

  lemma StepsCausal(a: seq<Candle>, b: seq<Candle>, f: (Candle, Candle) -> real, n: nat)
    requires 0 < n && Agree(a, b, n)
    ensures Agree(Steps(a, f), Steps(b, f), n - 1)
  {
    AgreeUse(a, b, n);
    AgreeAt(Steps(a, f), Steps(b, f), n - 1);
  }

  lemma {:induction false} ObvAtCausal(a: seq<Candle>, b: seq<Candle>, n: nat, i: nat)
    requires i < n && Agree(a, b, n)
    ensures ObvAt(a, i) == ObvAt(b, i)
  {
    AgreeUse(a, b, n);
    if i > 0 {
      ObvAtCausal(a, b, n, i - 1);
    }
  }

  lemma ObvCausal(a: seq<Candle>, b: seq<Candle>, n: nat)
    requires Agree(a, b, n)
    ensures Agree(Obv(a), Obv(b), n)
  {
    forall i | 0 <= i < n ensures Obv(a)[i] == Obv(b)[i] {
      ObvAtCausal(a, b, n, i);
    }
    AgreeAt(Obv(a), Obv(b), n);
  }

  lemma AtrCausal(a: seq<Candle>, b: seq<Candle>, period: nat, n: nat)
    requires 0 < period && Agree(a, b, n)
    ensures Agree(Atr(a, period), Atr(b, period), n)
  {
    CandlesCausal(a, b, n);
    SmoothCausal(TrueRanges(a), TrueRanges(b), period, 1.0 / period as real, n);
  }

  lemma RsiCausal(a: seq<Candle>, b: seq<Candle>, period: nat, n: nat)
    requires 0 < period && 0 < n && Agree(a, b, n)
    ensures Agree(Rsi(a, period), Rsi(b, period), n)
  {
    var alpha := 1.0 / period as real;
    StepsCausal(a, b, Gain, n);
    StepsCausal(a, b, Loss, n);
    SmoothCausal(Steps(a, Gain), Steps(b, Gain), period, alpha, n - 1);
    SmoothCausal(Steps(a, Loss), Steps(b, Loss), period, alpha, n - 1);
    var x := Combine(Rma(Steps(a, Gain), period), Rma(Steps(a, Loss), period), Strength);
    var y := Combine(Rma(Steps(b, Gain), period), Rma(Steps(b, Loss), period), Strength);
    CombineCausal(Rma(Steps(a, Gain), period), Rma(Steps(a, Loss), period),
                  Rma(Steps(b, Gain), period), Rma(Steps(b, Loss), period), Strength, n - 1);
    ShiftedCausal(x, y, n - 1);
    ShortRsi(a, period);
    ShortRsi(b, period);
    AgreeUse(Shifted(x), Shifted(y), n);
    AgreeAt(Rsi(a, period), Rsi(b, period), n);
  }

  /** The early return for short series gives what the general formula would. */
  lemma ShortRsi(cs: seq<Candle>, period: nat)
    requires 0 < period && 0 < |cs|
    ensures Rsi(cs, period) ==
      Shifted(Combine(Rma(Steps(cs, Gain), period), Rma(Steps(cs, Loss), period), Strength))
  {
  }

  lemma MacdCausal(a: seq<Candle>, b: seq<Candle>, n: nat)
    requires Agree(a, b, n)
    ensures Agree(MacdLine(a), MacdLine(b), n) && Agree(MacdSignal(a), MacdSignal(b), n)
  {
    CandlesCausal(a, b, n);
    SmoothCausal(Closes(a), Closes(b), 12, 2.0 / (12 + 1) as real, n);
    SmoothCausal(Closes(a), Closes(b), 26, 2.0 / (26 + 1) as real, n);
    CombineCausal(Ema(Closes(a), 12), Ema(Closes(a), 26), Ema(Closes(b), 12), Ema(Closes(b), 26), Minus, n);
    SmoothPresentCausal(MacdLine(a), MacdLine(b), 9, 2.0 / 10.0, n);
  }

  lemma DiCausal(a: seq<Candle>, b: seq<Candle>, movement: (Candle, Candle) -> real, n: nat)
    requires 0 < n && Agree(a, b, n)
    ensures Agree(Di(a, movement), Di(b, movement), n)
  {
    StepsCausal(a, b, movement, n);
    SmoothCausal(Steps(a, movement), Steps(b, movement), 14, 1.0 / 14 as real, n - 1);
    ShiftedCausal(Rma(Steps(a, movement), 14), Rma(Steps(b, movement), 14), n - 1);
    AtrCausal(a, b, 14, n);
    CombineCausal(Shifted(Rma(Steps(a, movement), 14)), Atr(a, 14),
                  Shifted(Rma(Steps(b, movement), 14)), Atr(b, 14), Directional, n);
  }

  lemma AdxCausal(a: seq<Candle>, b: seq<Candle>, n: nat)
    requires 0 < n && Agree(a, b, n)
    ensures Agree(Adx(a), Adx(b), n)
  {
    DiCausal(a, b, DmPlus, n);
    DiCausal(a, b, DmMinus, n);
    var x, y := Combine(Di(a, DmPlus), Di(a, DmMinus), Spread), Combine(Di(b, DmPlus), Di(b, DmMinus), Spread);
    CombineCausal(Di(a, DmPlus), Di(a, DmMinus), Di(b, DmPlus), Di(b, DmMinus), Spread, n);
    SmoothPresentCausal(x, y, 14, 1.0 / 14.0, n);
  }

  lemma VwapCausal(a: seq<Candle>, b: seq<Candle>, n: nat)
    requires Agree(a, b, n)
    ensures Agree(Vwap(a), Vwap(b), n)
  {
    CandlesCausal(a, b, n);
    var p, q := Cumulative(TypicalVolumes(a)), Cumulative(TypicalVolumes(b));
    var v, w := Cumulative(Volumes(a)), Cumulative(Volumes(b));
    CumulativeCausal(TypicalVolumes(a), TypicalVolumes(b), n);
    CumulativeCausal(Volumes(a), Volumes(b), n);
    FiniteCausal(p, q, n);
    FiniteCausal(v, w, n);
    CombineCausal(Finite(p), Finite(v), Finite(q), Finite(w), RatioIfPositive, n);
  }

  ghost predicate LinesAgree(x: Lines, y: Lines, n: nat) {
    && Agree(x.rsi14, y.rsi14, n) && Agree(x.rsi7, y.rsi7, n)
    && Agree(x.macdLine, y.macdLine, n) && Agree(x.macdSignal, y.macdSignal, n)
    && Agree(x.macdHistogram, y.macdHistogram, n)
    && Agree(x.atr14, y.atr14, n) && Agree(x.adx14, y.adx14, n)
    && Agree(x.diPlus, y.diPlus, n) && Agree(x.diMinus, y.diMinus, n)
    && Agree(x.bbUpper, y.bbUpper, n) && Agree(x.bbMiddle, y.bbMiddle, n) && Agree(x.bbLower, y.bbLower, n)
    && Agree(x.kcUpper, y.kcUpper, n) && Agree(x.kcLower, y.kcLower, n)
    && Agree(x.ema9, y.ema9, n) && Agree(x.ema21, y.ema21, n) && Agree(x.ema50, y.ema50, n)
    && Agree(x.ema200, y.ema200, n) && Agree(x.sma20, y.sma20, n)
    && Agree(x.vwap, y.vwap, n) && Agree(x.volumeSma20, y.volumeSma20, n)
    && Agree(x.obv, y.obv, n) && Agree(x.obvSma, y.obvSma, n)
  }

  lemma BandsCausal(a: seq<Candle>, b: seq<Candle>, sqrt: real -> real, n: nat)
    requires Agree(a, b, n)
    ensures var x, y := AllLines(a, sqrt), AllLines(b, sqrt);
      && Agree(x.bbUpper, y.bbUpper, n) && Agree(x.bbMiddle, y.bbMiddle, n) && Agree(x.bbLower, y.bbLower, n)
      && Agree(x.kcUpper, y.kcUpper, n) && Agree(x.kcLower, y.kcLower, n)
  {
    CandlesCausal(a, b, n);
    var c, d := Closes(a), Closes(b);
    RollingCausal(c, d, 20, MeanOf, n);
    RollingCausal(c, d, 20, Deviation(sqrt), n);
    var m, w := Rolling(c, 20, MeanOf), Rolling(d, 20, MeanOf);
    var s, t := Rolling(c, 20, Deviation(sqrt)), Rolling(d, 20, Deviation(sqrt));
    CombineCausal(m, s, w, t, BandAbove, n);
    CombineCausal(m, s, w, t, BandBelow, n);
    SmoothCausal(c, d, 20, 2.0 / (20 + 1) as real, n);
    AtrCausal(a, b, 10, n);
    CombineCausal(Ema(c, 20), Atr(a, 10), Ema(d, 20), Atr(b, 10), BandAbove, n);
    CombineCausal(Ema(c, 20), Atr(a, 10), Ema(d, 20), Atr(b, 10), BandBelow, n);
  }

  lemma AveragesCausal(a: seq<Candle>, b: seq<Candle>, sqrt: real -> real, n: nat)
    requires Agree(a, b, n)
    ensures var x, y := AllLines(a, sqrt), AllLines(b, sqrt);
      && Agree(x.ema9, y.ema9, n) && Agree(x.ema21, y.ema21, n) && Agree(x.ema50, y.ema50, n)
      && Agree(x.ema200, y.ema200, n) && Agree(x.sma20, y.sma20, n)
      && Agree(x.volumeSma20, y.volumeSma20, n) && Agree(x.obv, y.obv, n) && Agree(x.obvSma, y.obvSma, n)
  {
    CandlesCausal(a, b, n);
    ObvCausal(a, b, n);
    FiniteCausal(Obv(a), Obv(b), n);
    RollingCausal(Obv(a), Obv(b), 20, MeanOf, n);
    RollingCausal(Volumes(a), Volumes(b), 20, MeanOf, n);
    RollingCausal(Closes(a), Closes(b), 20, MeanOf, n);
    SmoothCausal(Closes(a), Closes(b), 9, 2.0 / (9 + 1) as real, n);
    SmoothCausal(Closes(a), Closes(b), 21, 2.0 / (21 + 1) as real, n);
    SmoothCausal(Closes(a), Closes(b), 50, 2.0 / (50 + 1) as real, n);
    SmoothCausal(Closes(a), Closes(b), 200, 2.0 / (200 + 1) as real, n);
    ShortEma(Closes(a), 50);
    ShortEma(Closes(b), 50);
    ShortEma(Closes(a), 200);
    ShortEma(Closes(b), 200);
  }

  lemma ShortEma(values: seq<real>, period: nat)
    requires 0 < period
    ensures |values| < period ==> Ema(values, period) == Nans(|values|)
  {
  }

  lemma LinesCausal(a: seq<Candle>, b: seq<Candle>, sqrt: real -> real, n: nat)
    requires 0 < n && Agree(a, b, n)
    ensures LinesAgree(AllLines(a, sqrt), AllLines(b, sqrt), n)
  {
    RsiCausal(a, b, 14, n);
    RsiCausal(a, b, 7, n);
    MacdCausal(a, b, n);
    CombineCausal(MacdLine(a), MacdSignal(a), MacdLine(b), MacdSignal(b), Minus, n);
    AtrCausal(a, b, 14, n);
    AdxCausal(a, b, n);
    DiCausal(a, b, DmPlus, n);
    DiCausal(a, b, DmMinus, n);
    VwapCausal(a, b, n);
    BandsCausal(a, b, sqrt, n);
    AveragesCausal(a, b, sqrt, n);
  }

  lemma FeaturesAtCausal(x: Lines, y: Lines, a: seq<Candle>, b: seq<Candle>, n: nat, i: nat)
    requires Sized(x, |a|) && Sized(y, |b|) && LinesAgree(x, y, n) && Agree(a, b, n) && i < n
    ensures FeaturesAt(x, a, i) == FeaturesAt(y, b, i)
  {
    hide Rounded, BandWidth, BandPosition, Divide;
    AgreeUse(a, b, n);
    AgreeUse(x.rsi14, y.rsi14, n);
    AgreeUse(x.rsi7, y.rsi7, n);
    AgreeUse(x.macdLine, y.macdLine, n);
    AgreeUse(x.macdSignal, y.macdSignal, n);
    AgreeUse(x.macdHistogram, y.macdHistogram, n);
    AgreeUse(x.adx14, y.adx14, n);
    AgreeUse(x.diPlus, y.diPlus, n);
    AgreeUse(x.diMinus, y.diMinus, n);
    AgreeUse(x.atr14, y.atr14, n);
    AgreeUse(x.bbUpper, y.bbUpper, n);
    AgreeUse(x.bbMiddle, y.bbMiddle, n);
    AgreeUse(x.bbLower, y.bbLower, n);
    AgreeUse(x.kcUpper, y.kcUpper, n);
    AgreeUse(x.kcLower, y.kcLower, n);
    AgreeUse(x.ema9, y.ema9, n);
    AgreeUse(x.ema21, y.ema21, n);
    AgreeUse(x.ema50, y.ema50, n);
    AgreeUse(x.ema200, y.ema200, n);
    AgreeUse(x.sma20, y.sma20, n);
    AgreeUse(x.vwap, y.vwap, n);
    AgreeUse(x.volumeSma20, y.volumeSma20, n);
    AgreeUse(x.obv, y.obv, n);
    AgreeUse(x.obvSma, y.obvSma, n);
  }

  /** Features never look ahead: series that agree on their first n bars have the same features there. */
  lemma FeaturesDoNotLookAhead(a: seq<Candle>, b: seq<Candle>, sqrt: real -> real, n: nat, i: nat)
    requires Agree(a, b, n) && i < n
    ensures Precompute(a, sqrt)[i] == Precompute(b, sqrt)[i]
  {
    hide FeaturesAt, AllLines, LinesAgree;
    LinesCausal(a, b, sqrt, n);
    FeaturesAtCausal(AllLines(a, sqrt), AllLines(b, sqrt), a, b, n, i);
  }

  /** The fast form equals the slow one at every bar that has enough history, and is empty before. */
  lemma PrecomputeIsComputePerBar(cs: seq<Candle>, sqrt: real -> real, i: nat)
    requires i < |cs|
    ensures Precompute(cs, sqrt)[i] ==
      if i + 1 < MIN_CANDLES then None else Some(Compute(cs[..i + 1], sqrt))
  {
    hide FeaturesAt, AllLines, LinesAgree;
    var history := cs[..i + 1];
    assert Agree(cs, history, i + 1);
    LinesCausal(cs, history, sqrt, i + 1);
    FeaturesAtCausal(AllLines(cs, sqrt), AllLines(history, sqrt), cs, history, i + 1, i);
  }
}
