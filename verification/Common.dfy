/** Small vocabulary shared by every module of the model. */
module Common {

  datatype Option<+T> = None | Some(value: T)

  /** One OHLCV bar. Timestamps are integers in seconds. */
  datatype Candle = Candle(
    symbol: string, timestamp: int,
    open: real, high: real, low: real, close: real, volume: real)

  function Abs(x: real): real {
    if x < 0.0 then -x else x
  }

  function MaxInt(a: int, b: int): int {
    if a < b then b else a
  }

  function MinInt(a: int, b: int): int {
    if b < a then b else a
  }

  function MaxReal(a: real, b: real): real {
    if a < b then b else a
  }

  function MinReal(a: real, b: real): real {
    if b < a then b else a
  }

  function Sum(xs: seq<real>): real {
    if |xs| == 0 then 0.0 else Sum(xs[..|xs| - 1]) + xs[|xs| - 1]
  }

  lemma MulMonotone(a: real, b: real, c: real)
    requires a <= b && c > 0.0
    ensures a * c <= b * c
  {
  }

  lemma MulCancel(a: real, b: real, c: real)
    requires a * c <= b * c && c > 0.0
    ensures a <= b
  {
    assert (a - b) * c <= 0.0;
  }

  lemma MulCancelStrict(a: real, b: real, c: real)
    requires a * c < b * c && c > 0.0
    ensures a < b
  {
    assert (a - b) * c < 0.0;
  }

  lemma MulOrder(a: int, b: int, c: nat)
    requires a <= b
    ensures a * c <= b * c
  {
  }

  /** Bars arrive in time order; equal timestamps are tolerated. */
  ghost predicate TimeOrdered(candles: seq<Candle>) {
    forall i, j :: 0 <= i < j < |candles| ==> candles[i].timestamp <= candles[j].timestamp
  }

  /** Bars arrive in time order with distinct timestamps. */
  ghost predicate StrictlyTimeOrdered(candles: seq<Candle>) {
    forall i, j :: 0 <= i < j < |candles| ==> candles[i].timestamp < candles[j].timestamp
  }

  // ------------------------------------------------------------------
  // Rounding, as Python's round() and Decimal quantisation do it
  // ------------------------------------------------------------------

  /** Nearest integer; a tie goes to the even neighbour. */
  function RoundHalfEven(x: real): (r: int)
    ensures x - 0.5 <= r as real <= x + 0.5
  {
    var f := x.Floor;
    var d := x - f as real;
    if d < 0.5 then f
    else if d > 0.5 then f + 1
    else if f % 2 == 0 then f else f + 1
  }

  lemma RoundMonotone(x: real, y: real)
    requires x <= y
    ensures RoundHalfEven(x) <= RoundHalfEven(y)
    ensures y - x > 1.0 ==> RoundHalfEven(x) < RoundHalfEven(y)
  {
  }

  const TEN_8: real := 100000000.0

  /** Rounding to eight decimal places. */
  function Round8(x: real): real {
    RoundHalfEven(x * TEN_8) as real / TEN_8
  }
}
