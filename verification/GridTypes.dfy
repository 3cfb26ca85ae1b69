/** Parameters of one futures grid and the price levels derived from them. */
module GridTypes {
  import opened Common

  datatype Direction = Long | Short | Neutral

  datatype SpacingMode = Arithmetic | Geometric

  datatype Parameters = Parameters(
    lower: real, upper: real, gridCount: int, direction: Direction, leverage: real,
    mode: SpacingMode, positionSize: real,
    takeProfit: Option<real>, stopLoss: Option<real>, maximumHoldingTime: Option<int>)

  datatype ParameterError = NonPositivePrice | EmptyRange | TooFewLevels | LeverageBelowOne | NeutralDirection

  /** The checks run on construction, in order; None means that the parameters are accepted. */
  function Validate(p: Parameters): (e: Option<ParameterError>)
    ensures e.None? <==> Valid(p)
    ensures e == Some(NonPositivePrice) <==> p.lower <= 0.0 || p.upper <= 0.0
    ensures e.Some? && e.value in {EmptyRange, TooFewLevels, LeverageBelowOne, NeutralDirection} ==> p.lower > 0.0
    ensures e == Some(EmptyRange) <==> 0.0 < p.upper <= p.lower
    ensures e == Some(TooFewLevels) <==> 0.0 < p.lower < p.upper && p.gridCount < 2
    ensures e == Some(LeverageBelowOne) <==> 0.0 < p.lower < p.upper && p.gridCount >= 2 && p.leverage < 1.0
  {
    if p.lower <= 0.0 || p.upper <= 0.0 then Some(NonPositivePrice)
    else if p.lower >= p.upper then Some(EmptyRange)
    else if p.gridCount < 2 then Some(TooFewLevels)
    else if p.leverage < 1.0 then Some(LeverageBelowOne)
    else if p.direction == Neutral then Some(NeutralDirection)
    else None
  }

  predicate Valid(p: Parameters) {
    0.0 < p.lower < p.upper && 2 <= p.gridCount && 1.0 <= p.leverage && p.direction != Neutral
  }

  function StepSize(p: Parameters): real
    requires Valid(p)
  {
    (p.upper - p.lower) / (p.gridCount - 1) as real
  }

  /** Level i before rounding. The floating-point power ratio**i of the geometric mode is an input. */
  function RawLevel(p: Parameters, ratioPower: int -> real, i: int): real
    requires Valid(p)
  {
    if p.mode == Geometric then p.lower * ratioPower(i) else p.lower + StepSize(p) * i as real
  }

  function ComputeLevels(p: Parameters, ratioPower: int -> real): (levels: seq<real>)
    requires Valid(p)
    ensures |levels| == p.gridCount
  {
    seq(p.gridCount, i requires 0 <= i < p.gridCount => Round8(RawLevel(p, ratioPower, i)))
  }

  function TotalNotional(p: Parameters): real {
    p.positionSize * p.gridCount as real
  }

  lemma MulAtLeast(s: real, d: real)
    requires s > 0.0 && d >= 1.0
    ensures s * d >= s
  {
  }

  lemma RawLevelStep(p: Parameters, ratioPower: int -> real, i: int, j: int)
    requires Valid(p) && p.mode == Arithmetic && i < j
    ensures RawLevel(p, ratioPower, j) - RawLevel(p, ratioPower, i) >= StepSize(p) > 0.0
  {
    var s := StepSize(p);
    assert s > 0.0;
    var d := j as real - i as real;
    assert s * j as real - s * i as real == s * d;
    MulAtLeast(s, d);
  }

  /** Arithmetic levels ascend, start and end at the rounded bounds, and stay distinct after
      rounding whenever the step exceeds the rounding unit. */
  lemma ArithmeticLevelsAscend(p: Parameters, ratioPower: int -> real)
    requires Valid(p) && p.mode == Arithmetic
    ensures var levels := ComputeLevels(p, ratioPower);
      && levels[0] == Round8(p.lower) && levels[p.gridCount - 1] == Round8(p.upper)
      && (forall i, j :: 0 <= i < j < p.gridCount ==> levels[i] <= levels[j])
      && (StepSize(p) * TEN_8 > 1.0 ==>
            forall i, j :: 0 <= i < j < p.gridCount ==> levels[i] < levels[j])
  {
    var levels := ComputeLevels(p, ratioPower);
    assert RawLevel(p, ratioPower, 0) == p.lower;
    var n := (p.gridCount - 1) as real;
    assert StepSize(p) * n == p.upper - p.lower;
    assert RawLevel(p, ratioPower, p.gridCount - 1) == p.upper;
    forall i, j | 0 <= i < j < p.gridCount
      ensures levels[i] <= levels[j]
      ensures StepSize(p) * TEN_8 > 1.0 ==> levels[i] < levels[j]
    {
      RawLevelStep(p, ratioPower, i, j);
      RoundMonotone(RawLevel(p, ratioPower, i) * TEN_8, RawLevel(p, ratioPower, j) * TEN_8);
    }
  }

  /** At a step of exactly the rounding unit two levels can coincide, so the strict bound is needed. */
  lemma StepOfOneUnitCollapses(ratioPower: int -> real)
    ensures var p := Parameters(0.000000005, 0.000000025, 3, Long, 1.0, Arithmetic, 1.0, None, None, None);
      Valid(p) && StepSize(p) * TEN_8 == 1.0 &&
      ComputeLevels(p, ratioPower)[1] == ComputeLevels(p, ratioPower)[2]
  {
    var p := Parameters(0.000000005, 0.000000025, 3, Long, 1.0, Arithmetic, 1.0, None, None, None);
    assert StepSize(p) == 0.00000001;
    assert RawLevel(p, ratioPower, 1) * TEN_8 == 1.5;
    assert RawLevel(p, ratioPower, 2) * TEN_8 == 2.5;
    assert RoundHalfEven(1.5) == 2;
    assert RoundHalfEven(2.5) == 2;
  }

  /** Geometric levels ascend and end at the rounded bounds too, for powers that start at one, do not fall
      and reach the ratio of the bounds. */
  lemma GeometricLevelsAscend(p: Parameters, ratioPower: int -> real)
    requires Valid(p) && p.mode == Geometric
    requires ratioPower(0) == 1.0 && ratioPower(p.gridCount - 1) == p.upper / p.lower
    requires forall i, j :: 0 <= i <= j < p.gridCount ==> ratioPower(i) <= ratioPower(j)
    ensures var levels := ComputeLevels(p, ratioPower);
      && levels[0] == Round8(p.lower) && levels[p.gridCount - 1] == Round8(p.upper)
      && forall i, j :: 0 <= i <= j < p.gridCount ==> levels[i] <= levels[j]
  {
    hide Round8;
    var levels := ComputeLevels(p, ratioPower);
    var ratio := p.upper / p.lower;
    assert p.lower * ratio == p.upper;
    assert RawLevel(p, ratioPower, 0) == p.lower;
    assert RawLevel(p, ratioPower, p.gridCount - 1) == p.lower * ratio;
    forall i, j | 0 <= i <= j < p.gridCount ensures levels[i] <= levels[j] {
      MulMonotone(ratioPower(i), ratioPower(j), p.lower);
      Round8Monotone(RawLevel(p, ratioPower, i), RawLevel(p, ratioPower, j));
    }
  }

  lemma Round8Monotone(x: real, y: real)
    requires x <= y
    ensures Round8(x) <= Round8(y)
  {
    RoundMonotone(x * TEN_8, y * TEN_8);
  }
}
