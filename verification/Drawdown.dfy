/** The one-pass maximum drawdown and what it means: the worst percentage fall between any two
    points of the curve, in time order. */
module Drawdown {
  import opened Common

  /** Percentage lost between two values. */
  function Fall(from: real, to: real): real
    requires from != 0.0
  {
    (from - to) / from * 100.0
  }

  function PrefixMax(e: seq<real>, j: nat): (m: real)
    requires j < |e|
    ensures m >= e[0] && m >= e[j]
  {
    if j == 0 then e[0] else MaxReal(PrefixMax(e, j - 1), e[j])
  }

  /** The fall from the running peak to point j. */
  function DrawdownAt(e: seq<real>, j: nat): real
    requires j < |e| && e[0] > 0.0
  {
    Fall(PrefixMax(e, j), e[j])
  }

  /** The largest fall from the running peak over the first n points, at least zero. */
  function OnePass(e: seq<real>, n: nat): (dd: real)
    requires n <= |e| && (n > 0 ==> e[0] > 0.0)
    ensures dd >= 0.0
  {
    if n == 0 then 0.0 else MaxReal(OnePass(e, n - 1), DrawdownAt(e, n - 1))
  }

  /** start is the first point that attains the running peak at end. */
  ghost predicate PeakAt(e: seq<real>, start: nat, end: nat)
    requires end < |e|
  {
    start <= end && e[start] == PrefixMax(e, end) && forall i :: 0 <= i < start ==> e[i] < e[start]
  }

  /** dd is the fall from the peak at start to end, and end is the first point where the fall from
      the running peak is that large. */
  ghost predicate WorstFall(e: seq<real>, dd: real, start: nat, end: nat)
    requires |e| > 0 && e[0] > 0.0
  {
    && end < |e| && PeakAt(e, start, end) && dd == Fall(e[start], e[end])
    && forall j :: 0 <= j < |e| ==>
         DrawdownAt(e, j) <= dd && (j < end ==> DrawdownAt(e, j) < dd)
  }

  const SECONDS_PER_DAY := 86400

  lemma PrefixMaxBounds(e: seq<real>, i: nat, j: nat)
    requires i <= j < |e|
    ensures e[i] <= PrefixMax(e, j)
    ensures PrefixMax(e, i) <= PrefixMax(e, j)
  {
  }

  lemma FallFromOwnPeak(x: real)
    requires x > 0.0
    ensures Fall(x, x) == 0.0
  {
  }

  /** The maximum drawdown in percent, and the days from its peak to its trough. */
  method MaxDrawdown(e: seq<real>, times: seq<int>) returns (maxDd: real, days: int)
    requires |times| == |e| && (|e| >= 2 ==> e[0] > 0.0)
    ensures |e| < 2 ==> maxDd == 0.0 && days == 0
    ensures |e| >= 2 ==> maxDd == OnePass(e, |e|) && exists start: nat, end: nat ::
      WorstFall(e, maxDd, start, end) && days == (times[end] - times[start]) / SECONDS_PER_DAY
  {
    if |e| < 2 {
      return 0.0, 0;
    }
    hide Fall, PrefixMax, DrawdownAt;
    var peak := e[0];
    maxDd := 0.0;
    var maxStart, maxEnd, start := 0, 0, 0;
    FirstDrawdown(e);
    for i := 0 to |e|
      invariant start < |e| && maxEnd < |e| && (i == 0 ==> peak == e[0] && start == 0)
      invariant i > 0 ==> peak == PrefixMax(e, i - 1) && PeakAt(e, start, i - 1)
      invariant maxDd == OnePass(e, i)
      invariant PeakAt(e, maxStart, maxEnd) && maxDd == DrawdownAt(e, maxEnd)
      invariant maxEnd < i || maxEnd == 0
      invariant forall j :: 0 <= j < i ==> DrawdownAt(e, j) <= maxDd
      invariant forall j :: 0 <= j < maxEnd ==> DrawdownAt(e, j) < maxDd
    {
      var val := e[i];
      PrefixMaxStep(e, i);
      if val > peak {
        peak, start := val, i;
        NewPeak(e, i);
      }
      assert peak == PrefixMax(e, i) && PeakAt(e, start, i);
      DrawdownFromPeak(e, i, peak);
      var dd := (peak - val) / peak * 100.0;
      if dd > maxDd {
        maxDd, maxStart, maxEnd := dd, start, i;
      }
    }
    days := (times[maxEnd] - times[maxStart]) / SECONDS_PER_DAY;
    DrawdownFromPeak(e, maxEnd, e[maxStart]);
    assert WorstFall(e, maxDd, maxStart, maxEnd);
  }

  lemma FirstDrawdown(e: seq<real>)
    requires |e| > 0 && e[0] > 0.0
    ensures PrefixMax(e, 0) == e[0] && DrawdownAt(e, 0) == 0.0
  {
    FallFromOwnPeak(e[0]);
  }

  lemma PrefixMaxStep(e: seq<real>, i: nat)
    requires i < |e|
    ensures PrefixMax(e, i) == if i == 0 then e[0] else MaxReal(PrefixMax(e, i - 1), e[i])
  {
  }

  lemma DrawdownFromPeak(e: seq<real>, j: nat, peak: real)
    requires j < |e| && e[0] > 0.0 && peak == PrefixMax(e, j)
    ensures peak > 0.0 && DrawdownAt(e, j) == Fall(peak, e[j]) == (peak - e[j]) / peak * 100.0
  {
    PrefixMaxBounds(e, 0, j);
  }

  lemma NewPeak(e: seq<real>, i: nat)
    requires i < |e| && (i > 0 ==> e[i] > PrefixMax(e, i - 1))
    ensures forall k :: 0 <= k < i ==> e[k] < e[i]
  {
    forall k | 0 <= k < i ensures e[k] < e[i] {
      PrefixMaxBounds(e, k, i - 1);
    }
  }

  // ------------------------------------------------------------------
  // Against the pairwise definition
  // ------------------------------------------------------------------

  /** dd is the largest percentage fall over all pairs of points in time order. */
  ghost predicate IsPairwiseMax(e: seq<real>, dd: real) {
    && (forall i, j :: 0 <= i <= j < |e| && e[i] > 0.0 ==> Fall(e[i], e[j]) <= dd)
    && exists i, j :: 0 <= i <= j < |e| && e[i] > 0.0 && Fall(e[i], e[j]) == dd
  }

  lemma QuotientIs(n: real, d: real, q: real)
    requires d != 0.0 && n == q * d
    ensures n / d == q
  {
  }

  lemma FallAsRatio(from: real, to: real)
    requires from > 0.0
    ensures Fall(from, to) == (1.0 - to / from) * 100.0
  {
    var y := to / from;
    assert y * from == to;
    QuotientIs(from - to, from, 1.0 - y);
  }

  lemma RatioOrder(a: real, b: real, x: real, y: real)
    requires 0.0 < a <= b && x * a == y * b
    ensures x * a >= 0.0 ==> x >= y && x >= 0.0
    ensures x * a < 0.0 ==> x < 0.0 && (a < b ==> x < y)
  {
    if x * a >= 0.0 {
      assert x >= 0.0 && y >= 0.0;
      assert y * a <= y * b;
      MulCancel(y, x, a);
    } else {
      assert x < 0.0 && y < 0.0;
      if a < b {
        assert y * b < y * a;
        MulCancelStrict(x, y, a);
      }
    }
  }

  /** From a higher start the fall to a value that is not negative is at least as large; to a
      negative value it is smaller. */
  lemma FallMonotone(a: real, b: real, to: real)
    requires 0.0 < a <= b
    ensures to >= 0.0 ==> Fall(a, to) <= Fall(b, to)
    ensures to < 0.0 && a < b ==> Fall(b, to) < Fall(a, to)
    ensures to >= 0.0 ==> Fall(a, to) <= 100.0
    ensures to < 0.0 ==> Fall(a, to) > 100.0
  {
    FallAsRatio(a, to);
    FallAsRatio(b, to);
    var x, y := to / a, to / b;
    assert x * a == to && y * b == to;
    RatioOrder(a, b, x, y);
  }

  lemma {:induction false} PeakIsSomePoint(e: seq<real>, j: nat) returns (i: nat)
    requires j < |e|
    ensures i <= j && e[i] == PrefixMax(e, j)
  {
    if j == 0 || e[j] >= PrefixMax(e, j - 1) {
      i := j;
    } else {
      i := PeakIsSomePoint(e, j - 1);
    }
  }

  lemma {:induction false} OnePassAttained(e: seq<real>, n: nat) returns (j: nat)
    requires 0 < n <= |e| && e[0] > 0.0
    ensures j < n && OnePass(e, n) == DrawdownAt(e, j)
    ensures forall k :: 0 <= k < n ==> DrawdownAt(e, k) <= OnePass(e, n)
  {
    hide DrawdownAt;
    FirstDrawdown(e);
    if n == 1 {
      j := 0;
    } else {
      j := OnePassAttained(e, n - 1);
      if DrawdownAt(e, n - 1) > OnePass(e, n - 1) {
        j := n - 1;
      }
    }
  }

  lemma SomePairAttains(e: seq<real>)
    requires |e| > 0 && e[0] > 0.0
    ensures exists i, j :: 0 <= i <= j < |e| && e[i] > 0.0 && Fall(e[i], e[j]) == OnePass(e, |e|)
  {
    var j := OnePassAttained(e, |e|);
    var i := PeakIsSomePoint(e, j);
    PrefixMaxBounds(e, 0, j);
    assert 0 <= i <= j < |e| && e[i] > 0.0 && Fall(e[i], e[j]) == OnePass(e, |e|);
  }

  /** For a positive start and equity that never goes negative, the one pass finds the pairwise maximum. */
  lemma OnePassIsPairwiseMax(e: seq<real>)
    requires |e| > 0 && e[0] > 0.0 && forall i :: 0 <= i < |e| ==> e[i] >= 0.0
    ensures IsPairwiseMax(e, OnePass(e, |e|))
  {
    hide Fall, OnePass, PrefixMax;
    SomePairAttains(e);
    forall i, j | 0 <= i <= j < |e| && e[i] > 0.0 ensures Fall(e[i], e[j]) <= OnePass(e, |e|) {
      PrefixMaxBounds(e, i, j);
      FallMonotone(e[i], PrefixMax(e, j), e[j]);
      var _ := OnePassAttained(e, |e|);
      assert DrawdownAt(e, j) <= OnePass(e, |e|);
    }
  }

  /** Point k is negative, no positive value before it differs from the start, and no value that is
      negative is a larger multiple of a positive one before it. */
  ghost predicate DeepestFromStart(e: seq<real>, k: nat)
    requires k < |e| && e[0] > 0.0
  {
    && e[k] < 0.0
    && (forall i :: 0 <= i < k && e[i] > 0.0 ==> e[i] == e[0])
    && (forall i, j :: 0 <= i <= j < |e| && e[i] > 0.0 && e[j] < 0.0 ==> e[k] / e[0] <= e[j] / e[i])
  }

  /** For every curve with a positive start, the one pass finds the pairwise maximum if and only if
      equity never goes negative, or the relatively deepest fall below zero over all pairs is one from
      the start, to a point with no other positive value before it. */
  lemma OnePassExactIff(e: seq<real>)
    requires |e| > 0 && e[0] > 0.0
    ensures IsPairwiseMax(e, OnePass(e, |e|)) <==>
      (forall i :: 0 <= i < |e| ==> e[i] >= 0.0) || exists k: nat :: k < |e| && DeepestFromStart(e, k)
  {
    hide OnePass, IsPairwiseMax, DeepestFromStart;
    if forall i :: 0 <= i < |e| ==> e[i] >= 0.0 {
      OnePassIsPairwiseMax(e);
    } else if k: nat :| k < |e| && DeepestFromStart(e, k) {
      DeepestIsFound(e, k);
    } else if IsPairwiseMax(e, OnePass(e, |e|)) {
      var below: nat :| below < |e| && e[below] < 0.0;
      var k := FoundIsDeepest(e, below);
    }
  }

  lemma FlatPrefix(e: seq<real>, k: nat)
    requires k < |e| && 0.0 < e[0] && e[k] < 0.0 && forall i :: 0 <= i < k && e[i] > 0.0 ==> e[i] == e[0]
    ensures PrefixMax(e, k) == e[0]
  {
    PrefixMaxBounds(e, 0, k);
    var p := PeakIsSomePoint(e, k);
  }

  lemma DeepestIsFound(e: seq<real>, k: nat)
    requires k < |e| && e[0] > 0.0 && DeepestFromStart(e, k)
    ensures IsPairwiseMax(e, OnePass(e, |e|))
  {
    hide Fall, OnePass, PrefixMax;
    SomePairAttains(e);
    FlatPrefix(e, k);
    var _ := OnePassAttained(e, |e|);
    assert Fall(e[0], e[k]) == DrawdownAt(e, k) <= OnePass(e, |e|);
    FallMonotone(e[0], e[0], e[k]);
    forall i, j | 0 <= i <= j < |e| && e[i] > 0.0 ensures Fall(e[i], e[j]) <= OnePass(e, |e|) {
      FallMonotone(e[i], e[i], e[j]);
      FallAsRatio(e[0], e[k]);
      FallAsRatio(e[i], e[j]);
    }
  }

  lemma FoundIsDeepest(e: seq<real>, below: nat) returns (k: nat)
    requires below < |e| && e[0] > 0.0 && e[below] < 0.0 && IsPairwiseMax(e, OnePass(e, |e|))
    ensures k < |e| && DeepestFromStart(e, k)
  {
    hide Fall, OnePass, PrefixMax;
    k := OnePassAttained(e, |e|);
    FallMonotone(e[0], e[0], e[below]);
    PrefixMaxBounds(e, 0, k);
    var peak := PrefixMax(e, k);
    FallMonotone(peak, peak, e[k]);
    forall i | 0 <= i < k && e[i] > 0.0 ensures e[i] == peak {
      PrefixMaxBounds(e, i, k);
      FallMonotone(e[i], peak, e[k]);
    }
    forall i, j | 0 <= i <= j < |e| && e[i] > 0.0 && e[j] < 0.0 ensures e[k] / e[0] <= e[j] / e[i] {
      FallAsRatio(e[0], e[k]);
      FallAsRatio(e[i], e[j]);
      assert Fall(e[i], e[j]) <= OnePass(e, |e|) == Fall(e[0], e[k]);
    }
  }

  /** A curve that ends below zero: the one pass reports the fall from 200, the fall from 100 is deeper. */
  lemma NegativeEquityMisleads()
    ensures var e := [100.0, 200.0, -50.0];
      OnePass(e, 3) == 125.0 && Fall(e[0], e[2]) == 150.0 && !IsPairwiseMax(e, OnePass(e, 3))
  {
    var e := [100.0, 200.0, -50.0];
    assert DrawdownAt(e, 0) == 0.0;
    assert DrawdownAt(e, 1) == 0.0;
    assert DrawdownAt(e, 2) == 125.0;
    assert OnePass(e, 1) == 0.0;
    assert OnePass(e, 2) == 0.0;
    assert Fall(e[0], e[2]) == 150.0;
  }

  // ------------------------------------------------------------------
  // The thinned curve
  // ------------------------------------------------------------------

  const MAX_POINTS: nat := 500

  function EveryNth<T>(s: seq<T>, step: nat): seq<T>
    requires step > 0
  {
    if |s| == 0 then []
    else [s[0]] + EveryNth(s[if step < |s| then step else |s|..], step)
  }

  /** The points of the equity curve that a report shows. */
  function Thinned<T>(curve: seq<T>): seq<T> {
    EveryNth(curve, MaxInt(|curve| / MAX_POINTS, 1))
  }

  lemma {:induction false} EveryNthLength<T>(s: seq<T>, step: nat)
    requires step > 0
    ensures var k := |EveryNth(s, step)|;
      |s| <= k * step && (|s| > 0 ==> (k - 1) * step < |s|) && (|s| == 0 ==> k == 0)
  {
    if |s| > 0 {
      var rest := s[if step < |s| then step else |s|..];
      EveryNthLength(rest, step);
      var k := |EveryNth(rest, step)|;
      assert (k + 1) * step == k * step + step;
    }
  }

  /** The points shown are those at the multiples of the step, from the first on. */
  lemma {:induction false} EveryNthAt<T>(s: seq<T>, step: nat, j: nat)
    requires step > 0 && j < |EveryNth(s, step)|
    ensures j * step < |s| && EveryNth(s, step)[j] == s[j * step]
  {
    if j > 0 {
      var rest := s[if step < |s| then step else |s|..];
      EveryNthAt(rest, step, j - 1);
      StepMore(j, step);
    }
  }

  lemma StepMore(j: nat, step: nat)
    ensures j * step == (j - 1) * step + step
    ensures j > 0 ==> (j - 1) * step >= 0
  {
  }

  lemma ThinnedAt<T>(curve: seq<T>, j: nat)
    requires j < |Thinned(curve)|
    ensures var step := if |curve| < 1000 then 1 else |curve| / 500;
      j * step < |curve| && Thinned(curve)[j] == curve[j * step]
  {
    EveryNthAt(curve, MaxInt(|curve| / MAX_POINTS, 1), j);
  }

  /** A report shows more than 500 points exactly for curves of more than 500 points whose length is
      not a multiple of 500, and never more than 999. */
  lemma ThinnedLength<T>(curve: seq<T>)
    ensures |Thinned(curve)| <= MAX_POINTS <==> |curve| <= MAX_POINTS || |curve| % MAX_POINTS == 0
    ensures |Thinned(curve)| <= 999
  {
    var step := MaxInt(|curve| / MAX_POINTS, 1);
    EveryNthLength(curve, step);
    ThinArithmetic(|curve|, step, |Thinned(curve)|);
  }

  /** The bound is attained: a curve of 999 points is shown in full. */
  lemma ThinnedAttains<T>(curve: seq<T>)
    requires |curve| == 999
    ensures |Thinned(curve)| == 999
  {
    EveryNthLength(curve, 1);
    ThinnedLength(curve);
  }

  lemma ThinArithmetic(n: nat, step: nat, k: nat)
    requires step == MaxInt(n / 500, 1) && n <= k * step && (n > 0 ==> (k - 1) * step < n) && (n == 0 ==> k == 0)
    ensures k <= 500 <==> n <= 500 || n % 500 == 0
    ensures k <= 999
  {
    if n >= 500 {
      var r := n % 500;
      assert n == 500 * step + r;
      if k > 500 {
        MulOrder(500, k - 1, step);
      } else {
        MulOrder(k, 500, step);
      }
      if k >= 1000 {
        MulOrder(999, k - 1, step);
      }
    }
  }
}
