/** Percentiles by linear interpolation between order statistics, and what they mean in terms of counting:
    how many values lie at or below, and at or above. */
module Percentiles {
  import opened Common

  function Insert(x: real, s: seq<real>): (r: seq<real>)
    ensures |r| == |s| + 1 && multiset(r) == multiset(s) + multiset{x}
  {
    if |s| == 0 then [x]
    else if x <= s[0] then [x] + s
    else
      assert s == [s[0]] + s[1..];
      [s[0]] + Insert(x, s[1..])
  }

  function Sort(s: seq<real>): (r: seq<real>)
    ensures |r| == |s| && multiset(r) == multiset(s)
  {
    if |s| == 0 then []
    else
      assert s == [s[0]] + s[1..];
      Insert(s[0], Sort(s[1..]))
  }

  /** Position of a percentile among the order statistics 0 to top. */
  function Rank(q: real, top: real): (rank: real)
    requires 0.0 <= q <= 100.0 && 0.0 <= top
    ensures 0.0 <= rank <= top
  {
    var share := q / 100.0;
    MulAtMost(share, top);
    share * top
  }

  function Between(a: real, b: real, t: real): real {
    a + (b - a) * t
  }

  /** Linear interpolation between the two neighbouring order statistics. */
  function Percentile(xs: seq<real>, q: real): real
    requires |xs| > 0 && 0.0 <= q <= 100.0
  {
    var s := Sort(xs);
    var rank := Rank(q, (|xs| - 1) as real);
    Between(s[rank.Floor], s[MinInt(rank.Floor + 1, |xs| - 1)], rank - rank.Floor as real)
  }

  lemma MulAtMost(a: real, b: real)
    requires 0.0 <= a <= 1.0 && 0.0 <= b
    ensures 0.0 <= a * b <= b
  {
  }

  /** A percentile lies between any bounds of the data. */
  lemma PercentileWithin(xs: seq<real>, q: real, low: real, high: real)
    requires |xs| > 0 && 0.0 <= q <= 100.0
    requires forall i :: 0 <= i < |xs| ==> low <= xs[i] <= high
    ensures low <= Percentile(xs, q) <= high
  {
    var s := Sort(xs);
    forall i | 0 <= i < |s| ensures low <= s[i] <= high {
      assert s[i] in multiset(s);
      assert s[i] in xs;
    }
    var rank := Rank(q, (|xs| - 1) as real);
    Interpolated(s[rank.Floor], s[MinInt(rank.Floor + 1, |xs| - 1)], rank - rank.Floor as real, low, high);
  }

  lemma PartOf(d: real, t: real, p: real)
    requires 0.0 <= t < 1.0 && p == d * t
    ensures d >= 0.0 ==> 0.0 <= p <= d
    ensures d < 0.0 ==> d <= p <= 0.0
  {
    var c := Abs(d);
    if c > 0.0 {
      MulMonotone(0.0, t, c);
      MulMonotone(t, 1.0, c);
      assert t * c == if d >= 0.0 then p else -p;
    }
  }

  lemma Interpolated(a: real, b: real, t: real, low: real, high: real)
    requires low <= a <= high && low <= b <= high && 0.0 <= t < 1.0
    ensures low <= Between(a, b, t) <= high
  {
    PartOf(b - a, t, Between(a, b, t) - a);
  }

  /** Rounded statistics of a constant sample are that constant, rounded. */
  lemma ConstantPercentile(xs: seq<real>, q: real, c: real)
    requires |xs| > 0 && 0.0 <= q <= 100.0 && forall i :: 0 <= i < |xs| ==> xs[i] == c
    ensures Percentile(xs, q) == c
  {
    PercentileWithin(xs, q, c, c);
  }

  // ------------------------------------------------------------------
  // Order statistics by counting
  // ------------------------------------------------------------------

  function CountAtMost(xs: seq<real>, v: real): nat {
    if |xs| == 0 then 0 else (if xs[0] <= v then 1 else 0) + CountAtMost(xs[1..], v)
  }

  function CountAtLeast(xs: seq<real>, v: real): nat {
    if |xs| == 0 then 0 else (if xs[0] >= v then 1 else 0) + CountAtLeast(xs[1..], v)
  }

  /** v is the k-th smallest of the values, counted from zero. */
  ghost predicate IsOrderStatistic(xs: seq<real>, k: nat, v: real) {
    v in xs && CountAtMost(xs, v) >= k + 1 && CountAtLeast(xs, v) >= |xs| - k
  }

  lemma {:induction false} CountsDisjoint(xs: seq<real>, v: real, w: real)
    requires v < w
    ensures CountAtMost(xs, v) + CountAtLeast(xs, w) <= |xs|
  {
    if |xs| > 0 {
      CountsDisjoint(xs[1..], v, w);
    }
  }

  /** Counting determines the value. */
  lemma OrderStatisticUnique(xs: seq<real>, k: nat, v: real, w: real)
    requires IsOrderStatistic(xs, k, v) && IsOrderStatistic(xs, k, w)
    ensures v == w
  {
    if v < w {
      CountsDisjoint(xs, v, w);
    } else if w < v {
      CountsDisjoint(xs, w, v);
    }
  }

  ghost predicate Ascending(s: seq<real>) {
    forall i, j :: 0 <= i <= j < |s| ==> s[i] <= s[j]
  }

  lemma {:induction false} InsertCounts(x: real, s: seq<real>, v: real)
    ensures CountAtMost(Insert(x, s), v) == CountAtMost(s, v) + if x <= v then 1 else 0
    ensures CountAtLeast(Insert(x, s), v) == CountAtLeast(s, v) + if x >= v then 1 else 0
  {
    if |s| > 0 && x > s[0] {
      InsertCounts(x, s[1..], v);
    }
  }

  lemma {:induction false} InsertAscends(x: real, s: seq<real>)
    requires Ascending(s)
    ensures Ascending(Insert(x, s))
  {
    if |s| > 0 && x > s[0] {
      InsertAscends(x, s[1..]);
      var rest := Insert(x, s[1..]);
      forall i | 0 <= i < |rest| ensures s[0] <= rest[i] {
        assert rest[i] in multiset(rest);
        assert rest[i] == x || rest[i] in s[1..];
      }
    }
  }

  lemma {:induction false} SortMeans(s: seq<real>, v: real)
    ensures Ascending(Sort(s))
    ensures CountAtMost(Sort(s), v) == CountAtMost(s, v) && CountAtLeast(Sort(s), v) == CountAtLeast(s, v)
  {
    if |s| > 0 {
      SortMeans(s[1..], v);
      InsertAscends(s[0], Sort(s[1..]));
      InsertCounts(s[0], Sort(s[1..]), v);
    }
  }

  lemma {:induction false} AllAtLeast(s: seq<real>, v: real)
    requires forall i :: 0 <= i < |s| ==> v <= s[i]
    ensures CountAtLeast(s, v) == |s|
  {
    if |s| > 0 {
      AllAtLeast(s[1..], v);
    }
  }

  lemma {:induction false} AscendingCounts(s: seq<real>, k: nat)
    requires Ascending(s) && k < |s|
    ensures CountAtMost(s, s[k]) >= k + 1 && CountAtLeast(s, s[k]) >= |s| - k
  {
    if k == 0 {
      AllAtLeast(s, s[0]);
    } else {
      AscendingCounts(s[1..], k - 1);
    }
  }

  lemma SortedIsOrderStatistic(xs: seq<real>, k: nat)
    requires k < |xs|
    ensures IsOrderStatistic(xs, k, Sort(xs)[k])
  {
    var s := Sort(xs);
    SortMeans(xs, s[k]);
    AscendingCounts(s, k);
    assert s[k] in multiset(s);
  }

  /** Where a percentile stands: between places k and k + 1 of the sorted values, a share t of the way. */
  lemma PercentilePlace(xs: seq<real>, q: real) returns (k: nat, t: real)
    requires |xs| > 0 && 0.0 <= q <= 100.0
    ensures k < |xs| && 0.0 <= t < 1.0 && Rank(q, (|xs| - 1) as real) == k as real + t
    ensures Percentile(xs, q) == Between(Sort(xs)[k], Sort(xs)[MinInt(k + 1, |xs| - 1)], t)
  {
    hide Sort, Between;
    var rank := Rank(q, (|xs| - 1) as real);
    k, t := rank.Floor, rank - rank.Floor as real;
  }

  lemma BetweenGrows(a: real, b: real, t: real, u: real)
    requires a <= b && t <= u
    ensures Between(a, b, t) <= Between(a, b, u)
  {
    MulMonotoneFrom(t, u, b - a);
  }

  /** A percentile is the linear interpolation, at its rank among the order statistics, between the two
      neighbouring ones; both are determined by counting. */
  lemma PercentileMeans(xs: seq<real>, q: real) returns (k: nat, t: real, a: real, b: real)
    requires |xs| > 0 && 0.0 <= q <= 100.0
    ensures k < |xs| && 0.0 <= t < 1.0 && q / 100.0 * (|xs| - 1) as real == k as real + t
    ensures IsOrderStatistic(xs, k, a)
    ensures if k + 1 < |xs| then IsOrderStatistic(xs, k + 1, b) else b == a
    ensures a <= Percentile(xs, q) <= b && Percentile(xs, q) == a + (b - a) * t
  {
    hide Sort, IsOrderStatistic, Percentile, Rank, Between;
    k, t := PercentilePlace(xs, q);
    RankIs(q, (|xs| - 1) as real);
    var next := MinInt(k + 1, |xs| - 1);
    a, b := Sort(xs)[k], Sort(xs)[next];
    SortedIsOrderStatistic(xs, k);
    SortedIsOrderStatistic(xs, next);
    SortMeans(xs, 0.0);
    Interpolated(a, b, t, a, b);
    BetweenIs(a, b, t);
  }

  lemma BetweenIs(a: real, b: real, t: real)
    ensures Between(a, b, t) == a + (b - a) * t
  {
  }

  /** The percentile 0 is the minimum and 100 the maximum of the values. */
  lemma PercentileEnds(xs: seq<real>)
    requires |xs| > 0
    ensures Percentile(xs, 0.0) in xs && forall x :: x in xs ==> Percentile(xs, 0.0) <= x
    ensures Percentile(xs, 100.0) in xs && forall x :: x in xs ==> x <= Percentile(xs, 100.0)
  {
    hide Sort, Percentile;
    EndsAreSortedEnds(xs);
    SortedBounds(xs);
  }

  lemma EndsAreSortedEnds(xs: seq<real>)
    requires |xs| > 0
    ensures Percentile(xs, 0.0) == Sort(xs)[0] && Percentile(xs, 100.0) == Sort(xs)[|xs| - 1]
  {
    hide Sort, Percentile, Rank, Between;
    EndRanks((|xs| - 1) as real);
    var k, t := PercentilePlace(xs, 0.0);
    WholePlace(k, t, 0);
    var l, u := PercentilePlace(xs, 100.0);
    WholePlace(l, u, |xs| - 1);
    NoShare(Sort(xs)[k], Sort(xs)[MinInt(k + 1, |xs| - 1)]);
    NoShare(Sort(xs)[l], Sort(xs)[MinInt(l + 1, |xs| - 1)]);
  }

  lemma EndRanks(top: real)
    requires 0.0 <= top
    ensures Rank(0.0, top) == 0.0 && Rank(100.0, top) == top
  {
  }

  lemma WholePlace(k: nat, t: real, m: nat)
    requires 0.0 <= t < 1.0 && k as real + t == m as real
    ensures k == m && t == 0.0
  {
  }

  lemma NoShare(a: real, b: real)
    ensures Between(a, b, 0.0) == a
  {
  }

  lemma SortedBounds(xs: seq<real>)
    requires |xs| > 0
    ensures var s := Sort(xs);
      s[0] in xs && s[|xs| - 1] in xs && forall x :: x in xs ==> s[0] <= x <= s[|xs| - 1]
  {
    hide Sort;
    var s := Sort(xs);
    SortMeans(xs, 0.0);
    assert s[0] in multiset(s) && s[|xs| - 1] in multiset(s);
    forall x | x in xs ensures s[0] <= x <= s[|xs| - 1] {
      assert x in multiset(s);
    }
  }

  /** A percentile does not fall as its percentage rises. */
  lemma PercentileMonotone(xs: seq<real>, q: real, r: real)
    requires |xs| > 0 && 0.0 <= q <= r <= 100.0
    ensures Percentile(xs, q) <= Percentile(xs, r)
  {
    hide Sort, Percentile, Between, Rank;
    var s := Sort(xs);
    SortMeans(xs, 0.0);
    RankMonotone(q, r, (|xs| - 1) as real);
    var i, t := PercentilePlace(xs, q);
    var j, u := PercentilePlace(xs, r);
    PlaceOrder(i, t, j, u);
    var a, b := s[i], s[MinInt(i + 1, |xs| - 1)];
    var c, d := s[j], s[MinInt(j + 1, |xs| - 1)];
    if i == j {
      BetweenGrows(a, b, t, u);
    } else {
      Interpolated(a, b, t, a, b);
      Interpolated(c, d, u, c, d);
    }
  }

  lemma RankIs(q: real, top: real)
    requires 0.0 <= q <= 100.0 && 0.0 <= top
    ensures Rank(q, top) == q / 100.0 * top
  {
  }

  lemma RankMonotone(q: real, r: real, top: real)
    requires 0.0 <= q <= r <= 100.0 && 0.0 <= top
    ensures Rank(q, top) <= Rank(r, top)
  {
    MulMonotoneFrom(q / 100.0, r / 100.0, top);
  }

  lemma PlaceOrder(i: nat, t: real, j: nat, u: real)
    requires 0.0 <= t < 1.0 && 0.0 <= u < 1.0 && i as real + t <= j as real + u
    ensures i <= j && (i == j ==> t <= u)
  {
  }

  lemma MulMonotoneFrom(a: real, b: real, c: real)
    requires a <= b && c >= 0.0
    ensures a * c <= b * c && c * a <= c * b
  {
  }
}
