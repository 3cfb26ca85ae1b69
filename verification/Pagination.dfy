/** Loading a price history page by page from a venue that answers with the first bars at or after a
    time. */
module Pagination {
  import opened Common

  const BATCH_SIZE: nat := 500

  /** The venue's bars are in time order, at least one bar length apart. */
  ghost predicate Spaced(bars: seq<Candle>, barSeconds: int) {
    0 < barSeconds && forall i, j :: 0 <= i < j < |bars| ==> bars[i].timestamp + barSeconds <= bars[j].timestamp
  }

  /** Position of the first bar at or after a time. */
  function FirstFrom(bars: seq<Candle>, time: int): (k: nat)
    ensures k <= |bars|
    ensures forall i :: 0 <= i < k ==> bars[i].timestamp < time
    ensures k < |bars| ==> bars[k].timestamp >= time
  {
    if |bars| == 0 || bars[0].timestamp >= time then 0 else 1 + FirstFrom(bars[1..], time)
  }

  function Fetch(bars: seq<Candle>, since: int, limit: nat): seq<Candle> {
    var lo := FirstFrom(bars, since);
    bars[lo..MinInt(lo + limit, |bars|)]
  }

  /** The bars of a batch that are not after the end. */
  function UpTo(batch: seq<Candle>, end: int): (r: seq<Candle>)
    ensures |r| <= |batch|
  {
    if |batch| == 0 then []
    else if batch[0].timestamp <= end then [batch[0]] + UpTo(batch[1..], end) else UpTo(batch[1..], end)
  }

  /** In a sorted batch the filter cuts off a tail: n bars are not after the end, and it keeps those. */
  lemma {:induction false} UpToIsPrefix(batch: seq<Candle>, end: int, n: nat)
    requires n <= |batch| && forall i :: 0 <= i < |batch| ==> (batch[i].timestamp <= end <==> i < n)
    ensures UpTo(batch, end) == batch[..n]
  {
    if |batch| > 0 {
      var rest := batch[1..];
      assert forall i :: 0 <= i < |rest| ==> rest[i] == batch[i + 1];
      UpToIsPrefix(rest, end, if n == 0 then 0 else n - 1);
    }
  }

  // ------------------------------------------------------------------
  // Deduplication and sorting
  // ------------------------------------------------------------------

  ghost predicate DistinctTimes(candles: seq<Candle>) {
    forall i, j :: 0 <= i < j < |candles| ==> candles[i].timestamp != candles[j].timestamp
  }

  /** Where a time stands, or the length of the sequence. */
  function IndexOfTime(r: seq<Candle>, time: int): (k: nat)
    ensures k <= |r|
    ensures forall i :: 0 <= i < k ==> r[i].timestamp != time
    ensures k < |r| ==> r[k].timestamp == time
  {
    if |r| == 0 || r[0].timestamp == time then 0 else 1 + IndexOfTime(r[1..], time)
  }

  /** One candle per timestamp of the first n, the last one, where the timestamp first appeared. */
  function Distinct(candles: seq<Candle>, n: nat): seq<Candle>
    requires n <= |candles|
  {
    if n == 0 then []
    else
      var before := Distinct(candles, n - 1);
      var c := candles[n - 1];
      var k := IndexOfTime(before, c.timestamp);
      if k < |before| then before[k := c] else before + [c]
  }

  method Deduplicate(candles: seq<Candle>) returns (r: seq<Candle>)
    ensures r == Distinct(candles, |candles|)
  {
    // Position in r of each timestamp seen so far.
    var seen: map<int, nat> := map[];
    r := [];
    for n := 0 to |candles|
      invariant r == Distinct(candles, n)
      invariant forall t :: t in seen ==> seen[t] < |r| && r[seen[t]].timestamp == t
      invariant forall k :: 0 <= k < |r| ==> r[k].timestamp in seen && seen[r[k].timestamp] == k
    {
      var c := candles[n];
      ghost var k := IndexOfTime(r, c.timestamp);
      if c.timestamp in seen {
        assert k == seen[c.timestamp];
        r := r[seen[c.timestamp] := c];
      } else {
        assert k == |r|;
        seen := seen[c.timestamp := |r|];
        r := r + [c];
      }
    }
  }

  lemma {:induction false} DistinctIsDistinct(candles: seq<Candle>, n: nat)
    requires n <= |candles|
    ensures DistinctTimes(Distinct(candles, n))
  {
    if n > 0 {
      DistinctIsDistinct(candles, n - 1);
    }
  }

  /** Every candle kept is the last of those with its timestamp. */
  lemma {:induction false} KeepsTheLast(candles: seq<Candle>, n: nat, k: nat) returns (i: nat)
    requires n <= |candles| && k < |Distinct(candles, n)|
    ensures i < n && candles[i] == Distinct(candles, n)[k]
    ensures forall j :: i < j < n ==> candles[j].timestamp != candles[i].timestamp
  {
    DistinctIsDistinct(candles, n - 1);
    var before := Distinct(candles, n - 1);
    if k == IndexOfTime(before, candles[n - 1].timestamp) {
      i := n - 1;
    } else {
      i := KeepsTheLast(candles, n - 1, k);
    }
  }

  /** No timestamp is lost. */
  lemma {:induction false} KeepsEveryTime(candles: seq<Candle>, n: nat, i: nat) returns (k: nat)
    requires i < n <= |candles|
    ensures k < |Distinct(candles, n)| && Distinct(candles, n)[k].timestamp == candles[i].timestamp
  {
    if i == n - 1 {
      k := IndexOfTime(Distinct(candles, n - 1), candles[i].timestamp);
    } else {
      k := KeepsEveryTime(candles, n - 1, i);
    }
  }

  lemma {:induction false} DistinctStays(candles: seq<Candle>, n: nat)
    requires n <= |candles| && DistinctTimes(candles)
    ensures Distinct(candles, n) == candles[..n]
  {
    if n > 0 {
      DistinctStays(candles, n - 1);
      var before := candles[..n - 1];
      assert forall k :: 0 <= k < |before| ==> before[k] == candles[k];
    }
  }

  function InsertByTime(c: Candle, s: seq<Candle>): seq<Candle> {
    if |s| == 0 then [c]
    else if c.timestamp <= s[0].timestamp then [c] + s
    else [s[0]] + InsertByTime(c, s[1..])
  }

  /** A stable sort by time. */
  function SortByTime(s: seq<Candle>): seq<Candle> {
    if |s| == 0 then [] else InsertByTime(s[0], SortByTime(s[1..]))
  }

  lemma {:induction false} InsertAdds(c: Candle, s: seq<Candle>)
    ensures multiset(InsertByTime(c, s)) == multiset(s) + multiset{c}
  {
    if |s| > 0 {
      assert s == [s[0]] + s[1..];
      InsertAdds(c, s[1..]);
    }
  }

  lemma {:induction false} InsertKeepsOrder(c: Candle, s: seq<Candle>)
    requires TimeOrdered(s)
    ensures TimeOrdered(InsertByTime(c, s))
  {
    if |s| > 0 && c.timestamp > s[0].timestamp {
      var rest := InsertByTime(c, s[1..]);
      InsertKeepsOrder(c, s[1..]);
      InsertAdds(c, s[1..]);
      forall x | x in rest ensures s[0].timestamp <= x.timestamp {
        assert x in multiset(rest);
      }
      InFront(s[0], rest);
    }
  }

  lemma InFront(c: Candle, s: seq<Candle>)
    requires TimeOrdered(s) && forall x :: x in s ==> c.timestamp <= x.timestamp
    ensures TimeOrdered([c] + s)
  {
  }

  lemma {:induction false} SortOrders(s: seq<Candle>)
    ensures TimeOrdered(SortByTime(s)) && multiset(SortByTime(s)) == multiset(s)
  {
    if |s| > 0 {
      assert s == [s[0]] + s[1..];
      SortOrders(s[1..]);
      InsertKeepsOrder(s[0], SortByTime(s[1..]));
      InsertAdds(s[0], SortByTime(s[1..]));
    }
  }

  /** A timestamp that occurs once among the candles occurs once in any rearrangement of them. */
  lemma RearrangedStaysDistinct(s: seq<Candle>, r: seq<Candle>)
    requires DistinctTimes(s) && multiset(r) == multiset(s)
    ensures DistinctTimes(r)
  {
    forall i, j | 0 <= i < j < |r| ensures r[i].timestamp != r[j].timestamp {
      if r[i].timestamp == r[j].timestamp {
        assert r[i] in multiset(r) && r[j] in multiset(r);
        assert r[i] in s && r[j] in s;
        assert r[i] == r[j];
        TwiceIsTwo(r, i, j);
        OnceIsOne(s, r[i]);
      }
    }
  }

  lemma TwiceIsTwo(r: seq<Candle>, i: nat, j: nat)
    requires i < j < |r| && r[i] == r[j]
    ensures multiset(r)[r[i]] >= 2
  {
    assert r == r[..i] + [r[i]] + r[i + 1..j] + [r[j]] + r[j + 1..];
  }

  lemma OnceIsOne(s: seq<Candle>, c: Candle)
    requires DistinctTimes(s) && c in s
    ensures multiset(s)[c] == 1
  {
    var k :| 0 <= k < |s| && s[k] == c;
    assert s == s[..k] + [c] + s[k + 1..];
    assert c !in s[..k] && c !in s[k + 1..];
  }

  /** Whatever was fetched or read, deduplicating and sorting gives a strictly ascending history. */
  lemma CleanedAscends(candles: seq<Candle>)
    ensures StrictlyTimeOrdered(SortByTime(Distinct(candles, |candles|)))
    ensures multiset(SortByTime(Distinct(candles, |candles|))) == multiset(Distinct(candles, |candles|))
  {
    var d := Distinct(candles, |candles|);
    DistinctIsDistinct(candles, |candles|);
    SortOrders(d);
    RearrangedStaysDistinct(d, SortByTime(d));
  }

  lemma {:induction false} SortedStays(s: seq<Candle>)
    requires TimeOrdered(s)
    ensures SortByTime(s) == s
  {
    if |s| > 0 {
      SortedStays(s[1..]);
    }
  }

  /** An ascending history passes deduplication and sorting unchanged. */
  lemma AscendingStays(s: seq<Candle>)
    requires DistinctTimes(s) && TimeOrdered(s)
    ensures SortByTime(Distinct(s, |s|)) == s
  {
    DistinctStays(s, |s|);
    assert s[..|s|] == s;
    SortedStays(s);
  }

  // ------------------------------------------------------------------
  // Pagination
  // ------------------------------------------------------------------

  /** Whether a bar exactly at the end is loaded, if the venue has one: a full last page that stops one
      bar short of the end makes the loop stop before asking for it. */
  predicate EndBarLoaded(bars: seq<Candle>, start: int, end: int, barSeconds: int) {
    var a, b := FirstFrom(bars, start), FirstFrom(bars, end);
    start < end && !(b > a && (b - a) % BATCH_SIZE == 0 && bars[b - 1].timestamp + barSeconds == end)
  }

  predicate HasBarAt(bars: seq<Candle>, time: int) {
    FirstFrom(bars, time) < |bars| && bars[FirstFrom(bars, time)].timestamp == time
  }

  /** One past the last bar that is loaded. */
  function LoadedEnd(bars: seq<Candle>, start: int, end: int, barSeconds: int): (hi: nat)
    ensures FirstFrom(bars, end) <= hi <= |bars|
  {
    var b := FirstFrom(bars, end);
    if HasBarAt(bars, end) && EndBarLoaded(bars, start, end, barSeconds) then b + 1 else b
  }

  /** The history that is loaded: all bars from start to before end, and perhaps the bar at end. */
  function Loaded(bars: seq<Candle>, start: int, end: int, barSeconds: int): seq<Candle> {
    if start >= end then []
    else
      FirstFromMonotone(bars, start, end);
      bars[FirstFrom(bars, start)..LoadedEnd(bars, start, end, barSeconds)]
  }

  lemma FirstFromMonotone(bars: seq<Candle>, s: int, t: int)
    requires s <= t
    ensures FirstFrom(bars, s) <= FirstFrom(bars, t)
  {
  }

  lemma FirstFromIs(bars: seq<Candle>, time: int, k: nat)
    requires k <= |bars| && forall i :: 0 <= i < k ==> bars[i].timestamp < time
    requires k < |bars| ==> bars[k].timestamp >= time
    ensures FirstFrom(bars, time) == k
  {
  }

  /** After a page the next one starts right behind it. */
  lemma NextPage(bars: seq<Candle>, barSeconds: int, p: nat)
    requires Spaced(bars, barSeconds) && 0 < p <= |bars|
    ensures FirstFrom(bars, bars[p - 1].timestamp + barSeconds) == p
  {
    hide FirstFrom;
    forall i | 0 <= i < p ensures bars[i].timestamp < bars[p - 1].timestamp + barSeconds {
      if i < p - 1 {
        assert bars[i].timestamp + barSeconds <= bars[p - 1].timestamp;
      }
    }
    if p < |bars| {
      assert bars[p - 1].timestamp + barSeconds <= bars[p].timestamp;
    }
    FirstFromIs(bars, bars[p - 1].timestamp + barSeconds, p);
  }

  /** Where the loop stands before a page: p bars are behind it, in full pages since the first at a. */
  ghost predicate AtPage(bars: seq<Candle>, start: int, end: int, barSeconds: int, since: int, p: nat) {
    var a := FirstFrom(bars, start);
    && a <= p <= |bars| && FirstFrom(bars, since) == p && (p - a) % BATCH_SIZE == 0
    && (p == a ==> since == start)
    && (p > a ==> start < end && since == bars[p - 1].timestamp + barSeconds && bars[p - 1].timestamp <= end)
  }

  /** Where the bars of the page that starts at p end, once those after the end are cut off. */
  function PageEnd(bars: seq<Candle>, end: int, p: nat): int {
    MinInt(FirstFrom(bars, end + 1), p + BATCH_SIZE)
  }

  lemma FilteredPage(bars: seq<Candle>, end: int, barSeconds: int, since: int, p: nat)
    requires Spaced(bars, barSeconds) && FirstFrom(bars, since) == p && since < end
    ensures p <= PageEnd(bars, end, p) <= |bars|
    ensures UpTo(Fetch(bars, since, BATCH_SIZE), end) == bars[p..PageEnd(bars, end, p)]
  {
    hide FirstFrom;
    FirstFromMonotone(bars, since, end + 1);
    var q := PageEnd(bars, end, p);
    var batch := Fetch(bars, since, BATCH_SIZE);
    assert batch == bars[p..MinInt(p + BATCH_SIZE, |bars|)];
    forall i | 0 <= i < |batch| ensures batch[i].timestamp <= end <==> i < q - p {
      assert batch[i] == bars[p + i];
      AfterEndFrom(bars, end, barSeconds, p + i);
    }
    UpToIsPrefix(batch, end, q - p);
  }

  lemma AfterEndFrom(bars: seq<Candle>, end: int, barSeconds: int, i: nat)
    requires Spaced(bars, barSeconds) && i < |bars|
    ensures bars[i].timestamp <= end <==> i < FirstFrom(bars, end + 1)
  {
    hide FirstFrom;
    var u := FirstFrom(bars, end + 1);
    if u < i {
      assert bars[u].timestamp + barSeconds <= bars[i].timestamp;
    }
  }

  lemma BarsUpToEnd(bars: seq<Candle>, end: int, barSeconds: int)
    requires Spaced(bars, barSeconds)
    ensures FirstFrom(bars, end + 1) == FirstFrom(bars, end) + if HasBarAt(bars, end) then 1 else 0
  {
    hide FirstFrom;
    var b := FirstFrom(bars, end);
    if HasBarAt(bars, end) {
      if b + 1 < |bars| {
        assert bars[b].timestamp + barSeconds <= bars[b + 1].timestamp;
      }
      FirstFromIs(bars, end + 1, b + 1);
    } else {
      FirstFromIs(bars, end + 1, b);
    }
  }

  lemma StartBeforeEnd(bars: seq<Candle>, start: int, end: int, barSeconds: int, since: int, p: nat)
    requires AtPage(bars, start, end, barSeconds, since, p) && since < end
    ensures start < end
  {
  }

  /** A page that is not full is the last one, and has seen every bar up to the end. */
  lemma ShortPage(bars: seq<Candle>, start: int, end: int, barSeconds: int, since: int, p: nat)
    requires Spaced(bars, barSeconds) && AtPage(bars, start, end, barSeconds, since, p) && since < end
    requires PageEnd(bars, end, p) - p < BATCH_SIZE
    ensures PageEnd(bars, end, p) == LoadedEnd(bars, start, end, barSeconds)
  {
    hide FirstFrom;
    var a, b := FirstFrom(bars, start), FirstFrom(bars, end);
    BarsUpToEnd(bars, end, barSeconds);
    FirstFromMonotone(bars, since, end);
    if HasBarAt(bars, end) && b > a && (b - a) % BATCH_SIZE == 0 {
      MultiplesApart(p - a, b - a);
      assert p == b;
    }
  }

  lemma MultiplesApart(x: int, y: int)
    requires x % 500 == 0 && y % 500 == 0 && x <= y < x + 500
    ensures x == y
  {
  }

  /** A full page brings the loop strictly closer to the end. */
  lemma Advances(bars: seq<Candle>, start: int, end: int, barSeconds: int, since: int, p: nat)
    requires Spaced(bars, barSeconds) && AtPage(bars, start, end, barSeconds, since, p) && since < end
    requires p + BATCH_SIZE == PageEnd(bars, end, p) <= |bars|
    ensures var q := p + BATCH_SIZE;
      && bars[q - 1].timestamp + barSeconds > since
      && AtPage(bars, start, end, barSeconds, bars[q - 1].timestamp + barSeconds, q)
  {
    hide FirstFrom;
    var q := p + BATCH_SIZE;
    NextPage(bars, barSeconds, q);
    AfterEndFrom(bars, end, barSeconds, q - 1);
    if p < q - 1 {
      assert bars[p].timestamp + barSeconds <= bars[q - 1].timestamp;
    }
  }

  /** A loop that ends because the next page would start at or after the end. */
  lemma StoppedAtEnd(bars: seq<Candle>, start: int, end: int, barSeconds: int, since: int, p: nat)
    requires Spaced(bars, barSeconds) && AtPage(bars, start, end, barSeconds, since, p) && since >= end
    ensures if start < end then p == LoadedEnd(bars, start, end, barSeconds) else p == FirstFrom(bars, start)
  {
    hide FirstFrom;
    var a, b := FirstFrom(bars, start), FirstFrom(bars, end);
    if start < end {
      var last := bars[p - 1].timestamp;
      forall i | 0 <= i < p - 1 ensures bars[i].timestamp < last {
        assert bars[i].timestamp + barSeconds <= last;
      }
      if p < |bars| {
        assert last + barSeconds <= bars[p].timestamp;
      }
      if last == end {
        FirstFromIs(bars, end, p - 1);
      } else {
        FirstFromIs(bars, end, p);
      }
    }
  }

  /** The page loop. */
  method LoadPages(bars: seq<Candle>, start: int, end: int, barSeconds: int) returns (all: seq<Candle>)
    requires Spaced(bars, barSeconds)
    ensures all == Loaded(bars, start, end, barSeconds)
  {
    hide FirstFrom, LoadedEnd, UpTo, EndBarLoaded, HasBarAt, PageEnd, Spaced;
    all := [];
    var since := start;
    ghost var a := FirstFrom(bars, start);
    ghost var p: nat := a;
    while since < end
      invariant AtPage(bars, start, end, barSeconds, since, p)
      invariant all == bars[a..p]
      decreases end - since
    {
      StartBeforeEnd(bars, start, end, barSeconds, since, p);
      FilteredPage(bars, end, barSeconds, since, p);
      ghost var q: nat := PageEnd(bars, end, p);
      if q - p < BATCH_SIZE {
        ShortPage(bars, start, end, barSeconds, since, p);
      }
      var batch := Fetch(bars, since, BATCH_SIZE);
      if |batch| == 0 {
        return;
      }
      batch := UpTo(batch, end);
      all := all + batch;
      assert all == bars[a..q];
      if |batch| < BATCH_SIZE {
        return;
      }
      Advances(bars, start, end, barSeconds, since, p);
      since := batch[|batch| - 1].timestamp + barSeconds;
      p := q;
    }
    StoppedAtEnd(bars, start, end, barSeconds, since, p);
  }

  method PaginateAndLoad(bars: seq<Candle>, start: int, end: int, barSeconds: int) returns (r: seq<Candle>)
    requires Spaced(bars, barSeconds)
    ensures r == Loaded(bars, start, end, barSeconds)
  {
    hide Loaded, Distinct, SortByTime;
    r := LoadPages(bars, start, end, barSeconds);
    LoadedAscends(bars, start, end, barSeconds);
    AscendingStays(r);
    r := Deduplicate(r);
    r := SortByTime(r);
  }

  // ------------------------------------------------------------------
  // What the loaded history contains
  // ------------------------------------------------------------------

  lemma LoadedAscends(bars: seq<Candle>, start: int, end: int, barSeconds: int)
    requires Spaced(bars, barSeconds)
    ensures StrictlyTimeOrdered(Loaded(bars, start, end, barSeconds))
  {
    hide FirstFrom, LoadedEnd;
    if start < end {
      FirstFromMonotone(bars, start, end);
      var a, r := FirstFrom(bars, start), Loaded(bars, start, end, barSeconds);
      forall i, j | 0 <= i < j < |r| ensures r[i].timestamp < r[j].timestamp {
        assert bars[a + i].timestamp + barSeconds <= bars[a + j].timestamp;
      }
    }
  }

  lemma LoadedIsInside(bars: seq<Candle>, start: int, end: int, barSeconds: int, c: Candle)
    requires Spaced(bars, barSeconds) && c in Loaded(bars, start, end, barSeconds)
    ensures c in bars && start <= c.timestamp <= end
  {
    hide FirstFrom;
    FirstFromMonotone(bars, start, end);
    var a, r := FirstFrom(bars, start), Loaded(bars, start, end, barSeconds);
    var i :| 0 <= i < |r| && r[i] == c;
    assert bars[a + i] == c;
    BarsUpToEnd(bars, end, barSeconds);
    AfterEndFrom(bars, end, barSeconds, a + i);
    AfterEndFrom(bars, start - 1, barSeconds, a + i);
  }

  lemma InsideIsLoaded(bars: seq<Candle>, start: int, end: int, barSeconds: int, c: Candle)
    requires Spaced(bars, barSeconds) && c in bars && start <= c.timestamp < end
    ensures c in Loaded(bars, start, end, barSeconds)
  {
    hide FirstFrom;
    FirstFromMonotone(bars, start, end);
    var i :| 0 <= i < |bars| && bars[i] == c;
    AfterEndFrom(bars, start - 1, barSeconds, i);
    AfterEndFrom(bars, end - 1, barSeconds, i);
    assert Loaded(bars, start, end, barSeconds)[i - FirstFrom(bars, start)] == c;
  }

  /** The loaded history is strictly ascending, lies between start and end, and holds every bar of the
      venue from start to before end exactly once. */
  lemma HistoryIsComplete(bars: seq<Candle>, start: int, end: int, barSeconds: int)
    requires Spaced(bars, barSeconds)
    ensures var r := Loaded(bars, start, end, barSeconds);
      && StrictlyTimeOrdered(r)
      && (forall c :: c in r ==> c in bars && start <= c.timestamp <= end)
      && (forall c :: c in bars && start <= c.timestamp < end ==> c in r)
  {
    hide Loaded;
    var r := Loaded(bars, start, end, barSeconds);
    LoadedAscends(bars, start, end, barSeconds);
    forall c | c in r ensures c in bars && start <= c.timestamp <= end {
      LoadedIsInside(bars, start, end, barSeconds, c);
    }
    forall c | c in bars && start <= c.timestamp < end ensures c in r {
      InsideIsLoaded(bars, start, end, barSeconds, c);
    }
  }

  /** A bar exactly at the end is missing if and only if the bars before it fill whole pages and the
      last of them is the bar immediately before it. */
  lemma EndBarMissingIff(bars: seq<Candle>, start: int, end: int, barSeconds: int, c: Candle)
    requires Spaced(bars, barSeconds) && start < end && c in bars && c.timestamp == end
    ensures var a, b := FirstFrom(bars, start), FirstFrom(bars, end);
      c !in Loaded(bars, start, end, barSeconds) <==>
        a < b && (b - a) % BATCH_SIZE == 0 && bars[b - 1].timestamp + barSeconds == end
  {
    hide FirstFrom, Loaded;
    EndBarPosition(bars, end, barSeconds, c);
    if EndBarLoaded(bars, start, end, barSeconds) {
      LoadedWithEndBar(bars, start, end, barSeconds);
    } else {
      LoadedWithoutEndBar(bars, start, end, barSeconds);
    }
  }

  lemma EndBarPosition(bars: seq<Candle>, end: int, barSeconds: int, c: Candle)
    requires Spaced(bars, barSeconds) && c in bars && c.timestamp == end
    ensures HasBarAt(bars, end) && bars[FirstFrom(bars, end)] == c
  {
    hide FirstFrom;
    var i :| 0 <= i < |bars| && bars[i] == c;
    AfterEndFrom(bars, end - 1, barSeconds, i);
    AfterEndFrom(bars, end, barSeconds, i);
    BarsUpToEnd(bars, end, barSeconds);
  }

  lemma LoadedWithEndBar(bars: seq<Candle>, start: int, end: int, barSeconds: int)
    requires start < end && HasBarAt(bars, end) && EndBarLoaded(bars, start, end, barSeconds)
    ensures bars[FirstFrom(bars, end)] in Loaded(bars, start, end, barSeconds)
  {
    hide FirstFrom, EndBarLoaded;
    FirstFromMonotone(bars, start, end);
    var a, b := FirstFrom(bars, start), FirstFrom(bars, end);
    assert Loaded(bars, start, end, barSeconds)[b - a] == bars[b];
  }

  lemma LoadedWithoutEndBar(bars: seq<Candle>, start: int, end: int, barSeconds: int)
    requires start < end && !EndBarLoaded(bars, start, end, barSeconds)
    ensures forall x :: x in Loaded(bars, start, end, barSeconds) ==> x.timestamp < end
  {
    hide FirstFrom, EndBarLoaded;
    FirstFromMonotone(bars, start, end);
    var a, r := FirstFrom(bars, start), Loaded(bars, start, end, barSeconds);
    forall x | x in r ensures x.timestamp < end {
      var k :| 0 <= k < |r| && r[k] == x;
      assert x == bars[a + k];
    }
  }

  /** One whole page of minute bars and one bar at the end: that bar is never asked for. */
  lemma EndBarCanBeMissing() returns (bars: seq<Candle>, start: int, end: int, barSeconds: int, c: Candle)
    ensures Spaced(bars, barSeconds) && start < end && c in bars && c.timestamp == end
    ensures c !in Loaded(bars, start, end, barSeconds)
  {
    hide FirstFrom, Loaded;
    bars := seq(BATCH_SIZE + 1, i => Candle("S", 60 * i, 1.0, 1.0, 1.0, 1.0, 1.0));
    start, end, barSeconds, c := 0, 60 * BATCH_SIZE, 60, bars[BATCH_SIZE];
    FirstFromIs(bars, start, 0);
    FirstFromIs(bars, end, BATCH_SIZE);
    EndBarMissingIff(bars, start, end, barSeconds, c);
  }
}
