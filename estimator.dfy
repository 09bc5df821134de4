/**
 * The wait-time estimator: the median service time of recently served entries
 * (`computeAvgServiceSeconds`), the per-entry estimates it feeds (`recomputeEstimates`) and
 * the `/api/eta` answer.
 */
module Estimator {
  import opened Wrappers
  import opened Numbers
  import opened Sorting
  import opened Queue
  import Duration

  /** At most this many served entries are sampled. */
  const RecentWindow: nat := 50
  /** The estimate never goes below this many seconds once there is a sample. */
  const MinServiceSeconds: int := 5

  /** An entry that counts as a completed service: served, with a serving instant. */
  predicate Completed(e: Entry) {
    e.status == Served && e.servedAt.Some?
  }

  function CompletedEntries(es: seq<Entry>): (r: seq<Entry>)
    ensures forall i | 0 <= i < |r| :: Completed(r[i]) && r[i] in es
    ensures forall e | e in es && Completed(e) :: e in r
  {
    if es == [] then []
    else (if Completed(es[0]) then [es[0]] else []) + CompletedEntries(es[1..])
  }

  /** Each completed entry is kept as often as it occurs, and nothing else is kept. */
  lemma {:induction false} CompletedEntriesCount(es: seq<Entry>)
    ensures forall e :: multiset(CompletedEntries(es))[e] == if Completed(e) then multiset(es)[e] else 0
  {
    if es != [] {
      assert es == [es[0]] + es[1..];
      CompletedEntriesCount(es[1..]);
    }
  }

  /** Sort key putting the most recently served first. */
  function LatestFirst(e: Entry): int {
    match e.servedAt
    case Some(t) => -t
    case None => 0
  }

  /** The completed entries, most recently served first, cut to the window. */
  function RecentServed(es: seq<Entry>): (r: seq<Entry>)
    ensures |r| == if |CompletedEntries(es)| <= RecentWindow then |CompletedEntries(es)| else RecentWindow
    ensures forall i | 0 <= i < |r| :: Completed(r[i])
    ensures multiset(r) <= multiset(CompletedEntries(es))
    ensures SortedBy(r, LatestFirst)
  {
    var completed := CompletedEntries(es);
    var sorted := SortBy(completed, LatestFirst);
    forall i | 0 <= i < |sorted| ensures Completed(sorted[i]) {
      SortByMember(completed, LatestFirst, i);
    }
    if |sorted| <= RecentWindow then sorted
    else
      SortedPrefix(sorted, RecentWindow, LatestFirst);
      sorted[..RecentWindow]
  }

  /**
   * The service duration one entry contributes: served minus arrived when it arrived,
   * otherwise served minus issued; nothing when the difference is negative.
   */
  function Sample(e: Entry): seq<int> {
    if e.arrivedAt.Some? && e.servedAt.Some? then
      var d := e.servedAt.value - e.arrivedAt.value;
      if d >= 0 then [d] else []
    else if e.servedAt.Some? then
      var d := e.servedAt.value - e.timestamp;
      if d >= 0 then [d] else []
    else
      []
  }

  function Samples(es: seq<Entry>): (ds: seq<int>)
    ensures |ds| <= |es|
    ensures forall i | 0 <= i < |ds| :: ds[i] >= 0
  {
    if es == [] then [] else Samples(es[..|es| - 1]) + Sample(es[|es| - 1])
  }

  function Identity(x: int): int {
    x
  }

  /** Twice the median of a non-empty ascending list (avoids halves). */
  function TwiceMedian(ds: seq<int>): int
    requires |ds| > 0
  {
    var mid := |ds| / 2;
    if |ds| % 2 == 1 then 2 * ds[mid] else ds[mid - 1] + ds[mid]
  }

  /** `Math.round(median)` of a non-empty ascending list. */
  function RoundedMedian(ds: seq<int>): int
    requires |ds| > 0
  {
    RoundDiv(TwiceMedian(ds), 2)
  }

  /** The average service time the estimates use, in seconds. */
  function AvgServiceSeconds(es: seq<Entry>, defaultAvg: int): int {
    var recent := RecentServed(es);
    if |recent| == 0 then defaultAvg
    else
      var ds := Samples(recent);
      if |ds| == 0 then defaultAvg
      else Max(MinServiceSeconds, RoundedMedian(SortBy(ds, Identity)))
  }

  /** The samples of a prefix grow by the sample of the next entry. */
  lemma SamplesStep(served: seq<Entry>, i: nat)
    requires i < |served|
    ensures Samples(served[..i + 1]) == Samples(served[..i]) + Sample(served[i])
  {
    assert served[..i + 1][..i] == served[..i];
  }

  /** The `for` loop of `computeAvgServiceSeconds`: one duration per usable served entry. */
  method CollectDurations(served: seq<Entry>) returns (durations: seq<int>)
    ensures durations == Samples(served)
  {
    durations := [];
    for i := 0 to |served|
      invariant durations == Samples(served[..i])
    {
      var e := served[i];
      SamplesStep(served, i);
      if e.arrivedAt.Some? && e.servedAt.Some? {
        var d := e.servedAt.value - e.arrivedAt.value;
        if d >= 0 {
          durations := durations + [d];
        }
      } else if e.servedAt.Some? {
        var d := e.servedAt.value - e.timestamp;
        if d >= 0 {
          durations := durations + [d];
        }
      }
    }
    assert served[..|served|] == served;
  }

  /** `computeAvgServiceSeconds`: the durations of the recent served entries, then the median. */
  method ComputeAvgServiceSeconds(es: seq<Entry>, defaultAvg: int) returns (avg: int)
    ensures avg == AvgServiceSeconds(es, defaultAvg)
  {
    var served := RecentServed(es);
    if |served| == 0 {
      return defaultAvg;
    }
    var durations := CollectDurations(served);
    if |durations| == 0 {
      return defaultAvg;
    }
    var sorted := SortBy(durations, Identity);
    var doubled, median := MedianOf(sorted);
    TwiceMedianUnique(sorted, doubled);
    avg := Max(MinServiceSeconds, median);
  }

  /**
   * The median step of `computeAvgServiceSeconds` on the sorted durations: `doubled` is twice
   * the median (an integer even when the median is a half), `median` is its `Math.round`.
   */
  method MedianOf(sorted: seq<int>) returns (doubled: int, median: int)
    requires |sorted| > 0 && SortedBy(sorted, Identity)
    ensures IsTwiceMedian(sorted, doubled)
    ensures median == RoundDiv(doubled, 2)
  {
    var mid := |sorted| / 2;
    doubled := if |sorted| % 2 == 1 then 2 * sorted[mid] else sorted[mid - 1] + sorted[mid];
    TwiceMedianIsMedian(sorted);
    median := RoundDiv(doubled, 2);
  }

  // ---- The median, stated by counting ----

  /** Indices of the samples not above t / 2. */
  function AtMostHalf(ds: seq<int>, t: int): set<int> {
    set i | 0 <= i < |ds| && 2 * ds[i] <= t
  }

  /** Indices of the samples not below t / 2. */
  function AtLeastHalf(ds: seq<int>, t: int): set<int> {
    set i | 0 <= i < |ds| && 2 * ds[i] >= t
  }

  /**
   * t / 2 is a median of ds: at least half of the samples (rounded up) lie on each side of
   * it; for an even count it is the mean of the two middle samples.
   */
  predicate IsTwiceMedian(ds: seq<int>, t: int) {
    && |AtMostHalf(ds, t)| >= (|ds| + 1) / 2
    && |AtLeastHalf(ds, t)| >= (|ds| + 1) / 2
    && (|ds| % 2 == 0 && |ds| > 0 ==> t == ds[|ds| / 2 - 1] + ds[|ds| / 2])
  }

  /** The integers from lo up to, not including, hi. */
  function Range(lo: int, hi: int): (r: set<int>)
    ensures forall i :: i in r <==> lo <= i < hi
    ensures |r| == if lo <= hi then hi - lo else 0
    decreases hi - lo
  {
    if lo >= hi then {} else {lo} + Range(lo + 1, hi)
  }

  lemma SubsetCard(a: set<int>, b: set<int>)
    requires a <= b
    ensures |a| <= |b|
  {
    assert b == a + (b - a);
    assert a * (b - a) == {};
  }

  /** TwiceMedian is twice a median of an ascending list. */
  lemma TwiceMedianIsMedian(ds: seq<int>)
    requires |ds| > 0 && SortedBy(ds, Identity)
    ensures IsTwiceMedian(ds, TwiceMedian(ds))
  {
    LowerHalfAtMost(ds);
    UpperHalfAtLeast(ds);
  }

  lemma LowerHalfAtMost(ds: seq<int>)
    requires |ds| > 0 && SortedBy(ds, Identity)
    ensures |AtMostHalf(ds, TwiceMedian(ds))| >= (|ds| + 1) / 2
  {
    var n, m, t := |ds|, |ds| / 2, TwiceMedian(ds);
    var k := (n + 1) / 2;
    var lower := Range(0, k);
    if n % 2 == 1 {
      assert k == m + 1 && t == 2 * ds[m];
      forall i | i in lower ensures i in AtMostHalf(ds, t) {
        if i < m { assert Identity(ds[i]) <= Identity(ds[m]); }
      }
    } else {
      assert k == m && t == ds[m - 1] + ds[m];
      assert Identity(ds[m - 1]) <= Identity(ds[m]);
      forall i | i in lower ensures i in AtMostHalf(ds, t) {
        if i < m - 1 { assert Identity(ds[i]) <= Identity(ds[m - 1]); }
      }
    }
    SubsetCard(lower, AtMostHalf(ds, t));
  }

  lemma UpperHalfAtLeast(ds: seq<int>)
    requires |ds| > 0 && SortedBy(ds, Identity)
    ensures |AtLeastHalf(ds, TwiceMedian(ds))| >= (|ds| + 1) / 2
  {
    var n, m, t := |ds|, |ds| / 2, TwiceMedian(ds);
    assert n - (n + 1) / 2 == m;
    var upper := Range(m, n);
    if n % 2 == 0 {
      assert t == ds[m - 1] + ds[m];
      assert Identity(ds[m - 1]) <= Identity(ds[m]);
    }
    forall i | i in upper ensures i in AtLeastHalf(ds, t) {
      if i > m { assert Identity(ds[m]) <= Identity(ds[i]); }
    }
    SubsetCard(upper, AtLeastHalf(ds, t));
  }

  /** The counting statement fixes the median: only TwiceMedian meets it. */
  lemma TwiceMedianUnique(ds: seq<int>, t: int)
    requires |ds| > 0 && SortedBy(ds, Identity) && IsTwiceMedian(ds, t)
    ensures t == TwiceMedian(ds)
  {
    var n, m := |ds|, |ds| / 2;
    if n % 2 == 1 {
      if 2 * ds[m] > t {
        forall i | m <= i < n ensures 2 * ds[i] > t {
          if i > m { assert Identity(ds[m]) <= Identity(ds[i]); }
        }
        SubsetCard(AtMostHalf(ds, t), Range(0, m));
        assert false;
      } else if 2 * ds[m] < t {
        forall i | 0 <= i <= m ensures 2 * ds[i] < t {
          if i < m { assert Identity(ds[i]) <= Identity(ds[m]); }
        }
        SubsetCard(AtLeastHalf(ds, t), Range(m + 1, n));
        assert false;
      }
    }
  }

  // ---- What the average promises ----

  /** With no served entry that has a serving instant, the configured default is used. */
  lemma {:induction false} NoCompletedMeansDefault(es: seq<Entry>, defaultAvg: int)
    requires forall i | 0 <= i < |es| :: !Completed(es[i])
    ensures AvgServiceSeconds(es, defaultAvg) == defaultAvg
  {
  }

  /**
   * With no usable duration among the recent served entries (none at all, or only negative
   * differences), the configured default is used.
   */
  lemma NoSampleMeansDefault(es: seq<Entry>, defaultAvg: int)
    requires |Samples(RecentServed(es))| == 0
    ensures AvgServiceSeconds(es, defaultAvg) == defaultAvg
  {
  }

  /** The median of an ascending list lies between its smallest and largest element. */
  lemma MedianWithinRange(ds: seq<int>)
    requires |ds| > 0 && SortedBy(ds, Identity)
    ensures ds[0] <= RoundedMedian(ds) <= ds[|ds| - 1]
  {
    var mid := |ds| / 2;
    assert Identity(ds[0]) <= Identity(ds[mid]) <= Identity(ds[|ds| - 1]);
    if |ds| % 2 == 0 {
      assert Identity(ds[0]) <= Identity(ds[mid - 1]) <= Identity(ds[mid]);
    }
  }

  /**
   * Robustness to outliers: with at least three samples, making the largest sample even
   * larger does not move the median.
   */
  lemma MedianIgnoresLargestOutlier(ds: seq<int>, outlier: int)
    requires |ds| >= 3 && SortedBy(ds, Identity) && outlier >= ds[|ds| - 1]
    ensures SortedBy(ds[..|ds| - 1] + [outlier], Identity)
    ensures RoundedMedian(ds[..|ds| - 1] + [outlier]) == RoundedMedian(ds)
  {
    var ds' := ds[..|ds| - 1] + [outlier];
    forall i, j | 0 <= i < j < |ds'| ensures Identity(ds'[i]) <= Identity(ds'[j]) {
      if j < |ds| - 1 {
        assert ds'[i] == ds[i] && ds'[j] == ds[j];
      } else {
        assert ds'[i] == ds[i] && Identity(ds[i]) <= Identity(ds[|ds| - 1]);
      }
    }
  }

  /**
   * When some recent served entry yields a duration, the average is the rounded median of
   * those durations, at least five seconds, and never above the longest duration
   * unless that floor applies.
   */
  lemma AvgFromSamples(es: seq<Entry>, defaultAvg: int)
    requires |Samples(RecentServed(es))| > 0
    ensures var ds := SortBy(Samples(RecentServed(es)), Identity);
      && AvgServiceSeconds(es, defaultAvg) == Max(MinServiceSeconds, RoundedMedian(ds))
      && AvgServiceSeconds(es, defaultAvg) >= MinServiceSeconds
      && (AvgServiceSeconds(es, defaultAvg) == MinServiceSeconds
          || (ds[0] <= AvgServiceSeconds(es, defaultAvg) <= ds[|ds| - 1]))
  {
    var ds := SortBy(Samples(RecentServed(es)), Identity);
    MedianWithinRange(ds);
  }

  /** Two samples of 100 and 300 seconds give 200 seconds. */
  lemma TwoSampleMedianExample()
    ensures RoundedMedian([100, 300]) == 200
  {
  }

  /** The window holds the most recently served entries: any completed entry left out was served no later than every entry kept. */
  lemma {:induction false} RecentAreMostRecent(es: seq<Entry>, e: Entry)
    requires e in es && Completed(e) && e !in RecentServed(es)
    ensures forall i | 0 <= i < |RecentServed(es)| :: e.servedAt.value <= RecentServed(es)[i].servedAt.value
  {
    var sorted := SortBy(CompletedEntries(es), LatestFirst);
    var j := WindowPosition(es, e);
    var recent := RecentServed(es);
    assert forall i | 0 <= i < RecentWindow :: recent[i] == sorted[i] && sorted[i].servedAt.Some?;
    LaterServedEarlier(sorted, RecentWindow, j);
  }

  /** A completed entry left out of the window sits after the window in the sorted completed entries. */
  lemma WindowPosition(es: seq<Entry>, e: Entry) returns (j: nat)
    requires e in es && Completed(e) && e !in RecentServed(es)
    ensures var sorted := SortBy(CompletedEntries(es), LatestFirst);
      && RecentWindow <= j < |sorted| && sorted[j] == e
      && RecentServed(es) == sorted[..RecentWindow]
  {
    var c := CompletedEntries(es);
    var sorted := SortBy(c, LatestFirst);
    assert e in c;
    assert e in multiset(sorted);
    j :| 0 <= j < |sorted| && sorted[j] == e;
  }

  /**
   * In a list ordered most recent first, an entry at position j with a serving instant was
   * served no later than each entry with one among the first k <= j.
   */
  lemma LaterServedEarlier(sorted: seq<Entry>, k: nat, j: nat)
    requires k <= j < |sorted| && SortedBy(sorted, LatestFirst) && sorted[j].servedAt.Some?
    requires forall i | 0 <= i < k :: sorted[i].servedAt.Some?
    ensures forall i | 0 <= i < k :: sorted[j].servedAt.value <= sorted[i].servedAt.value
  {
    forall i | 0 <= i < k ensures sorted[j].servedAt.value <= sorted[i].servedAt.value {
      assert LatestFirst(sorted[i]) <= LatestFirst(sorted[j]);
    }
  }

  /** Appending an entry that is not a completed service leaves the average unchanged. */
  lemma {:induction false} AvgIgnoresAppend(es: seq<Entry>, x: Entry, defaultAvg: int)
    requires !Completed(x)
    ensures AvgServiceSeconds(es + [x], defaultAvg) == AvgServiceSeconds(es, defaultAvg)
  {
    CompletedAppend(es, x);
    assert RecentServed(es + [x]) == RecentServed(es);
  }

  lemma {:induction false} CompletedAppend(es: seq<Entry>, x: Entry)
    requires !Completed(x)
    ensures CompletedEntries(es + [x]) == CompletedEntries(es)
  {
    if es == [] {
      assert [x][1..] == [];
    } else {
      assert (es + [x])[1..] == es[1..] + [x];
      CompletedAppend(es[1..], x);
    }
  }

  /**
   * Replacing an entry that is not a completed service by another that is not one leaves
   * the average unchanged.
   */
  lemma {:induction false} AvgIgnoresUpdate(es: seq<Entry>, i: nat, x: Entry, defaultAvg: int)
    requires i < |es| && !Completed(es[i]) && !Completed(x)
    ensures AvgServiceSeconds(es[i := x], defaultAvg) == AvgServiceSeconds(es, defaultAvg)
  {
    CompletedUpdate(es, i, x);
    assert RecentServed(es[i := x]) == RecentServed(es);
  }

  lemma {:induction false} CompletedUpdate(es: seq<Entry>, i: nat, x: Entry)
    requires i < |es| && !Completed(es[i]) && !Completed(x)
    ensures CompletedEntries(es[i := x]) == CompletedEntries(es)
  {
    if i > 0 {
      assert es[i := x][1..] == es[1..][i - 1 := x];
      CompletedUpdate(es[1..], i - 1, x);
    }
  }

  // ---- Estimates ----

  /** The configured number of parallel service lines, never below one. */
  function Capacity(configured: int): (c: int)
    ensures c >= 1
  {
    Max(1, configured)
  }

  /** The new estimate of one entry: only waiting entries are touched. */
  function Estimated(e: Entry, es: seq<Entry>, avg: int, capacity: int): Entry
    requires capacity >= 1
  {
    if e.status == Waiting then
      e.(estimatedWaitSeconds := Some(RoundDiv(AheadCount(es, e.token) * avg, capacity)))
    else
      e
  }

  /** `recomputeEstimates` on a list of entries. */
  function Recomputed(es: seq<Entry>, avg: int, capacity: int): (r: seq<Entry>)
    requires capacity >= 1
    ensures |r| == |es|
  {
    seq(|es|, i requires 0 <= i < |es| => Estimated(es[i], es, avg, capacity))
  }

  /**
   * After a recompute every waiting entry's estimate is round(ahead * avg / capacity) and no
   * other field of any entry, and no non-waiting entry, has changed.
   */
  lemma RecomputedMeaning(es: seq<Entry>, avg: int, capacity: int, i: nat)
    requires capacity >= 1 && i < |es|
    ensures Recomputed(es, avg, capacity)[i].(estimatedWaitSeconds := es[i].estimatedWaitSeconds) == es[i]
    ensures es[i].status != Waiting ==> Recomputed(es, avg, capacity)[i] == es[i]
    ensures es[i].status == Waiting ==>
      var est := Recomputed(es, avg, capacity)[i].estimatedWaitSeconds;
      var exact := AheadCount(es, es[i].token) * avg;
      est.Some? && 2 * capacity * est.value - capacity <= 2 * exact < 2 * capacity * est.value + capacity
  {
    var r := Recomputed(es, avg, capacity);
    assert r[i] == Estimated(es[i], es, avg, capacity);
  }

  /** Estimates follow queue order: a waiting entry with a smaller token never has a longer estimate. */
  lemma EstimatesFollowTokenOrder(es: seq<Entry>, avg: int, capacity: int, i: nat, j: nat)
    requires capacity >= 1 && avg >= 0 && i < |es| && j < |es|
    requires es[i].status == Waiting && es[j].status == Waiting && es[i].token <= es[j].token
    ensures Recomputed(es, avg, capacity)[i].estimatedWaitSeconds.value
      <= Recomputed(es, avg, capacity)[j].estimatedWaitSeconds.value
  {
    AheadCountMonotone(es, es[i].token, es[j].token);
    MulMono(avg, AheadCount(es, es[i].token), AheadCount(es, es[j].token));
    RoundDivMonotone(AheadCount(es, es[i].token) * avg, AheadCount(es, es[j].token) * avg, capacity);
  }

  /** The waiting entry with the smallest token is estimated at zero. */
  lemma {:induction false} FrontOfQueueWaitsZero(es: seq<Entry>, avg: int, capacity: int, i: nat)
    requires capacity >= 1 && i < |es| && es[i].status == Waiting
    requires forall k | 0 <= k < |es| && es[k].status == Waiting :: es[i].token <= es[k].token
    ensures Recomputed(es, avg, capacity)[i].estimatedWaitSeconds == Some(0)
  {
    AheadCountIsCount(es, es[i].token);
    assert (set k | 0 <= k < |es| && es[k].status == Waiting && es[k].token < es[i].token) == {};
    RoundDivExact(0, capacity);
  }

  /** Recomputing changes no token and no status. */
  lemma RecomputedKeepsQueue(es: seq<Entry>, avg: int, capacity: int)
    requires capacity >= 1
    ensures var r := Recomputed(es, avg, capacity);
      forall i | 0 <= i < |es| :: r[i].token == es[i].token && r[i].status == es[i].status
  {
  }

  // ---- ETA ----

  datatype EtaReply =
    | EtaOk(token: int, etaSeconds: int, etaHuman: Option<string>, avgServiceSeconds: int, ahead: nat)
    | EtaBadRequest(error: string)

  /**
   * `/api/eta`: the waiting entries ahead of the queried token times the average, with no
   * capacity scaling and no rounding. A missing, non-numeric or zero token is refused.
   */
  function Eta(state: QueueState, query: Option<int>, defaultAvg: int): (r: EtaReply)
    ensures (query.None? || query.value == 0) <==> r.EtaBadRequest?
  {
    match query
    case None => EtaBadRequest("token query required")
    case Some(token) =>
      if token == 0 then EtaBadRequest("token query required")
      else
        var avg := AvgServiceSeconds(state.entries, defaultAvg);
        var ahead := AheadCount(state.entries, token);
        EtaOk(token, ahead * avg, Duration.FormatDuration(Some(ahead * avg)), avg, ahead)
  }

  /**
   * For a waiting entry, the ETA answer divided by the capacity and rounded is exactly the
   * estimate a recompute stores; with a single service line the two agree.
   */
  lemma EtaMatchesEstimate(state: QueueState, defaultAvg: int, capacity: int, i: nat)
    requires capacity >= 1 && i < |state.entries| && state.entries[i].status == Waiting
    requires state.entries[i].token != 0
    ensures var eta := Eta(state, Some(state.entries[i].token), defaultAvg);
      var est := Recomputed(state.entries, AvgServiceSeconds(state.entries, defaultAvg), capacity)[i];
      && eta.EtaOk?
      && est.estimatedWaitSeconds == Some(RoundDiv(eta.etaSeconds, capacity))
      && (capacity == 1 ==> est.estimatedWaitSeconds == Some(eta.etaSeconds))
  {
    var eta := Eta(state, Some(state.entries[i].token), defaultAvg);
    RoundDivExact(eta.etaSeconds, 1);
  }
}
