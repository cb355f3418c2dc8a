/**
 * The metrics aggregator (`MetricsManager`): bounded drop-oldest buffers,
 * counters, the per-client sliding-window rate limiter and the statistics
 * computed over the buffers. Clock readings are parameters.
 */
module Metrics {

  /** `TranslationMetrics`: what one translation reports. Durations are in
      milliseconds; `hour` is the hour of the record's timestamp. */
  datatype TranslationMetrics = TranslationMetrics(
    textLength: nat,
    sourceLang: string,
    targetLang: string,
    preprocessingMs: real,
    translationMs: real,
    totalMs: real,
    cacheHit: bool,
    hour: nat)

  /** `deque(maxlen=...)` capacities and the rate-limit window. */
  const MetricsCap := 10000
  const PerfCap := 1000
  const WindowCap := 100
  const WindowSeconds := 60.0

  // ---------------------------------------------------- bounded buffers

  /** The newest `n` elements of `s`. */
  function Last<T>(s: seq<T>, n: nat): (r: seq<T>)
    ensures |r| == if |s| <= n then |s| else n
  {
    if |s| <= n then s else s[|s| - n..]
  }

  /** `append` on a deque with `maxlen = cap`: the oldest element goes when
      the deque is full. */
  function BoundedAppend<T>(q: seq<T>, x: T, cap: nat): seq<T> {
    Last(q + [x], cap)
  }

  /** A bounded deque always holds exactly the newest `cap` elements of
      everything ever appended to it. */
  lemma BoundedAppendKeepsNewest<T>(s: seq<T>, x: T, cap: nat)
    ensures BoundedAppend(Last(s, cap), x, cap) == Last(s + [x], cap)
    ensures cap > 0 ==> BoundedAppend(Last(s, cap), x, cap)[|BoundedAppend(Last(s, cap), x, cap)| - 1] == x
    ensures |BoundedAppend(Last(s, cap), x, cap)| == if |s| < cap then |s| + 1 else cap
  {
    var l := Last(s, cap);
    var t := s + [x];
    if |t| > cap {
      var r := Last(l + [x], cap);
      assert |r| == cap;
      forall i | 0 <= i < cap ensures r[i] == t[|t| - cap + i] {
        assert r[i] == (l + [x])[|l| + 1 - cap + i];
        if i < cap - 1 {
          assert (l + [x])[|l| + 1 - cap + i] == l[|l| + 1 - cap + i];
        }
      }
    }
  }

  // --------------------------------------------------------- counting

  function Count<T(==)>(s: seq<T>, x: T): nat {
    if s == [] then 0 else Count(s[..|s| - 1], x) + (if s[|s| - 1] == x then 1 else 0)
  }

  /** The counts a `defaultdict(int)` accumulates over `ls`, label by label. */
  function Tally<T>(ls: seq<T>): map<T, nat> {
    if ls == [] then map[]
    else
      var h := Tally(ls[..|ls| - 1]);
      var x := ls[|ls| - 1];
      h[x := (if x in h then h[x] else 0) + 1]
  }

  /** The tally holds exactly the labels that occur, each with its number
      of occurrences. */
  lemma {:induction false} TallyCounts<T>(ls: seq<T>, x: T)
    ensures x in Tally(ls) <==> x in ls
    ensures x in Tally(ls) ==> Tally(ls)[x] == Count(ls, x)
    ensures x !in Tally(ls) ==> Count(ls, x) == 0
  {
    if ls != [] {
      var p := ls[..|ls| - 1];
      TallyCounts(p, x);
      assert ls == p + [ls[|ls| - 1]];
      assert x in ls <==> x in p || x == ls[|ls| - 1];
    }
  }

  /** The sum of a map's values. */
  ghost function MapSum<T>(m: map<T, nat>): int
    decreases |m|
  {
    if m == map[] then 0
    else
      var x :| x in m;
      m[x] + MapSum(m - {x})
  }

  lemma {:induction false} MapSumRemove<T>(m: map<T, nat>, y: T)
    requires y in m
    ensures MapSum(m) == m[y] + MapSum(m - {y})
    decreases |m|
  {
    var x :| x in m && MapSum(m) == m[x] + MapSum(m - {x});
    if x != y {
      var mx := m - {x};
      var my := m - {y};
      MapSumRemove(mx, y);
      MapSumRemove(my, x);
      assert mx - {y} == my - {x};
      assert mx[y] == m[y] && my[x] == m[x];
    }
  }

  lemma MapSumBump<T>(m: map<T, nat>, y: T)
    ensures MapSum(m[y := (if y in m then m[y] else 0) + 1]) == MapSum(m) + 1
  {
    var m' := m[y := (if y in m then m[y] else 0) + 1];
    MapSumRemove(m', y);
    assert m' - {y} == m - {y};
    if y in m {
      MapSumRemove(m, y);
    } else {
      assert m - {y} == m;
    }
  }

  /** The per-label counts add up to the number of labels counted. */
  lemma {:induction false} TallyTotal<T>(ls: seq<T>)
    ensures MapSum(Tally(ls)) == |ls|
  {
    if ls == [] {
      assert Tally(ls) == map[];
    } else {
      TallyTotal(ls[..|ls| - 1]);
      MapSumBump(Tally(ls[..|ls| - 1]), ls[|ls| - 1]);
    }
  }

  // ---------------------------------------------------------- averages

  function Sum(s: seq<real>): real {
    if s == [] then 0.0 else Sum(s[..|s| - 1]) + s[|s| - 1]
  }

  lemma {:induction false} SumBounds(s: seq<real>, lo: real, hi: real)
    requires forall i :: 0 <= i < |s| ==> lo <= s[i] <= hi
    ensures (|s| as real) * lo <= Sum(s) <= (|s| as real) * hi
  {
    if s != [] {
      SumBounds(s[..|s| - 1], lo, hi);
    }
  }

  /** `r · n`, the product that characterises the quotient `a / n`. */
  function Scaled(r: real, n: real): real {
    r * n
  }

  lemma QuotientExists(a: real, n: real)
    requires n > 0.0
    ensures exists q: real :: Scaled(q, n) == a
  {
    assert Scaled(a / n, n) == a;
  }

  lemma QuotientUnique(a: real, n: real)
    requires n > 0.0
    ensures forall q1: real, q2: real :: Scaled(q1, n) == a && Scaled(q2, n) == a ==> q1 == q2
  {
    forall q1: real, q2: real | Scaled(q1, n) == a && Scaled(q2, n) == a
      ensures q1 == q2
    {
      assert (q1 - q2) * n == 0.0;
    }
  }

  /** `a / n` for a positive divisor: the one number that, multiplied by
      `n`, gives back `a`. */
  function Quotient(a: real, n: real): (q: real)
    requires n > 0.0
    ensures q * n == a
  {
    QuotientExists(a, n);
    QuotientUnique(a, n);
    var q :| Scaled(q, n) == a; q
  }

  /** The trailing-100 average `sum(recent) / len(recent)`, 0 when empty. */
  function RecentAverage(times: seq<real>): real {
    var recent := Last(times, 100);
    if recent == [] then 0.0 else Quotient(Sum(recent), |recent| as real)
  }

  /** Division by a positive count keeps bounds that hold of the total. */
  lemma QuotientBounds(a: real, n: real, lo: real, hi: real)
    requires n > 0.0 && n * lo <= a <= n * hi
    ensures lo <= Quotient(a, n) <= hi
  {
  }

  /** The recent average lies between the least and greatest recent value. */
  lemma RecentAverageBounds(times: seq<real>, lo: real, hi: real)
    requires forall i :: 0 <= i < |times| ==> lo <= times[i] <= hi
    requires times != []
    ensures lo <= RecentAverage(times) <= hi
  {
    var recent := Last(times, 100);
    var k := |times| - |recent|;
    assert recent == times[k..];
    assert forall i :: 0 <= i < |recent| ==> recent[i] == times[k + i];
    MeanBounds(recent, lo, hi);
  }

  lemma MeanBounds(s: seq<real>, lo: real, hi: real)
    requires forall i :: 0 <= i < |s| ==> lo <= s[i] <= hi
    requires s != []
    ensures lo <= Quotient(Sum(s), |s| as real) <= hi
  {
    var n := |s| as real;
    SumBounds(s, lo, hi);
    assert n * lo <= Sum(s) <= n * hi;
    QuotientBounds(Sum(s), n, lo, hi);
  }

  function Hits(s: seq<bool>): nat {
    Count(s, true)
  }

  lemma {:induction false} HitsBound(s: seq<bool>)
    ensures Hits(s) <= |s|
    ensures Hits(s) == |s| <==> forall i :: 0 <= i < |s| ==> s[i]
  {
    if s != [] {
      var p := s[..|s| - 1];
      HitsBound(p);
      assert forall i :: 0 <= i < |p| ==> p[i] == s[i];
    }
  }

  lemma QuotientOne(a: real, n: real)
    requires n > 0.0
    ensures Quotient(a, n) == 1.0 <==> a == n
  {
    var q := Quotient(a, n);
    if q != 1.0 { assert (q - 1.0) * n != 0.0; }
  }

  /** The trailing-100 cache-hit rate (a hit counts 1), 0 when empty. */
  function HitRate(hits: seq<bool>): (r: real)
    ensures 0.0 <= r <= 1.0
    ensures Last(hits, 100) != [] ==> (r == 1.0 <==> forall i :: 0 <= i < |Last(hits, 100)| ==> Last(hits, 100)[i])
  {
    var recent := Last(hits, 100);
    HitsBound(recent);
    if recent == [] then 0.0
    else
      QuotientBounds(Hits(recent) as real, |recent| as real, 0.0, 1.0);
      QuotientOne(Hits(recent) as real, |recent| as real);
      Quotient(Hits(recent) as real, |recent| as real)
  }

  /** `total_errors / total_requests`, 0 before any request. */
  function ErrorRate(totalErrors: nat, totalRequests: nat): (r: real)
    ensures r >= 0.0
    ensures totalRequests == 0 ==> r == 0.0
    ensures totalRequests > 0 ==> r * (totalRequests as real) == totalErrors as real
  {
    if totalRequests > 0 then Quotient(totalErrors as real, totalRequests as real) else 0.0
  }

  // -------------------------------------------------------- percentiles

  predicate Sorted(s: seq<real>) {
    forall i, j :: 0 <= i < j < |s| ==> s[i] <= s[j]
  }

  function Insert(x: real, s: seq<real>): (r: seq<real>)
    requires Sorted(s)
    ensures Sorted(r) && multiset(r) == multiset(s) + multiset{x}
  {
    if s == [] then [x]
    else if x <= s[0] then [x] + s
    else
      var t := Insert(x, s[1..]);
      assert s == [s[0]] + s[1..];
      InsertedAbove(s, x, t);
      ConsSorted(s[0], t);
      [s[0]] + t
  }

  /** Every element of `s[1..]` with `x` added is at least `s[0]` when
      `x` is. */
  lemma InsertedAbove(s: seq<real>, x: real, t: seq<real>)
    requires Sorted(s) && s != [] && s[0] < x && multiset(t) == multiset(s[1..]) + multiset{x}
    ensures forall k :: 0 <= k < |t| ==> s[0] <= t[k]
  {
    forall k | 0 <= k < |t| ensures s[0] <= t[k] {
      assert t[k] in multiset(t);
      if t[k] != x {
        assert t[k] in s[1..];
      }
    }
  }

  lemma ConsSorted(a: real, t: seq<real>)
    requires Sorted(t) && forall k :: 0 <= k < |t| ==> a <= t[k]
    ensures Sorted([a] + t)
  {
    var r := [a] + t;
    forall i, j | 0 <= i < j < |r| ensures r[i] <= r[j] {
      assert r[j] == t[j - 1];
      if i > 0 { assert r[i] == t[i - 1]; }
    }
  }

  /** `sorted(data)`. */
  function Sort(s: seq<real>): (r: seq<real>)
    ensures Sorted(r) && multiset(r) == multiset(s)
  {
    if s == [] then []
    else
      assert s == s[..|s| - 1] + [s[|s| - 1]];
      Insert(s[|s| - 1], Sort(s[..|s| - 1]))
  }

  datatype Percentiles = Percentiles(p50: real, p90: real, p95: real, p99: real)

  /** The nearest-rank index `int(n * p)` for `p` in hundredths. */
  function RankIndex(n: nat, p: nat): (k: nat)
    requires n > 0 && p < 100
    ensures k < n
  {
    n * p / 100
  }

  lemma RankMonotone(n: nat, p: nat, q: nat)
    requires n > 0 && p <= q < 100
    ensures RankIndex(n, p) <= RankIndex(n, q)
  {
    assert n * p <= n * q;
  }

  /** `calculate_percentiles`: all zeros for no data, else the nearest-rank
      50th, 90th, 95th and 99th percentiles of the sorted data. */
  function CalculatePercentiles(data: seq<real>): (r: Percentiles) {
    if data == [] then Percentiles(0.0, 0.0, 0.0, 0.0)
    else
      var s := Sort(data);
      var n := |data|;
      assert |s| == n by { assert |multiset(s)| == |multiset(data)|; }
      Percentiles(s[RankIndex(n, 50)], s[RankIndex(n, 90)], s[RankIndex(n, 95)], s[RankIndex(n, 99)])
  }

  lemma SortLength(data: seq<real>)
    ensures |Sort(data)| == |data|
  {
    assert |multiset(Sort(data))| == |multiset(data)|;
  }

  /** No data gives all zeros; otherwise each percentile is one of the
      data values. */
  lemma PercentilesInData(data: seq<real>)
    ensures data == [] ==> CalculatePercentiles(data) == Percentiles(0.0, 0.0, 0.0, 0.0)
    ensures var r := CalculatePercentiles(data);
      data != [] ==> r.p50 in data && r.p90 in data && r.p95 in data && r.p99 in data
  {
    if data != [] {
      var s := Sort(data);
      SortLength(data);
      forall k | 0 <= k < |s| ensures s[k] in data {
        assert s[k] in multiset(s);
      }
    }
  }

  lemma SortedAt(s: seq<real>, i: nat, j: nat)
    requires Sorted(s) && i <= j < |s|
    ensures s[i] <= s[j]
  {
  }

  /** The percentiles are in increasing order. */
  lemma PercentilesOrdered(data: seq<real>)
    ensures var r := CalculatePercentiles(data);
      r.p50 <= r.p90 <= r.p95 <= r.p99
  {
    if data != [] {
      var s := Sort(data);
      var n := |data|;
      SortLength(data);
      RankMonotone(n, 50, 90);
      RankMonotone(n, 90, 95);
      RankMonotone(n, 95, 99);
      SortedAt(s, RankIndex(n, 50), RankIndex(n, 90));
      SortedAt(s, RankIndex(n, 90), RankIndex(n, 95));
      SortedAt(s, RankIndex(n, 95), RankIndex(n, 99));
    }
  }

  lemma PercentilesOfSingleton(x: real)
    ensures CalculatePercentiles([x]) == Percentiles(x, x, x, x)
  {
    assert Sort([x]) == Insert(x, Sort([]));
  }

  // ------------------------------------------------------- rate limiter

  /** The `popleft` loop: drops window entries more than 60 s older than
      `now`, oldest first, stopping at the first recent one. */
  function Prune(q: seq<real>, now: real): (r: seq<real>)
    ensures |r| <= |q| && r == q[|q| - |r|..]
    ensures r != [] ==> now - r[0] <= WindowSeconds
    ensures forall i :: 0 <= i < |q| - |r| ==> now - q[i] > WindowSeconds
  {
    if q != [] && now - q[0] > WindowSeconds then Prune(q[1..], now) else q
  }

  /** `check_rate_limit` on one client's window: the verdict and the window
      it leaves (pruned even when rejecting). */
  function RateStep(q: seq<real>, now: real, limit: nat): (bool, seq<real>) {
    var p := Prune(q, now);
    if |p| >= limit then (false, p) else (true, BoundedAppend(p, now, WindowCap))
  }

  function WindowBound(limit: nat): nat {
    if limit < WindowCap then limit else WindowCap
  }

  /** A window never holds more than the limit, nor more than the deque's
      capacity of 100. */
  lemma RateStepBounded(q: seq<real>, now: real, limit: nat)
    requires |q| <= WindowBound(limit)
    ensures |RateStep(q, now, limit).1| <= WindowBound(limit)
  {
  }

  /** An accepted request is recorded as the newest entry; a rejected one
      records nothing. */
  lemma RateStepRecords(q: seq<real>, now: real, limit: nat)
    requires limit <= WindowCap
    ensures var (ok, q') := RateStep(q, now, limit);
      && (ok ==> q' == Prune(q, now) + [now])
      && (!ok ==> q' == Prune(q, now) && |q'| >= limit)
  {
  }

  /** An entry exactly 60 s old still counts against the limit. */
  lemma PruneKeepsBoundary(q: seq<real>, now: real)
    requires q != [] && now - q[0] == WindowSeconds
    ensures Prune(q, now) == q
  {
  }

  predicate Ascending(q: seq<real>) {
    forall i, j :: 0 <= i < j < |q| ==> q[i] <= q[j]
  }

  /** For a window in time order, pruning keeps exactly the entries at
      most 60 s old. */
  lemma {:induction false} PruneExact(q: seq<real>, now: real)
    requires Ascending(q)
    ensures forall t :: t in Prune(q, now) <==> t in q && now - t <= WindowSeconds
  {
    if q != [] && now - q[0] > WindowSeconds {
      PruneExact(q[1..], now);
      assert q == [q[0]] + q[1..];
    } else if q != [] {
      forall t | t in q ensures now - t <= WindowSeconds {
        var k :| 0 <= k < |q| && q[k] == t;
        assert q[0] <= q[k];
      }
    }
  }

  /** With `limit` requests in the window, none older than 60 s, one more
      is rejected and leaves the window as it was. */
  lemma FullWindowRejects(q: seq<real>, now: real, limit: nat)
    requires 0 < limit && |q| == limit
    requires forall i :: 0 <= i < |q| ==> now - q[i] <= WindowSeconds
    ensures RateStep(q, now, limit) == (false, q)
  {
    assert now - q[0] <= WindowSeconds;
  }

  /** Once every request in the window is more than 60 s old, the next
      one is accepted and the window holds only it. */
  lemma StaleWindowAccepts(q: seq<real>, later: real, limit: nat)
    requires 0 < limit
    requires forall i :: 0 <= i < |q| ==> later - q[i] > WindowSeconds
    ensures RateStep(q, later, limit) == (true, [later])
  {
    PruneAllStale(q, later);
    assert BoundedAppend([], later, WindowCap) == [later];
  }

  lemma {:induction false} PruneAllStale(q: seq<real>, now: real)
    requires forall i :: 0 <= i < |q| ==> now - q[i] > WindowSeconds
    ensures Prune(q, now) == []
  {
    if q != [] {
      PruneAllStale(q[1..], now);
    }
  }

  /** Above 100 the limit is never reached: the deque holds at most 100
      entries, so every request is accepted. */
  lemma LimitAboveCapacityNeverRejects(q: seq<real>, now: real, limit: nat)
    requires limit > WindowCap && |q| <= WindowCap
    ensures RateStep(q, now, limit).0
  {
  }

  /** The `popleft` loop itself, on one client's window. */
  method PruneWindow(q0: seq<real>, now: real) returns (q: seq<real>)
    ensures q == Prune(q0, now)
  {
    q := q0;
    while q != [] && now - q[0] > WindowSeconds
      invariant Prune(q, now) == Prune(q0, now)
      decreases |q|
    {
      q := q[1..];
    }
  }

  /** The `popleft` loop, the limit test and the `append` of
      `check_rate_limit`, on one client's window. */
  method RateWindow(q0: seq<real>, now: real, limit: nat) returns (ok: bool, q: seq<real>)
    ensures (ok, q) == RateStep(q0, now, limit)
  {
    q := PruneWindow(q0, now);
    if |q| >= limit {
      return false, q;
    }
    q := BoundedAppend(q, now, WindowCap);
    return true, q;
  }

  // ----------------------------------------------------------- records

  function TranslationTimes(ms: seq<TranslationMetrics>): (r: seq<real>)
    ensures |r| == |ms| && forall i :: 0 <= i < |ms| ==> r[i] == ms[i].translationMs
  {
    seq(|ms|, i requires 0 <= i < |ms| => ms[i].translationMs)
  }

  function PreprocessingTimes(ms: seq<TranslationMetrics>): (r: seq<real>)
    ensures |r| == |ms| && forall i :: 0 <= i < |ms| ==> r[i] == ms[i].preprocessingMs
  {
    seq(|ms|, i requires 0 <= i < |ms| => ms[i].preprocessingMs)
  }

  function CacheHits(ms: seq<TranslationMetrics>): (r: seq<bool>)
    ensures |r| == |ms| && forall i :: 0 <= i < |ms| ==> r[i] == ms[i].cacheHit
  {
    seq(|ms|, i requires 0 <= i < |ms| => ms[i].cacheHit)
  }

  /** The language pair label `f"{source}->{target}"`. */
  function PairOf(m: TranslationMetrics): string {
    m.sourceLang + "->" + m.targetLang
  }

  function Pairs(ms: seq<TranslationMetrics>): (r: seq<string>)
    ensures |r| == |ms| && forall i :: 0 <= i < |ms| ==> r[i] == PairOf(ms[i])
  {
    seq(|ms|, i requires 0 <= i < |ms| => PairOf(ms[i]))
  }

  function Hours(ms: seq<TranslationMetrics>): (r: seq<nat>)
    ensures |r| == |ms| && forall i :: 0 <= i < |ms| ==> r[i] == ms[i].hour
  {
    seq(|ms|, i requires 0 <= i < |ms| => ms[i].hour)
  }

  /** One more record in the hourly tally. */
  lemma HoursStep(ms: seq<TranslationMetrics>, i: nat)
    requires i < |ms|
    ensures var t, h := Tally(Hours(ms[..i])), ms[i].hour;
      Tally(Hours(ms[..i + 1])) == t[h := (if h in t then t[h] else 0) + 1]
  {
    var hs := Hours(ms[..i + 1]);
    assert hs[..i] == Hours(ms[..i]);
    assert hs[i] == ms[i].hour;
  }

  lemma ProjectionsSnoc(ms: seq<TranslationMetrics>, m: TranslationMetrics)
    ensures TranslationTimes(ms + [m]) == TranslationTimes(ms) + [m.translationMs]
    ensures PreprocessingTimes(ms + [m]) == PreprocessingTimes(ms) + [m.preprocessingMs]
    ensures CacheHits(ms + [m]) == CacheHits(ms) + [m.cacheHit]
  {
  }

  /** How each bounded buffer of a history moves when one record is added. */
  lemma RecordStep(ms: seq<TranslationMetrics>, m: TranslationMetrics)
    ensures BoundedAppend(Last(ms, MetricsCap), m, MetricsCap) == Last(ms + [m], MetricsCap)
    ensures BoundedAppend(Last(TranslationTimes(ms), PerfCap), m.translationMs, PerfCap)
      == Last(TranslationTimes(ms + [m]), PerfCap)
    ensures BoundedAppend(Last(PreprocessingTimes(ms), PerfCap), m.preprocessingMs, PerfCap)
      == Last(PreprocessingTimes(ms + [m]), PerfCap)
    ensures BoundedAppend(Last(CacheHits(ms), PerfCap), m.cacheHit, PerfCap)
      == Last(CacheHits(ms + [m]), PerfCap)
  {
    BoundedAppendKeepsNewest(ms, m, MetricsCap);
    BoundedAppendKeepsNewest(TranslationTimes(ms), m.translationMs, PerfCap);
    BoundedAppendKeepsNewest(PreprocessingTimes(ms), m.preprocessingMs, PerfCap);
    BoundedAppendKeepsNewest(CacheHits(ms), m.cacheHit, PerfCap);
    ProjectionsSnoc(ms, m);
  }

  // ----------------------------------------------------- language pairs

  datatype PairStats = PairStats(count: nat, totalTime: real, avgTime: real)

  /** The first loop of `_get_language_pair_stats`: count and total model
      time per pair, averages still 0. */
  function PairTotals(ms: seq<TranslationMetrics>): map<string, PairStats> {
    if ms == [] then map[]
    else
      var st := PairTotals(ms[..|ms| - 1]);
      var m := ms[|ms| - 1];
      var cur := if PairOf(m) in st then st[PairOf(m)] else PairStats(0, 0.0, 0.0);
      st[PairOf(m) := PairStats(cur.count + 1, cur.totalTime + m.translationMs, cur.avgTime)]
  }

  /** Total model time over the records of one pair. */
  function PairTime(ms: seq<TranslationMetrics>, pair: string): real {
    if ms == [] then 0.0
    else PairTime(ms[..|ms| - 1], pair) + (if PairOf(ms[|ms| - 1]) == pair then ms[|ms| - 1].translationMs else 0.0)
  }

  /** The second loop: `avg_time = total_time / count` for every pair. */
  function Averaged(st: map<string, PairStats>): map<string, PairStats> {
    map p | p in st :: if st[p].count > 0 then st[p].(avgTime := Quotient(st[p].totalTime, st[p].count as real)) else st[p]
  }

  /** The pair totals hold exactly the pairs that occur, each with its
      number of records, their summed time and a zero average. */
  lemma {:induction false} PairTotalsSpec(ms: seq<TranslationMetrics>, pair: string)
    ensures pair in PairTotals(ms) <==> pair in Tally(Pairs(ms))
    ensures pair in PairTotals(ms) ==>
      && PairTotals(ms)[pair].count == Tally(Pairs(ms))[pair]
      && PairTotals(ms)[pair].totalTime == PairTime(ms, pair)
      && PairTotals(ms)[pair].avgTime == 0.0
  {
    if ms != [] {
      var p := ms[..|ms| - 1];
      PairTotalsSpec(p, pair);
      assert Pairs(ms) == Pairs(p) + [PairOf(ms[|ms| - 1])];
      assert Pairs(ms)[..|ms| - 1] == Pairs(p);
      if pair !in PairTotals(p) {
        TallyCounts(Pairs(p), pair);
        PairTimeAbsent(p, pair);
      }
    }
  }

  lemma {:induction false} PairTimeAbsent(ms: seq<TranslationMetrics>, pair: string)
    requires Count(Pairs(ms), pair) == 0
    ensures PairTime(ms, pair) == 0.0
  {
    if ms != [] {
      var p := ms[..|ms| - 1];
      assert Pairs(ms)[..|ms| - 1] == Pairs(p);
      PairTimeAbsent(p, pair);
    }
  }

  /** `_get_language_pair_stats`: one entry per pair that occurs, with its
      count, total and average time; the counts add up to the number of
      records. */
  lemma LanguagePairStatsSpec(ms: seq<TranslationMetrics>, pair: string)
    ensures pair in Averaged(PairTotals(ms)) <==> pair in Pairs(ms)
    ensures pair in Averaged(PairTotals(ms)) ==>
      var s := Averaged(PairTotals(ms))[pair];
      && s.count == Count(Pairs(ms), pair) && s.count > 0
      && s.totalTime == PairTime(ms, pair)
      && s.avgTime == Quotient(s.totalTime, s.count as real)
    ensures MapSum(Tally(Pairs(ms))) == |ms|
  {
    PairTotalsSpec(ms, pair);
    TallyCounts(Pairs(ms), pair);
    TallyTotal(Pairs(ms));
    if pair in PairTotals(ms) {
      AveragedAt(PairTotals(ms), pair);
    }
  }

  /** A pair with records gets the mean of its time. */
  lemma AveragedAt(st: map<string, PairStats>, pair: string)
    requires pair in st && st[pair].count > 0
    ensures pair in Averaged(st)
    ensures Averaged(st)[pair].count == st[pair].count && Averaged(st)[pair].totalTime == st[pair].totalTime
    ensures Averaged(st)[pair].avgTime == Quotient(st[pair].totalTime, st[pair].count as real)
  {
  }

  /** `_get_hourly_distribution`: the records per hour, which add up to the
      number of records. */
  lemma HourlyDistributionSpec(ms: seq<TranslationMetrics>, h: nat)
    ensures h in Tally(Hours(ms)) <==> h in Hours(ms)
    ensures h in Tally(Hours(ms)) ==> Tally(Hours(ms))[h] == Count(Hours(ms), h)
    ensures MapSum(Tally(Hours(ms))) == |ms|
  {
    TallyCounts(Hours(ms), h);
    TallyTotal(Hours(ms));
  }

  // --------------------------------------------------------- manager

  datatype HealthMetrics = HealthMetrics(
    totalRequests: nat,
    totalErrors: nat,
    errorRate: real,
    avgTranslationMs: real,
    cacheHitRate: real,
    activeClients: nat)

  /** The first loop of `_get_language_pair_stats`: count and total time
      per pair. */
  method AccumulatePairs(ms: seq<TranslationMetrics>) returns (st: map<string, PairStats>)
    ensures st == PairTotals(ms)
  {
    st := map[];
    var i := 0;
    while i < |ms|
      invariant 0 <= i <= |ms|
      invariant st == PairTotals(ms[..i])
    {
      var m := ms[i];
      var pair := m.sourceLang + "->" + m.targetLang;
      var cur := if pair in st then st[pair] else PairStats(0, 0.0, 0.0);
      assert ms[..i + 1][..i] == ms[..i];
      st := st[pair := PairStats(cur.count + 1, cur.totalTime + m.translationMs, cur.avgTime)];
      i := i + 1;
    }
    assert ms[..|ms|] == ms;
  }

  /** The second loop: the average time of every pair with records. */
  method AveragePairs(st: map<string, PairStats>) returns (stats: map<string, PairStats>)
    ensures stats == Averaged(st)
  {
    var pending := st.Keys;
    stats := st;
    while pending != {}
      invariant pending <= st.Keys && stats.Keys == st.Keys
      invariant forall p :: p in st && p !in pending ==> stats[p] == Averaged(st)[p]
      invariant forall p :: p in pending ==> stats[p] == st[p]
      decreases |pending|
    {
      var p :| p in pending;
      if st[p].count > 0 {
        stats := stats[p := st[p].(avgTime := Quotient(st[p].totalTime, st[p].count as real))];
      }
      pending := pending - {p};
    }
  }

  /** `MetricsManager`. `recorded` and `errors` are the full histories the
      bounded buffers and counters summarise. */
  class MetricsManager {
    var translationMetrics: seq<TranslationMetrics>
    var translationTimes: seq<real>
    var preprocessingTimes: seq<real>
    var cacheHits: seq<bool>
    var errorCounts: map<string, nat>
    var totalRequests: nat
    var totalErrors: nat
    var clientRequests: map<string, seq<real>>
    const rateLimit: nat
    ghost var recorded: seq<TranslationMetrics>
    ghost var errors: seq<string>

    ghost predicate Valid()
      reads this
    {
      && translationMetrics == Last(recorded, MetricsCap)
      && translationTimes == Last(TranslationTimes(recorded), PerfCap)
      && preprocessingTimes == Last(PreprocessingTimes(recorded), PerfCap)
      && cacheHits == Last(CacheHits(recorded), PerfCap)
      && totalRequests == |recorded|
      && errorCounts == Tally(errors)
      && totalErrors == |errors|
      && (forall c :: c in clientRequests ==> |clientRequests[c]| <= WindowBound(rateLimit))
    }

    constructor (rateLimit: nat)
      ensures Valid() && this.rateLimit == rateLimit
      ensures recorded == [] && errors == [] && clientRequests == map[]
    {
      this.rateLimit := rateLimit;
      translationMetrics := [];
      translationTimes := [];
      preprocessingTimes := [];
      cacheHits := [];
      errorCounts := map[];
      totalRequests := 0;
      totalErrors := 0;
      clientRequests := map[];
      recorded := [];
      errors := [];
    }

    /** `record_translation`: every buffer gets the new record, dropping
        its oldest when full, and exactly one more request is counted. */
    method RecordTranslation(m: TranslationMetrics)
      requires Valid()
      modifies this
      ensures Valid()
      ensures recorded == old(recorded) + [m] && totalRequests == old(totalRequests) + 1
      ensures translationMetrics == BoundedAppend(old(translationMetrics), m, MetricsCap)
      ensures translationTimes == BoundedAppend(old(translationTimes), m.translationMs, PerfCap)
      ensures preprocessingTimes == BoundedAppend(old(preprocessingTimes), m.preprocessingMs, PerfCap)
      ensures cacheHits == BoundedAppend(old(cacheHits), m.cacheHit, PerfCap)
      ensures errors == old(errors) && errorCounts == old(errorCounts) && totalErrors == old(totalErrors)
      ensures clientRequests == old(clientRequests)
    {
      RecordStep(recorded, m);
      translationMetrics := BoundedAppend(translationMetrics, m, MetricsCap);
      translationTimes := BoundedAppend(translationTimes, m.translationMs, PerfCap);
      preprocessingTimes := BoundedAppend(preprocessingTimes, m.preprocessingMs, PerfCap);
      cacheHits := BoundedAppend(cacheHits, m.cacheHit, PerfCap);
      totalRequests := totalRequests + 1;
      recorded := recorded + [m];
    }

    /** `record_error`: one more error of `errorType`, and nothing else. */
    method RecordError(errorType: string)
      requires Valid()
      modifies this
      ensures Valid()
      ensures errors == old(errors) + [errorType]
      ensures errorCounts == old(errorCounts)[errorType := (if errorType in old(errorCounts) then old(errorCounts)[errorType] else 0) + 1]
      ensures totalErrors == old(totalErrors) + 1
      ensures recorded == old(recorded) && totalRequests == old(totalRequests)
      ensures translationMetrics == old(translationMetrics) && translationTimes == old(translationTimes)
      ensures preprocessingTimes == old(preprocessingTimes) && cacheHits == old(cacheHits)
      ensures clientRequests == old(clientRequests)
    {
      var n := if errorType in errorCounts then errorCounts[errorType] else 0;
      errorCounts := errorCounts[errorType := n + 1];
      totalErrors := totalErrors + 1;
      errors := errors + [errorType];
      assert errors[..|errors| - 1] == old(errors);
    }

    /** `check_rate_limit(client, now)`: the client's window after pruning
        and, if accepted, recording `now`; every client checked keeps an
        entry. */
    method CheckRateLimit(client: string, now: real) returns (ok: bool)
      requires Valid()
      modifies this
      ensures Valid()
      ensures var q := if client in old(clientRequests) then old(clientRequests)[client] else [];
        && clientRequests == old(clientRequests)[client := RateStep(q, now, rateLimit).1]
        && ok == RateStep(q, now, rateLimit).0
      ensures recorded == old(recorded) && errors == old(errors)
      ensures translationMetrics == old(translationMetrics) && translationTimes == old(translationTimes)
      ensures preprocessingTimes == old(preprocessingTimes) && cacheHits == old(cacheHits)
      ensures errorCounts == old(errorCounts) && totalRequests == old(totalRequests) && totalErrors == old(totalErrors)
    {
      var q := if client in clientRequests then clientRequests[client] else [];
      RateStepBounded(q, now, rateLimit);
      var window;
      ok, window := RateWindow(q, now, rateLimit);
      clientRequests := clientRequests[client := window];
    }

    /** `get_health_metrics`, averages and ratios only. */
    function HealthSnapshot(): (r: HealthMetrics)
      reads this
      requires Valid()
      ensures r.totalRequests == |recorded| && r.totalErrors == |errors|
      ensures r.errorRate == ErrorRate(|errors|, |recorded|)
      ensures 0.0 <= r.cacheHitRate <= 1.0
      ensures r.activeClients == |clientRequests|
      ensures r.totalErrors == MapSum(errorCounts)
    {
      TallyTotal(errors);
      HealthMetrics(totalRequests, totalErrors, ErrorRate(totalErrors, totalRequests),
                    RecentAverage(translationTimes), HitRate(cacheHits), |clientRequests|)
    }

    /** `get_detailed_stats`: percentiles of both time buffers. */
    function DetailedPercentiles(): (r: (Percentiles, Percentiles))
      reads this
      ensures r.0.p50 <= r.0.p90 <= r.0.p95 <= r.0.p99
      ensures r.1.p50 <= r.1.p90 <= r.1.p95 <= r.1.p99
    {
      PercentilesOrdered(translationTimes);
      PercentilesOrdered(preprocessingTimes);
      (CalculatePercentiles(translationTimes), CalculatePercentiles(preprocessingTimes))
    }

    /** `_get_language_pair_stats`: two loops, accumulate then average. */
    method LanguagePairStats() returns (stats: map<string, PairStats>)
      ensures stats == Averaged(PairTotals(translationMetrics))
    {
      var st := AccumulatePairs(translationMetrics);
      stats := AveragePairs(st);
    }

    /** `_get_hourly_distribution`. */
    method HourlyDistribution() returns (counts: map<nat, nat>)
      ensures counts == Tally(Hours(translationMetrics))
    {
      var ms := translationMetrics;
      counts := map[];
      var i := 0;
      while i < |ms|
        invariant 0 <= i <= |ms|
        invariant counts == Tally(Hours(ms[..i]))
      {
        var h := ms[i].hour;
        HoursStep(ms, i);
        counts := counts[h := (if h in counts then counts[h] else 0) + 1];
        i := i + 1;
      }
      assert ms[..|ms|] == ms;
    }
  }
}
