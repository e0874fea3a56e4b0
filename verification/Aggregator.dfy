/** The rolling-window aggregator against recomputation from the whole history. */
module Aggregator {
  import opened Wrappers
  import opened Telemetry

  datatype Statistics = Statistics(minimum: real, maximum: real, mean: real, median: real, count: nat)

  // ---------------------------------------------------------------- order and sums

  predicate Ascending(xs: seq<real>) {
    |xs| <= 1 || (xs[0] <= xs[1] && Ascending(xs[1..]))
  }

  function Insert(xs: seq<real>, x: real): (r: seq<real>)
    ensures |r| == |xs| + 1
  {
    if xs == [] || x <= xs[0] then [x] + xs else [xs[0]] + Insert(xs[1..], x)
  }

  function Sort(xs: seq<real>): (r: seq<real>)
    ensures |r| == |xs|
  {
    if xs == [] then [] else Insert(Sort(xs[1..]), xs[0])
  }

  function Sum(xs: seq<real>): real {
    if xs == [] then 0.0 else xs[0] + Sum(xs[1..])
  }

  lemma {:induction false} InsertKeepsOrder(xs: seq<real>, x: real)
    requires Ascending(xs)
    ensures Ascending(Insert(xs, x))
    ensures Insert(xs, x)[0] == if xs == [] || x <= xs[0] then x else xs[0]
  {
    if xs == [] || x <= xs[0] {
      assert ([x] + xs)[1..] == xs;
    } else {
      var rest := Insert(xs[1..], x);
      InsertKeepsOrder(xs[1..], x);
      assert ([xs[0]] + rest)[1..] == rest;
    }
  }

  lemma {:induction false} InsertMembers(xs: seq<real>, x: real, y: real)
    ensures y in Insert(xs, x) <==> y == x || y in xs
  {
    if xs != [] && x > xs[0] {
      InsertMembers(xs[1..], x, y);
      assert xs == [xs[0]] + xs[1..];
    }
  }

  lemma {:induction false} SortSorts(xs: seq<real>)
    ensures Ascending(Sort(xs))
  {
    if xs != [] {
      SortSorts(xs[1..]);
      InsertKeepsOrder(Sort(xs[1..]), xs[0]);
    }
  }

  lemma {:induction false} SortMembers(xs: seq<real>, y: real)
    ensures y in Sort(xs) <==> y in xs
  {
    if xs != [] {
      SortMembers(xs[1..], y);
      InsertMembers(Sort(xs[1..]), xs[0], y);
      assert xs == [xs[0]] + xs[1..];
    }
  }

  lemma {:induction false} AscendingBounds(xs: seq<real>, i: nat)
    requires Ascending(xs) && i < |xs|
    ensures xs[0] <= xs[i] <= xs[|xs| - 1]
  {
    if |xs| > 1 {
      AscendingBounds(xs[1..], if i == 0 then 0 else i - 1);
    }
  }

  lemma {:induction false} InsertCommutes(xs: seq<real>, x: real, y: real)
    requires Ascending(xs)
    ensures Insert(Insert(xs, x), y) == Insert(Insert(xs, y), x)
  {
    if xs != [] && x > xs[0] && y > xs[0] {
      InsertCommutes(xs[1..], x, y);
    }
  }

  /** Where an element stands among the others does not change the sorted whole. */
  lemma {:induction false} SortIgnoresPlace(a: seq<real>, x: real, b: seq<real>)
    ensures Sort(a + [x] + b) == Insert(Sort(a + b), x)
  {
    var whole := a + [x] + b;
    if a == [] {
      assert whole[1..] == b && a + b == b;
    } else {
      assert whole[1..] == a[1..] + [x] + b && (a + b)[1..] == a[1..] + b;
      SortIgnoresPlace(a[1..], x, b);
      SortSorts(a[1..] + b);
      InsertCommutes(Sort(a[1..] + b), x, a[0]);
    }
  }

  lemma {:induction false} SumOfInsert(xs: seq<real>, x: real)
    ensures Sum(Insert(xs, x)) == Sum(xs) + x
  {
    if xs != [] && x > xs[0] {
      SumOfInsert(xs[1..], x);
    }
  }

  lemma {:induction false} SumOfSort(xs: seq<real>)
    ensures Sum(Sort(xs)) == Sum(xs)
  {
    if xs != [] {
      SumOfSort(xs[1..]);
      SumOfInsert(Sort(xs[1..]), xs[0]);
    }
  }

  lemma {:induction false} SumOfAppend(xs: seq<real>, x: real)
    ensures Sum(xs + [x]) == Sum(xs) + x
  {
    if xs == [] {
      assert xs + [x] == [x];
    } else {
      SumOfAppend(xs[1..], x);
      assert (xs + [x])[1..] == xs[1..] + [x];
    }
  }

  function StatisticsOf(values: seq<real>): Option<Statistics> {
    if values == [] then None
    else
      var sorted := Sort(values);
      var middle := |values| / 2;
      var median := if |values| % 2 == 0 then (sorted[middle - 1] + sorted[middle]) / 2.0 else sorted[middle];
      Some(Statistics(sorted[0], sorted[|sorted| - 1], Sum(values) / (|values| as real), median, |values|))
  }

  lemma PlaceInSort(xs: seq<real>, y: real) returns (k: nat)
    requires y in xs
    ensures k < |xs| && Sort(xs)[k] == y
  {
    SortMembers(xs, y);
    k :| 0 <= k < |xs| && Sort(xs)[k] == y;
  }

  lemma SortKeepsValues(xs: seq<real>, i: nat)
    requires i < |xs|
    ensures Sort(xs)[i] in xs
  {
    var y := Sort(xs)[i];
    assert y in Sort(xs);
    SortMembers(xs, y);
  }

  lemma SortBounds(xs: seq<real>, i: nat)
    requires i < |xs|
    ensures Sort(xs)[0] <= xs[i] <= Sort(xs)[|xs| - 1]
  {
    var sorted := Sort(xs);
    var k := PlaceInSort(xs, xs[i]);
    SortSorts(xs);
    AscendingBounds(sorted, k);
    assert sorted[k] == xs[i];
  }

  /** The reported figures are the least, the greatest and the average of the values, and the
      median is the middle of their ascending arrangement. */
  lemma StatisticsMeaning(values: seq<real>, i: nat)
    requires i < |values|
    ensures var s := StatisticsOf(values).value;
            && s.minimum in values && s.maximum in values
            && s.minimum <= values[i] <= s.maximum
            && s.count == |values|
            && s.mean == Sum(values) / (s.count as real)
            && 2.0 * s.median == Sort(values)[(s.count - 1) / 2] + Sort(values)[s.count / 2]
            && Ascending(Sort(values))
  {
    SortKeepsValues(values, 0);
    SortKeepsValues(values, |values| - 1);
    SortBounds(values, i);
    SortSorts(values);
    var n := |values|;
    assert (n - 1) / 2 == if n % 2 == 0 then n / 2 - 1 else n / 2;
  }

  lemma StatisticsIgnoreOrder(a: seq<real>, b: seq<real>)
    requires Sort(a) == Sort(b)
    ensures StatisticsOf(a) == StatisticsOf(b)
  {
    SumOfSort(a);
    SumOfSort(b);
  }

  // ---------------------------------------------------------------- the naive definition

  function Values(samples: seq<Sample>): seq<real> {
    if samples == [] then [] else Values(samples[..|samples| - 1]) + [samples[|samples| - 1].value]
  }

  /** Every valid sample of a metric since the last reset, in order of arrival. */
  function ValidOf(history: seq<Sample>, metric: nat): seq<Sample> {
    if history == [] then []
    else
      var last := history[|history| - 1];
      ValidOf(history[..|history| - 1], metric)
      + (if last.metric == metric && last.quality == Valid then [last] else [])
  }

  lemma HistoryExtends(history: seq<Sample>, s: Sample, metric: nat)
    ensures ValidOf(history + [s], metric) ==
            ValidOf(history, metric) + (if s.metric == metric && s.quality == Valid then [s] else [])
    ensures metric < METRIC_COUNT ==>
              LastOf(history + [s], metric) == if s.metric == metric then Some(s) else LastOf(history, metric)
  {
    assert (history + [s])[..|history|] == history;
  }

  function WithinWindow(samples: seq<Sample>, now: int, window: int): seq<Sample> {
    if samples == [] then []
    else
      var last := samples[|samples| - 1];
      WithinWindow(samples[..|samples| - 1], now, window) + (if now - last.at <= window then [last] else [])
  }

  function Recompute(history: seq<Sample>, metric: nat, now: int, window: int): Option<Statistics> {
    StatisticsOf(Values(WithinWindow(ValidOf(history, metric), now, window)))
  }

  lemma {:induction false} ValuesOfConcat(a: seq<Sample>, b: seq<Sample>)
    ensures Values(a + b) == Values(a) + Values(b)
  {
    if b == [] {
      assert a + b == a;
    } else {
      assert (a + b)[..|a + b| - 1] == a + b[..|b| - 1];
      ValuesOfConcat(a, b[..|b| - 1]);
    }
  }

  lemma {:induction false} WindowOfConcat(a: seq<Sample>, b: seq<Sample>, now: int, window: int)
    ensures WithinWindow(a + b, now, window) == WithinWindow(a, now, window) + WithinWindow(b, now, window)
  {
    if b == [] {
      assert a + b == a;
    } else {
      assert (a + b)[..|a + b| - 1] == a + b[..|b| - 1];
      WindowOfConcat(a, b[..|b| - 1], now, window);
    }
  }

  lemma {:induction false} WindowOfOld(samples: seq<Sample>, now: int, window: int)
    requires forall i | 0 <= i < |samples| :: now - samples[i].at > window
    ensures WithinWindow(samples, now, window) == []
  {
    if samples != [] {
      WindowOfOld(samples[..|samples| - 1], now, window);
    }
  }

  lemma {:induction false} WindowOfYoung(samples: seq<Sample>, now: int, window: int)
    requires forall i | 0 <= i < |samples| :: now - samples[i].at <= window
    ensures WithinWindow(samples, now, window) == samples
  {
    if samples != [] {
      WindowOfYoung(samples[..|samples| - 1], now, window);
    }
  }

  /** The values in the window, in ascending order: all that the statistics depend on. */
  function InWindow(samples: seq<Sample>, now: int, window: int): seq<real> {
    Sort(Values(WithinWindow(samples, now, window)))
  }

  lemma WindowOfPlaced(a: seq<Sample>, s: Sample, b: seq<Sample>, now: int, window: int)
    ensures WithinWindow(a + [s] + b, now, window) ==
            WithinWindow(a, now, window) + (if now - s.at <= window then [s] else []) + WithinWindow(b, now, window)
  {
    WindowOfConcat(a + [s], b, now, window);
    assert (a + [s])[..|a|] == a;
  }

  lemma ValuesOfPlaced(a: seq<Sample>, s: Sample, b: seq<Sample>)
    ensures Values(a + [s] + b) == Values(a) + [s.value] + Values(b)
  {
    ValuesOfConcat(a + [s], b);
    assert (a + [s])[..|a|] == a;
  }

  lemma InWindowOfPlaced(a: seq<Sample>, s: Sample, b: seq<Sample>, now: int, window: int)
    ensures InWindow(a + [s] + b, now, window) ==
            if now - s.at <= window then Insert(InWindow(a + b, now, window), s.value) else InWindow(a + b, now, window)
  {
    var wa, wb := WithinWindow(a, now, window), WithinWindow(b, now, window);
    WindowOfPlaced(a, s, b, now, window);
    WindowOfConcat(a, b, now, window);
    if now - s.at <= window {
      ValuesOfPlaced(wa, s, wb);
      ValuesOfConcat(wa, wb);
      SortIgnoresPlace(Values(wa), s.value, Values(wb));
    } else {
      assert wa + [] + wb == wa + wb;
    }
  }

  /** Putting a sample anywhere in one list and at the end of the other keeps them equivalent. */
  lemma PlacedSample(a: seq<Sample>, s: Sample, b: seq<Sample>, history: seq<Sample>, now: int, window: int)
    requires InWindow(a + b, now, window) == InWindow(history, now, window)
    ensures InWindow(a + [s] + b, now, window) == InWindow(history + [s], now, window)
  {
    InWindowOfPlaced(a, s, b, now, window);
    InWindowOfPlaced(history, s, [], now, window);
    assert history + [s] + [] == history + [s] && history + [] == history;
  }

  // ---------------------------------------------------------------- the deque

  predicate ByTime(samples: seq<Sample>) {
    forall i, j | 0 <= i < j < |samples| :: samples[i].at <= samples[j].at
  }

  /** The position after every sample not later than `at`. */
  method UpperBound(samples: seq<Sample>, at: int) returns (k: nat)
    requires ByTime(samples)
    ensures k <= |samples|
    ensures forall i | 0 <= i < k :: samples[i].at <= at
    ensures forall i | k <= i < |samples| :: samples[i].at > at
  {
    k := 0;
    while k < |samples| && samples[k].at <= at
      invariant k <= |samples|
      invariant forall i | 0 <= i < k :: samples[i].at <= at
    {
      k := k + 1;
    }
  }

  /** Drops from the front exactly the samples older than the window. */
  method Prune(samples: seq<Sample>, now: int, window: int) returns (kept: seq<Sample>, ghost k: nat)
    requires ByTime(samples)
    ensures k <= |samples| && kept == samples[k..]
    ensures forall i | 0 <= i < k :: now - samples[i].at > window
    ensures forall i | 0 <= i < |kept| :: now - kept[i].at <= window
  {
    kept, k := samples, 0;
    while kept != [] && now - kept[0].at > window
      invariant k <= |samples| && kept == samples[k..]
      invariant forall i | 0 <= i < k :: now - samples[i].at > window
      decreases |kept|
    {
      kept, k := kept[1..], k + 1;
    }
  }

  /** What a deque must keep of the history: at any time from the horizon on, its part of the
      window is the history's. */
  ghost predicate Covers(samples: seq<Sample>, valid: seq<Sample>, horizon: Option<int>, window: int) {
    forall now | Reached(horizon, now) :: InWindow(samples, now, window) == InWindow(valid, now, window)
  }

  ghost predicate Reached(horizon: Option<int>, now: int) {
    horizon.Some? ==> horizon.value <= now
  }

  function Later(horizon: Option<int>, now: int): Option<int> {
    if horizon.Some? && horizon.value >= now then horizon else Some(now)
  }

  lemma PruneKeepsCover(samples: seq<Sample>, k: nat, valid: seq<Sample>, horizon: Option<int>, now: int, window: int)
    requires k <= |samples| && Covers(samples, valid, horizon, window)
    requires forall i | 0 <= i < k :: now - samples[i].at > window
    ensures Covers(samples[k..], valid, Later(horizon, now), window)
  {
    forall t | Reached(Later(horizon, now), t)
      ensures InWindow(samples[k..], t, window) == InWindow(valid, t, window)
    {
      assert Reached(horizon, t);
      assert samples == samples[..k] + samples[k..];
      WindowOfConcat(samples[..k], samples[k..], t, window);
      WindowOfOld(samples[..k], t, window);
      assert [] + WithinWindow(samples[k..], t, window) == WithinWindow(samples[k..], t, window);
    }
  }

  lemma InsertKeepsCover(samples: seq<Sample>, k: nat, s: Sample, valid: seq<Sample>, horizon: Option<int>, window: int)
    requires k <= |samples| && Covers(samples, valid, horizon, window)
    ensures Covers(samples[..k] + [s] + samples[k..], valid + [s], horizon, window)
  {
    assert samples == samples[..k] + samples[k..];
    forall t | Reached(horizon, t)
      ensures InWindow(samples[..k] + [s] + samples[k..], t, window) == InWindow(valid + [s], t, window)
    {
      PlacedSample(samples[..k], s, samples[k..], valid, t, window);
    }
  }

  lemma CoverIsRecomputed(samples: seq<Sample>, valid: seq<Sample>, now: int, window: int)
    requires Covers(samples, valid, Some(now), window)
    requires forall i | 0 <= i < |samples| :: now - samples[i].at <= window
    ensures StatisticsOf(Values(samples)) == StatisticsOf(Values(WithinWindow(valid, now, window)))
  {
    WindowOfYoung(samples, now, window);
    assert Reached(Some(now), now);
    StatisticsIgnoreOrder(Values(samples), Values(WithinWindow(valid, now, window)));
  }

  lemma InsertKeepsTime(samples: seq<Sample>, k: nat, s: Sample)
    requires ByTime(samples) && k <= |samples|
    requires forall i | 0 <= i < k :: samples[i].at <= s.at
    requires forall i | k <= i < |samples| :: samples[i].at > s.at
    ensures ByTime(samples[..k] + [s] + samples[k..])
  {
  }

  /** A deque in time order that covers the valid samples of its metric. */
  ghost predicate Kept(samples: seq<Sample>, valid: seq<Sample>, horizon: Option<int>, window: int) {
    ByTime(samples) && Covers(samples, valid, horizon, window)
  }

  lemma KeptLater(samples: seq<Sample>, valid: seq<Sample>, horizon: Option<int>, now: int, window: int)
    requires Kept(samples, valid, horizon, window)
    ensures Kept(samples, valid, Later(horizon, now), window)
  {
    PruneKeepsCover(samples, 0, valid, horizon, now, window);
    assert samples[0..] == samples;
  }

  /** Inserts a sample after every one not later than it, then prunes at the sample's own time. */
  method Insertion(samples: seq<Sample>, s: Sample, window: int, ghost valid: seq<Sample>, ghost horizon: Option<int>)
    returns (kept: seq<Sample>)
    requires Kept(samples, valid, horizon, window)
    ensures Kept(kept, valid + [s], Later(horizon, s.at), window)
  {
    var position := UpperBound(samples, s.at);
    InsertKeepsTime(samples, position, s);
    InsertKeepsCover(samples, position, s, valid, horizon, window);
    var inserted := samples[..position] + [s] + samples[position..];
    ghost var k;
    kept, k := Prune(inserted, s.at, window);
    PruneKeepsCover(inserted, k, valid + [s], horizon, s.at, window);
  }

  method PrunedAt(samples: seq<Sample>, now: int, window: int, ghost valid: seq<Sample>, ghost horizon: Option<int>)
    returns (kept: seq<Sample>)
    requires Kept(samples, valid, horizon, window)
    ensures Kept(kept, valid, Later(horizon, now), window)
    ensures Reached(horizon, now) ==>
              StatisticsOf(Values(kept)) == StatisticsOf(Values(WithinWindow(valid, now, window)))
  {
    ghost var k;
    kept, k := Prune(samples, now, window);
    PruneKeepsCover(samples, k, valid, horizon, now, window);
    if Reached(horizon, now) {
      CoverIsRecomputed(kept, valid, now, window);
    }
  }

  method Summarize(samples: seq<Sample>) returns (r: Option<Statistics>)
    requires samples != []
    ensures r == StatisticsOf(Values(samples))
  {
    var numbers, sum, i := [], 0.0, 0;
    while i < |samples|
      invariant 0 <= i <= |samples|
      invariant numbers == Values(samples[..i]) && sum == Sum(numbers) && |numbers| == i
    {
      assert samples[..i + 1][..i] == samples[..i];
      SumOfAppend(numbers, samples[i].value);
      numbers, sum, i := numbers + [samples[i].value], sum + samples[i].value, i + 1;
    }
    assert samples[..i] == samples;
    var sorted := Sort(numbers);
    var middle := |numbers| / 2;
    var median := if |numbers| % 2 == 0 then (sorted[middle - 1] + sorted[middle]) / 2.0 else sorted[middle];
    return Some(Statistics(sorted[0], sorted[|sorted| - 1], sum / (|numbers| as real), median, |numbers|));
  }

  lemma AllKeptLater(values: seq<seq<Sample>>, history: seq<Sample>, horizon: Option<int>, now: int, window: int)
    requires forall m | 0 <= m < |values| :: Kept(values[m], ValidOf(history, m), horizon, window)
    ensures forall m | 0 <= m < |values| :: Kept(values[m], ValidOf(history, m), Later(horizon, now), window)
  {
    forall m | 0 <= m < |values|
      ensures Kept(values[m], ValidOf(history, m), Later(horizon, now), window)
    {
      KeptLater(values[m], ValidOf(history, m), horizon, now, window);
    }
  }

  class MetricAggregator {
    const window: int
    var values: seq<seq<Sample>>
    var last: seq<Option<Sample>>
    var epoch: nat
    /** Every sample ingested since the last reset, and the latest time seen since then. */
    ghost var history: seq<Sample>
    ghost var horizon: Option<int>

    ghost predicate Valid()
      reads this
    {
      && |values| == METRIC_COUNT && |last| == METRIC_COUNT
      && (forall m | 0 <= m < METRIC_COUNT :: Kept(values[m], ValidOf(history, m), horizon, window))
      && (forall m | 0 <= m < METRIC_COUNT :: last[m] == LastOf(history, m))
    }

    constructor (window: int)
      ensures Valid() && history == [] && horizon == None && epoch == 0 && this.window == window
    {
      this.window := window;
      values := seq(METRIC_COUNT, _ => []);
      last := seq(METRIC_COUNT, _ => None);
      epoch, history, horizon := 0, [], None;
    }

    method Ingest(s: Sample)
      requires Valid()
      modifies this
      ensures Valid() && epoch == old(epoch)
      ensures history == (if s.metric < METRIC_COUNT then old(history) + [s] else old(history))
      ensures horizon == (if s.metric < METRIC_COUNT && s.quality == Quality.Valid then Later(old(horizon), s.at) else old(horizon))
    {
      var index := s.metric;
      if index >= METRIC_COUNT {
        return;
      }
      ghost var before := history;
      forall m | 0 <= m < METRIC_COUNT
        ensures LastOf(before + [s], m) == if m == index then Some(s) else LastOf(before, m)
        ensures (m == index && s.quality == Quality.Valid) || ValidOf(before + [s], m) == ValidOf(before, m)
      {
        HistoryExtends(before, s, m);
        assert ValidOf(before, m) + [] == ValidOf(before, m);
      }
      last := last[index := Some(s)];
      history := history + [s];
      if s.quality != Quality.Valid {
        return;
      }
      HistoryExtends(before, s, index);
      var kept := Insertion(values[index], s, window, ValidOf(before, index), horizon);
      forall m | 0 <= m < METRIC_COUNT && m != index
        ensures Kept(values[m], ValidOf(history, m), Later(horizon, s.at), window)
      {
        KeptLater(values[m], ValidOf(before, m), horizon, s.at, window);
      }
      values := values[index := kept];
      horizon := Later(horizon, s.at);
    }

    /** Asked at or after every earlier time, the rolling window reports exactly what recomputing from
        the whole history would, whatever order the samples came in. */
    method GetStatistics(metric: nat, now: int) returns (r: Option<Statistics>)
      requires Valid()
      modifies this
      ensures Valid() && history == old(history) && epoch == old(epoch)
      ensures horizon == (if metric < METRIC_COUNT then Later(old(horizon), now) else old(horizon))
      ensures metric >= METRIC_COUNT ==> r == None
      ensures metric < METRIC_COUNT && Reached(old(horizon), now) ==> r == Recompute(history, metric, now, window)
    {
      if metric >= METRIC_COUNT {
        return None;
      }
      var kept := PrunedAt(values[metric], now, window, ValidOf(history, metric), horizon);
      AllKeptLater(values, history, horizon, now, window);
      values := values[metric := kept];
      horizon := Later(horizon, now);
      if kept == [] {
        return None;
      }
      r := Summarize(kept);
    }

    method GetQuality(metric: nat, now: int) returns (q: Quality)
      requires Valid()
      ensures q == QualityOf(LastOf(history, metric), metric, now)
    {
      if metric >= METRIC_COUNT || last[metric].None? {
        return Unsupported;
      }
      var sample := last[metric].value;
      if sample.quality != Quality.Valid {
        return sample.quality;
      }
      return if now - sample.at > StaleAfter(metric) then Stale else Quality.Valid;
    }

    method SetEpoch(e: nat)
      requires Valid()
      modifies this
      ensures Valid() && epoch == e
      ensures history == (if e != old(epoch) then [] else old(history))
      ensures horizon == (if e != old(epoch) then None else old(horizon))
    {
      if e != epoch {
        epoch := e;
        values := seq(METRIC_COUNT, _ => []);
        last := seq(METRIC_COUNT, _ => None);
        history, horizon := [], None;
      }
    }
  }

  /** The sample of a metric that arrived last since the reset. */
  function LastOf(history: seq<Sample>, metric: nat): Option<Sample> {
    if metric >= METRIC_COUNT || history == [] then None
    else
      var s := history[|history| - 1];
      if s.metric == metric then Some(s) else LastOf(history[..|history| - 1], metric)
  }

  function QualityOf(last: Option<Sample>, metric: nat, now: int): Quality {
    match last
    case None => Unsupported
    case Some(s) => if s.quality == Valid && now - s.at > StaleAfter(metric) then Stale else s.quality
  }

  // ---------------------------------------------------------------- quality

  /** The quality of a metric is that of the last sample of it to arrive, or stale if that one was valid
      but is older than one second for the first four metrics, five for air temperature, fuel level and
      module voltage, and two for the others; a metric without a sample is unsupported. */
  lemma {:induction false} QualityIsOfTheLast(history: seq<Sample>, metric: nat, now: int, k: nat)
    requires metric < METRIC_COUNT
    ensures (forall j | 0 <= j < |history| :: history[j].metric != metric) ==>
              QualityOf(LastOf(history, metric), metric, now) == Unsupported
    ensures k < |history| && history[k].metric == metric && (forall j | k < j < |history| :: history[j].metric != metric) ==>
              var age := now - history[k].at;
              var limit := if metric in {0, 1, 2, 3} then 1_000_000_000 else if metric in {12, 13, 14} then 5_000_000_000 else 2_000_000_000;
              QualityOf(LastOf(history, metric), metric, now) ==
              if history[k].quality == Quality.Valid && age > limit then Stale else history[k].quality
  {
    if history != [] && history[|history| - 1].metric != metric {
      QualityIsOfTheLast(history[..|history| - 1], metric, now, k);
    }
  }
}
