/** The CSV export of a session: reading its telemetry, and resampling it at a fixed interval. */
module CsvExport {
  import opened Wrappers
  import opened Telemetry
  import opened Session

  datatype Recorded = Recorded(elapsed: nat, value: real, quality: Quality)

  type Metric = m: nat | m < METRIC_COUNT

  // ---------------------------------------------------------------- reading

  predicate IsTelemetry(line: Line) {
    line.Parsed? && line.record.TelemetryRecord?
  }

  predicate Usable(line: Line) {
    line.Parsed? &&
    (line.record.TelemetryRecord? ==>
       && line.record.metric.Some? && line.record.metric.value < METRIC_COUNT
       && line.record.quality.Some? && line.record.value.Some?)
  }

  /** A header first and a footer last, neither anywhere else, time never going back, and every
      telemetry record of a known metric and quality with a value. */
  predicate Exportable(lines: seq<Line>) {
    && |lines| >= 2 && InTimeOrder(lines)
    && (forall i | 0 <= i < |lines| :: Usable(lines[i]))
    && IsHeader(lines[0]) && IsFooter(lines[|lines| - 1])
    && forall i | 0 < i < |lines| - 1 :: !IsHeader(lines[i]) && !IsFooter(lines[i])
  }

  /** The samples of one metric in file order. */
  function SamplesOf(lines: seq<Line>, m: Metric): seq<Recorded> {
    if lines == [] then []
    else
      var line := lines[|lines| - 1];
      SamplesOf(lines[..|lines| - 1], m)
      + if IsTelemetry(line) && Usable(line) && line.record.metric.value == m
        then [Recorded(line.record.elapsed, line.record.value.value, line.record.quality.value)] else []
  }

  lemma {:induction false} SamplesAreTimed(lines: seq<Line>, m: Metric)
    requires InTimeOrder(lines)
    ensures Ascending(SamplesOf(lines, m))
    ensures forall i | 0 <= i < |SamplesOf(lines, m)| :: lines != [] && SamplesOf(lines, m)[i].elapsed <= Elapsed(lines[|lines| - 1])
  {
    if lines != [] {
      SamplesAreTimed(lines[..|lines| - 1], m);
    }
  }

  /** The samples of every metric and the time of the footer. */
  datatype Extract = Extract(samples: seq<seq<Recorded>>, duration: nat)

  predicate Holds(samples: seq<seq<Recorded>>, lines: seq<Line>) {
    |samples| == METRIC_COUNT && forall m: Metric :: samples[m] == SamplesOf(lines, m)
  }

  /** One pass that refuses exactly the files that cannot be exported. */
  method ReadSession(lines: seq<Line>) returns (r: Result<Extract, Error>)
    ensures r.Ok? <==> Exportable(lines)
    ensures r.Ok? ==> Holds(r.value.samples, lines) && r.value.duration == Elapsed(lines[|lines| - 1])
  {
    var samples: seq<seq<Recorded>> := seq(METRIC_COUNT, _ => []);
    var previous: int, duration: int := -1, -1;
    var sawHeader, sawFooter := false, false;
    var n := 0;
    while n < |lines|
      invariant 0 <= n <= |lines|
      invariant Holds(samples, lines[..n])
      invariant previous == if n == 0 then -1 else Elapsed(lines[n - 1])
      invariant forall i, j | 0 <= i <= j < n :: Elapsed(lines[i]) <= Elapsed(lines[j])
      invariant forall i | 0 <= i < n :: Usable(lines[i])
      invariant sawHeader <==> n > 0
      invariant n > 0 ==> IsHeader(lines[0])
      invariant sawFooter <==> n > 0 && IsFooter(lines[n - 1])
      invariant sawFooter ==> duration == Elapsed(lines[n - 1])
      invariant forall i | 0 < i < n :: !IsHeader(lines[i])
      invariant forall i | 0 <= i < n - 1 :: !IsFooter(lines[i])
    {
      var line := lines[n];
      if line.Unparsable? {
        return Err(InvalidFormat);
      }
      var elapsed := line.record.elapsed;
      if elapsed < previous {
        return Err(InvalidFormat);
      }
      previous := elapsed;
      if n == 0 {
        if !line.record.Header? {
          return Err(InvalidFormat);
        }
        sawHeader := true;
      } else if line.record.Header? {
        return Err(InvalidFormat);
      }
      if sawFooter {
        return Err(InvalidFormat);
      }
      if line.record.Footer? {
        duration, sawFooter := elapsed, true;
      } else if line.record.TelemetryRecord? {
        if !Usable(line) {
          return Err(InvalidFormat);
        }
        var m := line.record.metric.value;
        samples := samples[m := samples[m] + [Recorded(elapsed, line.record.value.value, line.record.quality.value)]];
      }
      assert lines[..n + 1][..n] == lines[..n];
      n := n + 1;
    }
    assert lines[..n] == lines;
    if !sawHeader || !sawFooter || duration < 0 {
      return Err(InvalidFormat);
    }
    return Ok(Extract(samples, duration));
  }

  // ---------------------------------------------------------------- resampling, naively

  predicate Ascending(s: seq<Recorded>) {
    forall i, j | 0 <= i <= j < |s| :: s[i].elapsed <= s[j].elapsed
  }

  /** The last sample in file order that is not after the tick. */
  function LastAt(s: seq<Recorded>, tick: int): Option<Recorded> {
    if s == [] then None
    else if s[|s| - 1].elapsed <= tick then Some(s[|s| - 1])
    else LastAt(s[..|s| - 1], tick)
  }

  predicate Shown(r: Recorded, m: Metric, tick: int) {
    r.quality == Valid && tick - r.elapsed <= StaleAfter(m) / NS_PER_US
  }

  /** A cell shows the last sample not after its tick if that one is valid and not stale. */
  function Cell(s: seq<Recorded>, m: Metric, tick: int): Option<real> {
    var r := LastAt(s, tick);
    if r.Some? && Shown(r.value, m, tick) then Some(r.value.value) else None
  }

  lemma {:induction false} LastAtMeaning(s: seq<Recorded>, tick: int, k: nat)
    requires k < |s|
    ensures s[k].elapsed <= tick && (forall j | k < j < |s| :: s[j].elapsed > tick) ==> LastAt(s, tick) == Some(s[k])
    ensures (forall j | 0 <= j < |s| :: s[j].elapsed > tick) ==> LastAt(s, tick) == None
  {
    if s[|s| - 1].elapsed > tick {
      if k < |s| - 1 {
        LastAtMeaning(s[..|s| - 1], tick, k);
      } else if |s| > 1 {
        LastAtMeaning(s[..|s| - 1], tick, 0);
      }
    }
  }

  // ---------------------------------------------------------------- resampling, with cursors

  datatype Row = Row(tick: nat, cells: seq<Option<real>>)

  predicate IsRow(row: Row, samples: seq<seq<Recorded>>, columns: seq<Metric>, tick: int)
    requires |samples| == METRIC_COUNT
  {
    && row.tick == tick && |row.cells| == |columns|
    && forall c | 0 <= c < |columns| :: row.cells[c] == Cell(samples[columns[c]], columns[c], tick)
  }

  /** The cursor stands behind the samples it has passed, the last of which is held. */
  predicate Passed(s: seq<Recorded>, next: nat, latest: Option<Recorded>, tick: int) {
    && next <= |s|
    && latest == (if next == 0 then None else Some(s[next - 1]))
    && (next > 0 ==> s[next - 1].elapsed <= tick)
  }

  lemma PassedAll(s: seq<Recorded>, next: nat, latest: Option<Recorded>, tick: int)
    requires Ascending(s) && Passed(s, next, latest, tick)
    requires next < |s| ==> s[next].elapsed > tick
    ensures LastAt(s, tick) == latest
  {
    if s != [] {
      LastAtMeaning(s, tick, if next == 0 then 0 else next - 1);
    }
  }

  /** The moving cursors of an export. */
  class Resampler {
    const samples: seq<seq<Recorded>>
    const next: array<nat>
    const latest: array<Option<Recorded>>

    ghost predicate Valid(tick: int)
      reads this, next, latest
    {
      && |samples| == next.Length == latest.Length == METRIC_COUNT
      && (forall m: Metric :: Ascending(samples[m]))
      && (forall m: Metric :: Passed(samples[m], next[m], latest[m], tick))
    }

    constructor (samples: seq<seq<Recorded>>)
      requires |samples| == METRIC_COUNT && forall m: Metric :: Ascending(samples[m])
      ensures this.samples == samples && Valid(0) && fresh(next) && fresh(latest)
    {
      this.samples := samples;
      next := new nat[METRIC_COUNT](_ => 0);
      latest := new Option<Recorded>[METRIC_COUNT](_ => None);
    }

    method CellAt(m: Metric, tick: int) returns (cell: Option<real>)
      requires Valid(tick)
      modifies next, latest
      ensures Valid(tick) && cell == Cell(samples[m], m, tick)
    {
      while next[m] < |samples[m]| && samples[m][next[m]].elapsed <= tick
        invariant Valid(tick)
        decreases |samples[m]| - next[m]
      {
        latest[m] := Some(samples[m][next[m]]);
        next[m] := next[m] + 1;
      }
      PassedAll(samples[m], next[m], latest[m], tick);
      cell := if latest[m].Some? && Shown(latest[m].value, m, tick) then Some(latest[m].value.value) else None;
    }

    method RowAt(columns: seq<Metric>, tick: nat) returns (row: Row)
      requires Valid(tick)
      modifies next, latest
      ensures Valid(tick) && IsRow(row, samples, columns, tick)
    {
      var cells: seq<Option<real>> := [];
      for c := 0 to |columns|
        invariant Valid(tick) && |cells| == c
        invariant forall d | 0 <= d < c :: cells[d] == Cell(samples[columns[d]], columns[d], tick)
      {
        var cell := CellAt(columns[c], tick);
        cells := cells + [cell];
      }
      row := Row(tick, cells);
    }
  }

  lemma MultiplesAscend(a: int, b: int, interval: int)
    requires interval > 0
    ensures a <= b ==> a * interval <= b * interval
  {
    if a <= b {
      assert (b - a) * interval >= 0;
    }
  }

  lemma LastTick(k: nat, interval: int, duration: nat)
    requires 0 < interval && k * interval <= duration < (k + 1) * interval
    ensures k == duration / interval
  {
    var q, r := duration / interval, duration % interval;
    assert duration == q * interval + r;
    MultiplesAscend(q + 1, k, interval);
    MultiplesAscend(k + 1, q, interval);
  }

  /** Row k stands at time k times the interval, never past the duration, and all of its cells are
      what the whole file says at that time. */
  method Resample(session: Extract, columns: seq<Metric>, interval: int) returns (rows: seq<Row>)
    requires |session.samples| == METRIC_COUNT && forall m: Metric :: Ascending(session.samples[m])
    requires interval > 0
    ensures |rows| == session.duration / interval + 1
    ensures forall k | 0 <= k < |rows| :: k * interval <= session.duration && IsRow(rows[k], session.samples, columns, k * interval)
  {
    var cursors := new Resampler(session.samples);
    rows := [];
    var tick := 0;
    while true
      invariant tick == |rows| * interval <= session.duration
      invariant fresh(cursors.next) && fresh(cursors.latest)
      invariant cursors.Valid(tick) && cursors.samples == session.samples
      invariant forall k | 0 <= k < |rows| :: k * interval <= session.duration && IsRow(rows[k], session.samples, columns, k * interval)
      decreases session.duration - tick
    {
      var row := cursors.RowAt(columns, tick);
      rows := rows + [row];
      if session.duration - tick < interval {
        break;
      }
      tick := tick + interval;
    }
    LastTick(|rows| - 1, interval, session.duration);
  }

  /** An export refuses exactly an interval that is not positive and a file that is not exportable. */
  method ExportSession(lines: seq<Line>, columns: seq<Metric>, interval: int) returns (r: Result<seq<Row>, Error>)
    ensures r.Ok? <==> interval > 0 && Exportable(lines)
    ensures r.Ok? ==>
              var duration := Elapsed(lines[|lines| - 1]);
              && |r.value| == duration / interval + 1
              && forall k, c | 0 <= k < |r.value| && 0 <= c < |columns| ::
                   && r.value[k].tick == k * interval <= duration
                   && |r.value[k].cells| == |columns|
                   && r.value[k].cells[c] == Cell(SamplesOf(lines, columns[c]), columns[c], k * interval)
  {
    if interval <= 0 {
      return Err(InvalidFormat);
    }
    var session := ReadSession(lines);
    if session.Err? {
      return Err(session.error);
    }
    forall m: Metric
      ensures Ascending(session.value.samples[m])
    {
      SamplesAreTimed(lines, m);
    }
    var rows := Resample(session.value, columns, interval);
    return Ok(rows);
  }

  /** A session fit for replay is fit for export exactly when its telemetry names known metrics and
      qualities. */
  lemma ValidSessionExports(lines: seq<Line>)
    requires ValidSession(lines)
    ensures Exportable(lines) <==>
            forall i | 0 <= i < |lines| && IsTelemetry(lines[i]) ::
              lines[i].record.metric.Some? && lines[i].record.metric.value < METRIC_COUNT && lines[i].record.quality.Some?
  {
    forall i | 0 <= i < |lines| && IsTelemetry(lines[i])
      ensures lines[i].record.value.Some?
    {
      assert ValidStructure(lines[i]);
    }
  }

  // ---------------------------------------------------------------- cells as the file says

  /** The i-th line is a sample of the metric not after the tick. */
  predicate SampleBy(lines: seq<Line>, m: Metric, tick: int, i: nat) {
    && i < |lines| && IsTelemetry(lines[i]) && Usable(lines[i])
    && lines[i].record.metric.value == m && lines[i].record.elapsed <= tick
  }

  /** How long a sample is shown, in microseconds: one second for the first four metrics, five for
      air temperature, fuel level and module voltage, two for the others. */
  function Limit(m: Metric): int {
    if m in {0, 1, 2, 3} then 1_000_000 else if m in {12, 13, 14} then 5_000_000 else 2_000_000
  }

  /** A cell is filled if and only if the last line of the file that is a sample of its metric not after
      its tick is valid and no older than the limit, and it then shows that line's value. */
  lemma {:induction false} CellIsOfTheFile(lines: seq<Line>, m: Metric, tick: int, i: nat)
    ensures (forall j | 0 <= j < |lines| :: !SampleBy(lines, m, tick, j)) ==> Cell(SamplesOf(lines, m), m, tick) == None
    ensures SampleBy(lines, m, tick, i) && (forall j | i < j < |lines| :: !SampleBy(lines, m, tick, j)) ==>
              var r := lines[i].record;
              Cell(SamplesOf(lines, m), m, tick) ==
              if r.quality.value == Quality.Valid && tick - r.elapsed <= Limit(m) then r.value else None
  {
    if lines != [] {
      var last := |lines| - 1;
      var init := lines[..last];
      CellIsOfTheFile(init, m, tick, i);
      forall j | 0 <= j < last
        ensures SampleBy(init, m, tick, j) <==> SampleBy(lines, m, tick, j)
      {
      }
      if !SampleBy(lines, m, tick, last) {
        LaterSampleIsNotShown(init, lines[last], m, tick);
      }
    }
  }

  /** A line that is no sample of the metric by the tick changes nothing. */
  lemma LaterSampleIsNotShown(init: seq<Line>, line: Line, m: Metric, tick: int)
    requires !SampleBy(init + [line], m, tick, |init|)
    ensures LastAt(SamplesOf(init + [line], m), tick) == LastAt(SamplesOf(init, m), tick)
  {
    assert (init + [line])[..|init|] == init && (init + [line])[|init|] == line;
    var before, all := SamplesOf(init, m), SamplesOf(init + [line], m);
    if |all| > |before| {
      assert all[..|all| - 1] == before;
    } else {
      assert all == before;
    }
  }
}
