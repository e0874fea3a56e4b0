/** The session recorder, and what its finished files replay as. */
module Recorder {
  import opened Wrappers
  import opened Telemetry
  import opened Session
  import opened Playback

  type Payload = p: seq<Byte> | |p| <= MAX_PAYLOAD witness []

  type Address = a: EcuAddress | a.value < 0x1_0000_0000 witness EcuAddress(0, AddressFormat.Other)

  /** One call of the recorder, its time in nanoseconds. A telemetry value is None when it is not finite. */
  datatype Entry =
    | Obd(at: int, sequence: nat, ecu: Option<Address>, payload: Payload)
    | Metric(at: int, metric: nat, quality: Quality, value: Option<real>)
    | Other(at: int, kind: OtherKind)
    | Loss(at: int, dropped: nat)

  function ElapsedUs(at: int, origin: int): int {
    TruncDiv(at - origin, NS_PER_US)
  }

  /** The line of an entry that is not older than the recording. */
  function LineOf(e: Entry, origin: int): Line
    requires ElapsedUs(e.at, origin) >= 0
  {
    var elapsed := ElapsedUs(e.at, origin);
    Parsed(match e
           case Obd(_, sequence, ecu, payload) => ObdMessage(elapsed, sequence, WriteAddress(ecu), Hex(payload))
           case Metric(_, metric, quality, value) => TelemetryRecord(elapsed, Some(metric), Some(quality), value)
           case Other(_, kind) => OtherRecord(elapsed, kind)
           case Loss(_, dropped) => DataLoss(elapsed, dropped), true)
  }

  predicate Recordable(entries: seq<Entry>, origin: int) {
    forall i | 0 <= i < |entries| :: ElapsedUs(entries[i].at, origin) >= 0 && (entries[i].Loss? ==> entries[i].dropped > 0)
  }

  function Lines(entries: seq<Entry>, origin: int): (lines: seq<Line>)
    requires Recordable(entries, origin)
    ensures |lines| == |entries|
    ensures forall i | 0 <= i < |entries| :: lines[i] == LineOf(entries[i], origin)
  {
    seq(|entries|, i requires 0 <= i < |entries| => LineOf(entries[i], origin))
  }

  /** The records of a file counted by kind, its header and footer included in the total. */
  function Count(lines: seq<Line>): Statistics {
    if lines == [] then NO_STATISTICS
    else Counted(Count(lines[..|lines| - 1]), lines[|lines| - 1])
  }

  function Counted(s: Statistics, line: Line): Statistics {
    var t := s.(totalRecords := s.totalRecords + 1);
    match line
    case Parsed(ObdMessage(_, _, _, _), _) => t.(obdMessages := s.obdMessages + 1)
    case Parsed(TelemetryRecord(_, _, _, _), _) => t.(telemetrySamples := s.telemetrySamples + 1)
    case Parsed(OtherRecord(_, _), _) => t.(otherRecords := s.otherRecords + 1)
    case Parsed(DataLoss(_, dropped), _) =>
      t.(dataLossMarkers := s.dataLossMarkers + 1, droppedRecords := s.droppedRecords + dropped)
    case _ => t
  }

  function HeaderLine(uuid: string): Line {
    Parsed(Header(0, uuid), true)
  }

  /** A finished file: header, entries, and a footer that counts every line including itself. */
  function Recording(uuid: string, entries: seq<Entry>, origin: int, finish: int): seq<Line>
    requires Recordable(entries, origin) && ElapsedUs(finish, origin) >= 0
  {
    var lines := [HeaderLine(uuid)] + Lines(entries, origin);
    var counted := Count(lines);
    lines + [Parsed(Footer(ElapsedUs(finish, origin), counted.(totalRecords := counted.totalRecords + 1)), true)]
  }

  /** Elapsed microseconds are whole ones: for a time not before the origin they fall short of it by less
      than one. */
  lemma ElapsedIsWhole(at: int, origin: int)
    ensures at >= origin ==> 0 <= (at - origin) - ElapsedUs(at, origin) * 1000 < 1000
    ensures at < origin ==> 0 <= ElapsedUs(at, origin) * 1000 - (at - origin) < 1000
  {
  }

  // ---------------------------------------------------------------- statistics

  function NumberOf(entries: seq<Entry>, kind: Entry -> bool): nat {
    if entries == [] then 0
    else NumberOf(entries[..|entries| - 1], kind) + if kind(entries[|entries| - 1]) then 1 else 0
  }

  function DroppedIn(entries: seq<Entry>): nat {
    if entries == [] then 0
    else DroppedIn(entries[..|entries| - 1]) + if entries[|entries| - 1].Loss? then entries[|entries| - 1].dropped else 0
  }

  /** What the statistics of a recording must say of its entries, `total` lines in all. */
  function StatisticsFor(entries: seq<Entry>, total: nat): Statistics {
    Statistics(
      NumberOf(entries, (e: Entry) => e.Obd?), NumberOf(entries, (e: Entry) => e.Metric?),
      NumberOf(entries, (e: Entry) => e.Other?), NumberOf(entries, (e: Entry) => e.Loss?), DroppedIn(entries), total)
  }

  lemma {:induction false} CountIsOfTheEntries(uuid: string, entries: seq<Entry>, origin: int)
    requires Recordable(entries, origin)
    ensures Count([HeaderLine(uuid)] + Lines(entries, origin)) == StatisticsFor(entries, |entries| + 1)
  {
    var lines := [HeaderLine(uuid)] + Lines(entries, origin);
    var last := |lines| - 1;
    if entries == [] {
      assert lines[..last] == [] && lines[last] == HeaderLine(uuid);
      assert Count([]) == NO_STATISTICS;
    } else {
      var init := entries[..|entries| - 1];
      CountIsOfTheEntries(uuid, init, origin);
      assert lines[..last] == [HeaderLine(uuid)] + Lines(init, origin);
      assert lines[last] == LineOf(entries[|entries| - 1], origin);
    }
  }

  /** The footer of a finished recording numbers its entries by kind, sums the drops it marks and counts
      all its lines, header and footer included. */
  lemma FooterNumbersTheEntries(uuid: string, entries: seq<Entry>, origin: int, finish: int)
    requires Recordable(entries, origin) && ElapsedUs(finish, origin) >= 0
    ensures var lines := Recording(uuid, entries, origin, finish);
            && |lines| == |entries| + 2
            && lines[|lines| - 1] == Parsed(Footer(ElapsedUs(finish, origin), StatisticsFor(entries, |lines|)), true)
  {
    CountIsOfTheEntries(uuid, entries, origin);
  }

  // ---------------------------------------------------------------- validity

  /** The times, entries and finish together, never go back at the resolution of the file. */
  predicate InOrder(entries: seq<Entry>, origin: int, finish: int) {
    && (forall i, j | 0 <= i <= j < |entries| :: ElapsedUs(entries[i].at, origin) <= ElapsedUs(entries[j].at, origin))
    && (forall i | 0 <= i < |entries| :: ElapsedUs(entries[i].at, origin) <= ElapsedUs(finish, origin))
  }

  /** A payload that is not empty, a value that is finite. */
  predicate Replayable(e: Entry) {
    && (e.Obd? ==> e.payload != [])
    && (e.Metric? ==> e.value.Some?)
  }

  lemma EntryIsShaped(e: Entry, origin: int)
    requires ElapsedUs(e.at, origin) >= 0 && (e.Loss? ==> e.dropped > 0)
    ensures ValidStructure(LineOf(e, origin)) <==> Replayable(e)
    ensures !IsHeader(LineOf(e, origin)) && !IsFooter(LineOf(e, origin))
  {
    match e
    case Obd(_, _, ecu, payload) =>
      AddressRoundTrip(ecu);
      DecodeHexInvertsHex(payload);
      HexShape(payload);
    case _ =>
  }

  /** Between a header and a footer stand only other lines, in time order and before the footer. */
  predicate ValidBody(body: seq<Line>, end: int) {
    && Shaped(body) && InTimeOrder(body)
    && forall i | 0 <= i < |body| :: !IsHeader(body[i]) && !IsFooter(body[i]) && Elapsed(body[i]) <= end
  }

  lemma FramedIsValid(header: Line, body: seq<Line>, footer: Line)
    requires IsHeader(header) && ValidStructure(header) && Elapsed(header) == 0
    requires IsFooter(footer) && ValidStructure(footer) && ValidBody(body, Elapsed(footer))
    ensures ValidSession([header] + body + [footer])
  {
    var lines := [header] + body + [footer];
    var end := |lines| - 1;
    forall i | 0 <= i < |lines|
      ensures ValidStructure(lines[i]) && Elapsed(lines[i]) <= Elapsed(footer)
      ensures 0 < i < end ==> lines[i] == body[i - 1] && !IsHeader(lines[i]) && !IsFooter(lines[i])
    {
      assert lines[i] == if i == 0 then header else if i == end then footer else body[i - 1];
    }
  }

  lemma ValidIsFramed(header: Line, body: seq<Line>, footer: Line)
    requires ValidSession([header] + body + [footer])
    ensures ValidBody(body, Elapsed(footer))
  {
    var lines := [header] + body + [footer];
    var end := |lines| - 1;
    forall i | 0 <= i < |body|
      ensures ValidStructure(body[i]) && !IsHeader(body[i]) && !IsFooter(body[i]) && Elapsed(body[i]) <= Elapsed(footer)
    {
      assert body[i] == lines[i + 1] && Elapsed(lines[i + 1]) <= Elapsed(lines[end]);
    }
    forall i, j | 0 <= i <= j < |body|
      ensures Elapsed(body[i]) <= Elapsed(body[j])
    {
      assert body[i] == lines[i + 1] && body[j] == lines[j + 1];
    }
  }

  lemma BodyIsValidExactly(entries: seq<Entry>, origin: int, finish: int)
    requires Recordable(entries, origin)
    ensures ValidBody(Lines(entries, origin), ElapsedUs(finish, origin)) <==>
            InOrder(entries, origin, finish) && forall i | 0 <= i < |entries| :: Replayable(entries[i])
  {
    var body := Lines(entries, origin);
    forall i | 0 <= i < |entries|
      ensures ValidStructure(body[i]) <==> Replayable(entries[i])
      ensures !IsHeader(body[i]) && !IsFooter(body[i])
      ensures Elapsed(body[i]) == ElapsedUs(entries[i].at, origin)
    {
      EntryIsShaped(entries[i], origin);
    }
    if ValidBody(body, ElapsedUs(finish, origin)) {
      forall i, j | 0 <= i <= j < |entries|
        ensures ElapsedUs(entries[i].at, origin) <= ElapsedUs(entries[j].at, origin)
      {
        assert Elapsed(body[i]) <= Elapsed(body[j]);
      }
    }
  }

  /** A finished file is a valid session exactly when its times never go back at microsecond
      resolution, no payload is empty and every value is finite. */
  lemma FinishedIsValidExactly(uuid: string, entries: seq<Entry>, origin: int, finish: int)
    requires uuid != "" && Recordable(entries, origin) && ElapsedUs(finish, origin) >= 0
    ensures ValidSession(Recording(uuid, entries, origin, finish)) <==>
            InOrder(entries, origin, finish) && forall i | 0 <= i < |entries| :: Replayable(entries[i])
  {
    var lines := Recording(uuid, entries, origin, finish);
    var body, footer := Lines(entries, origin), lines[|lines| - 1];
    BodyIsValidExactly(entries, origin, finish);
    if ValidBody(body, Elapsed(footer)) {
      FramedIsValid(HeaderLine(uuid), body, footer);
    } else if ValidSession(lines) {
      ValidIsFramed(HeaderLine(uuid), body, footer);
    }
  }

  /** Recording at times that never go back is enough, whatever the resolution. */
  lemma MonotoneTimesAreInOrder(entries: seq<Entry>, origin: int, finish: int)
    requires forall i, j | 0 <= i <= j < |entries| :: entries[i].at <= entries[j].at
    requires forall i | 0 <= i < |entries| :: entries[i].at <= finish
    ensures InOrder(entries, origin, finish)
  {
  }

  // ---------------------------------------------------------------- replay

  /** What was recorded of OBD traffic. */
  function Recorded(entries: seq<Entry>, origin: int): seq<Replayed>
    requires Recordable(entries, origin)
  {
    if entries == [] then []
    else
      var e := entries[0];
      (if e.Obd? then [Replayed(ElapsedUs(e.at, origin), e.sequence, e.ecu, e.payload)] else [])
      + Recorded(entries[1..], origin)
  }

  lemma EntryReplays(e: Entry, origin: int)
    requires ElapsedUs(e.at, origin) >= 0
    ensures IsObd(LineOf(e, origin)) <==> e.Obd?
    ensures e.Obd? ==> Decode(LineOf(e, origin)) == Replayed(ElapsedUs(e.at, origin), e.sequence, e.ecu, e.payload)
  {
    if e.Obd? {
      AddressRoundTrip(e.ecu);
      DecodeHexInvertsHex(e.payload);
    }
  }

  lemma {:induction false} LinesReplay(lines: seq<Line>, k: nat, entries: seq<Entry>, origin: int)
    requires Recordable(entries, origin)
    requires |lines| == k + |entries| + 1 && IsFooter(lines[|lines| - 1])
    requires forall i | 0 <= i < |entries| :: lines[k + i] == LineOf(entries[i], origin)
    ensures ObdFrom(lines, k) == Recorded(entries, origin)
    decreases |entries|
  {
    if entries == [] {
      assert ObdFrom(lines, k) == ObdFrom(lines, k + 1) == [];
    } else {
      assert lines[k + 0] == LineOf(entries[0], origin);
      EntryReplays(entries[0], origin);
      forall i | 0 <= i < |entries| - 1
        ensures lines[k + 1 + i] == LineOf(entries[1..][i], origin)
      {
        assert lines[k + (i + 1)] == LineOf(entries[i + 1], origin);
      }
      LinesReplay(lines, k + 1, entries[1..], origin);
    }
  }

  /** Replaying a finished file from its start gives the recorded messages back: elapsed time,
      sequence number, address and payload of each, in order. */
  lemma ReplayIsWhatWasRecorded(uuid: string, entries: seq<Entry>, origin: int, finish: int)
    requires Recordable(entries, origin) && ElapsedUs(finish, origin) >= 0
    ensures ObdFrom(Recording(uuid, entries, origin, finish), 0) == Recorded(entries, origin)
  {
    var lines := Recording(uuid, entries, origin, finish);
    assert ObdFrom(lines, 0) == ObdFrom(lines, 1);
    LinesReplay(lines, 1, entries, origin);
  }

  // ---------------------------------------------------------------- the recorder

  class JsonlSessionRecorder {
    var open: bool
    var origin: int
    var statistics: Statistics
    var observedQueueDrops: nat
    /** The partial file, and the file last published. */
    var lines: seq<Line>
    var published: Option<seq<Line>>
    ghost var uuid: string
    ghost var entries: seq<Entry>
    /** Drops reported by the caller itself, and drops whose marker could not be written. */
    ghost var reportedLoss: nat
    ghost var unmarked: nat

    /** The statistics recount the file, and an open file holds the header and the accepted entries. */
    ghost predicate Written()
      reads this`statistics, this`lines, this`open, this`uuid, this`entries, this`origin
    {
      && statistics == Count(lines)
      && (open ==> uuid != "" && Recordable(entries, origin) && lines == [HeaderLine(uuid)] + Lines(entries, origin))
    }

    /** Besides, every drop that was reported is in the file or its marker was refused. */
    ghost predicate Valid()
      reads this
    {
      Written() && statistics.droppedRecords + unmarked == observedQueueDrops + reportedLoss
    }

    constructor ()
      ensures Valid() && !open && published == None
    {
      open, origin, statistics, observedQueueDrops, lines, published := false, 0, NO_STATISTICS, 0, [], None;
      uuid, entries, reportedLoss, unmarked := "", [], 0, 0;
    }

    /** Appends one line; `storageOk` says whether the storage takes it. A failed write ends the recording. */
    method WriteRecord(record: Option<Record>, storageOk: bool) returns (r: Result<(), Error>)
      requires statistics == Count(lines)
      modifies this`lines, this`statistics, this`open
      ensures statistics == Count(lines)
      ensures r.Ok? <==> old(open) && record.Some? && storageOk
      ensures r.Ok? ==> open && lines == old(lines) + [Parsed(record.value, true)] && statistics == Counted(old(statistics), Parsed(record.value, true))
      ensures r.Err? ==> lines == old(lines) && statistics == old(statistics)
      ensures r.Err? ==> open == (old(open) && record.None?)
      ensures r == Err(StorageUnavailable) <==> old(open) && record.Some? && !storageOk
    {
      if !open || record.None? {
        return Err(InvalidFormat);
      }
      if !storageOk {
        open := false;
        return Err(StorageUnavailable);
      }
      lines := lines + [Parsed(record.value, true)];
      assert lines[..|lines| - 1] == old(lines);
      statistics := Counted(statistics, Parsed(record.value, true));
      return Ok(());
    }

    method WriteEntry(e: Entry, storageOk: bool) returns (r: Result<(), Error>)
      requires Written() && (e.Loss? ==> e.dropped > 0)
      modifies this`lines, this`statistics, this`open, this`entries
      ensures Written()
      ensures r.Ok? <==> old(open) && ElapsedUs(e.at, origin) >= 0 && storageOk
      ensures r.Ok? ==> open && entries == old(entries) + [e]
      ensures r.Err? ==> entries == old(entries) && lines == old(lines) && open == (old(open) && ElapsedUs(e.at, origin) < 0)
      ensures statistics.droppedRecords == old(statistics).droppedRecords + if r.Ok? && e.Loss? then e.dropped else 0
    {
      r := WriteRecord(if ElapsedUs(e.at, origin) >= 0 then Some(LineOf(e, origin).record) else None, storageOk);
      if r.Ok? {
        entries := entries + [e];
        assert [HeaderLine(uuid)] + Lines(entries, origin) ==
               ([HeaderLine(uuid)] + Lines(old(entries), origin)) + [LineOf(e, origin)];
      }
    }

    lemma HeaderAlone(id: string, at: int)
      ensures Count([]) == NO_STATISTICS && Counted(NO_STATISTICS, HeaderLine(id)).droppedRecords == 0
      ensures [] + [HeaderLine(id)] == [HeaderLine(id)] + Lines([], at)
    {
    }

    method Start(validPath: bool, id: string, at: int, openOk: bool, storageOk: bool) returns (r: Result<(), Error>)
      requires Valid()
      modifies this
      ensures Valid() && published == old(published)
      ensures r.Ok? <==> !old(open) && validPath && id != "" && openOk && storageOk
      ensures r.Ok? ==> open && origin == at && uuid == id && entries == [] && observedQueueDrops == 0
      ensures old(open) ==> unchanged(this)
      ensures r.Err? ==> open == old(open)
    {
      if open || !validPath || id == "" {
        return Err(InvalidFormat);
      }
      if !openOk {
        return Err(StorageUnavailable);
      }
      HeaderAlone(id, at);
      origin, statistics, observedQueueDrops, open, lines := at, NO_STATISTICS, 0, true, [];
      uuid, entries, reportedLoss, unmarked := id, [], 0, 0;
      r := WriteRecord(Some(Header(0, id)), storageOk);
    }

    /** Writes one entry: exactly one line of it if accepted, nothing at all if it is older than the
        recording. */
    method Record(e: Entry, storageOk: bool) returns (r: Result<(), Error>)
      requires Valid()
      modifies this`lines, this`statistics, this`open, this`entries, this`reportedLoss
      ensures Valid()
      ensures r.Ok? <==> e == Loss(e.at, 0) || (old(open) && ElapsedUs(e.at, origin) >= 0 && storageOk)
      ensures e == Loss(e.at, 0) ==> unchanged(this)
      ensures e != Loss(e.at, 0) && r.Ok? ==> open && entries == old(entries) + [e]
      ensures r.Err? ==> entries == old(entries) && lines == old(lines) && open == (old(open) && ElapsedUs(e.at, origin) < 0)
    {
      if e.Loss? && e.dropped == 0 {
        return Ok(());
      }
      r := WriteEntry(e, storageOk);
      if r.Ok? && e.Loss? {
        reportedLoss := reportedLoss + e.dropped;
      }
    }

    /** Marks the drops the queue has counted since the last call. */
    method ObserveQueueDrops(cumulative: nat, at: int, storageOk: bool) returns (r: Result<(), Error>)
      requires Valid()
      modifies this`lines, this`statistics, this`open, this`entries, this`observedQueueDrops, this`unmarked
      ensures Valid()
      ensures observedQueueDrops == Max(old(observedQueueDrops), cumulative)
      ensures cumulative <= old(observedQueueDrops) ==> r.Ok? && unchanged(this)
      ensures cumulative > old(observedQueueDrops) ==>
                && (r.Ok? <==> old(open) && ElapsedUs(at, origin) >= 0 && storageOk)
                && (r.Ok? ==> entries == old(entries) + [Loss(at, cumulative - old(observedQueueDrops))] && unmarked == old(unmarked))
                && (r.Err? ==> entries == old(entries) && unmarked == old(unmarked) + cumulative - old(observedQueueDrops))
    {
      if cumulative <= observedQueueDrops {
        return Ok(());
      }
      var delta: nat := cumulative - observedQueueDrops;
      observedQueueDrops := cumulative;
      r := WriteEntry(Loss(at, delta), storageOk);
      if r.Err? {
        unmarked := unmarked + delta;
      }
    }

    /** Completes the file with its footer and publishes it. */
    method Finish(at: int, storageOk: bool, closeOk: bool, publishOk: bool) returns (r: Result<(), Error>)
      requires Valid()
      modifies this`lines, this`statistics, this`open, this`published
      ensures Valid()
      ensures r.Ok? <==> old(open) && ElapsedUs(at, origin) >= 0 && storageOk && closeOk && publishOk
      ensures r.Ok? ==> !open && Recordable(entries, origin) && published == Some(Recording(uuid, entries, origin, at))
      ensures r.Err? ==> published == old(published) && open == (old(open) && ElapsedUs(at, origin) < 0)
    {
      if !open {
        return Err(InvalidFormat);
      }
      var elapsed := ElapsedUs(at, origin);
      var counted := statistics.(totalRecords := statistics.totalRecords + 1);
      r := WriteRecord(if elapsed >= 0 then Some(Footer(elapsed, counted)) else None, storageOk);
      if r.Err? {
        return;
      }
      open := false;
      if !closeOk || !publishOk {
        return Err(StorageUnavailable);
      }
      published := Some(lines);
    }
  }
}
