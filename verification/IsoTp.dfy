/** The ISO-TP trace segmenter, parser and reassembler (section 9.6 of ISO 15765-2:2016). */
module IsoTp {
  import opened Wrappers

  const MAX_PAYLOAD: nat := 4095

  datatype Address = Address(source: EcuAddress, destination: EcuAddress)

  datatype TraceFrame = TraceFrame(address: Address, timestamp: int, bytes: seq<Byte>)

  datatype Frame =
    | SingleFrame(address: Address, timestamp: int, payload: seq<Byte>)
    | FirstFrame(address: Address, timestamp: int, payload: seq<Byte>, declared: nat)
    | ConsecutiveFrame(address: Address, timestamp: int, payload: seq<Byte>, sequence: nat)
    | FlowControl(address: Address, timestamp: int, status: nat, blockSize: Byte, stMin: Byte)

  datatype Error = Malformed | Timeout | TooLarge

  // ---------------------------------------------------------------- parsing

  function Parse(t: TraceFrame): Result<Frame, Error> {
    if t.bytes == [] || |t.bytes| > 8 then Err(Malformed)
    else
      var kind: int := t.bytes[0] / 16;
      var low: int := t.bytes[0] % 16;
      if kind == 0 then
        if low == 0 || low > 7 || |t.bytes| != low + 1 then Err(Malformed)
        else Ok(SingleFrame(t.address, t.timestamp, t.bytes[1..]))
      else if kind == 1 then
        if |t.bytes| < 3 then Err(Malformed)
        else
          var declared := low * 256 + t.bytes[1];
          if declared <= 7 || declared > MAX_PAYLOAD then Err(Malformed)
          else Ok(FirstFrame(t.address, t.timestamp, t.bytes[2..], declared))
      else if kind == 2 then
        if |t.bytes| < 2 then Err(Malformed)
        else Ok(ConsecutiveFrame(t.address, t.timestamp, t.bytes[1..], low))
      else if kind == 3 then
        if |t.bytes| < 3 || low > 2 then Err(Malformed)
        else Ok(FlowControl(t.address, t.timestamp, low, t.bytes[1], t.bytes[2]))
      else Err(Malformed)
  }

  /** The frames the PCI formats can carry in at most eight bytes. */
  predicate WellFormed(f: Frame) {
    match f
    case SingleFrame(_, _, p) => 1 <= |p| <= 7
    case FirstFrame(_, _, p, n) => 1 <= |p| <= 6 && 7 < n <= MAX_PAYLOAD
    case ConsecutiveFrame(_, _, p, s) => 1 <= |p| <= 7 && s < 16
    case FlowControl(_, _, s, _, _) => s <= 2
  }

  function Encode(f: Frame): TraceFrame
    requires WellFormed(f)
  {
    match f
    case SingleFrame(a, t, p) => TraceFrame(a, t, [|p|] + p)
    case FirstFrame(a, t, p, n) => TraceFrame(a, t, [16 + n / 256, n % 256] + p)
    case ConsecutiveFrame(a, t, p, s) => TraceFrame(a, t, [32 + s] + p)
    case FlowControl(a, t, s, b, m) => TraceFrame(a, t, [48 + s, b, m])
  }

  /** Parsing accepts exactly the encodings of well-formed frames, and inverts them; only a
      flow-control frame may carry further bytes, which are ignored. */
  lemma ParseInvertsEncode(t: TraceFrame, f: Frame)
    ensures Parse(t) == Ok(f) <==>
            && WellFormed(f)
            && |t.bytes| <= 8
            && Encode(f).bytes <= t.bytes
            && (f.FlowControl? || Encode(f).bytes == t.bytes)
            && t.address == f.address && t.timestamp == f.timestamp
  {
    if Parse(t) == Ok(f) {
      match f
      case FirstFrame(_, _, p, n) =>
        assert t.bytes == [t.bytes[0], t.bytes[1]] + p;
      case FlowControl(_, _, s, b, m) =>
        assert t.bytes == [48 + s, b, m] + t.bytes[3..];
      case _ =>
        assert t.bytes == [t.bytes[0]] + f.payload;
    } else if WellFormed(f) && Encode(f).bytes <= t.bytes && |t.bytes| <= 8 {
      var e := Encode(f).bytes;
      assert forall i | 0 <= i < |e| :: t.bytes[i] == e[i];
      match f
      case SingleFrame(_, _, p) => assert e[1..] == p;
      case FirstFrame(_, _, p, n) => assert e[2..] == p;
      case ConsecutiveFrame(_, _, p, s) => assert e[1..] == p;
      case FlowControl(_, _, s, b, m) =>
    }
  }

  // ---------------------------------------------------------------- reassembly

  datatype Pending = Pending(declared: nat, expected: nat, last: int, payload: seq<Byte>)

  type Table = map<Address, Pending>

  datatype Outcome = Nothing | Emitted(address: Address, completedAt: int, payload: seq<Byte>) | Rejected(error: Error)

  function AcceptFrame(timeout: int, table: Table, f: Frame): (Table, Outcome) {
    match f
    case FlowControl(_, _, _, _, _) => (table, Nothing)
    case SingleFrame(a, t, p) => (table, Emitted(a, t, p))
    case FirstFrame(a, t, p, n) =>
      if |p| >= n then (table, Rejected(Malformed))
      else (table[a := Pending(n, 1, t, p)], Nothing)
    case ConsecutiveFrame(a, t, p, s) =>
      if a !in table then (table, Rejected(Malformed))
      else if t - table[a].last > timeout then (table - {a}, Rejected(Timeout))
      else if s != table[a].expected then (table - {a}, Rejected(Malformed))
      else
        var remaining := table[a].declared - |table[a].payload|;
        var gathered := table[a].payload + (if |p| <= remaining then p else if remaining < 0 then [] else p[..remaining]);
        if |gathered| != table[a].declared
        then (table[a := Pending(table[a].declared, (table[a].expected + 1) % 16, t, gathered)], Nothing)
        else (table - {a}, Emitted(a, t, gathered))
  }

  function Expire(timeout: int, table: Table, now: int): Table {
    map a | a in table && now - table[a].last <= timeout :: table[a]
  }

  class Reassembler {
    const timeout: int
    var pending: Table

    constructor (timeout: int)
      ensures this.timeout == timeout && pending == map[]
    {
      this.timeout := timeout;
      pending := map[];
    }

    ghost predicate Valid()
      reads this
    {
      forall a | a in pending :: |pending[a].payload| < pending[a].declared
    }

    method Accept(f: Frame) returns (o: Outcome)
      requires Valid()
      modifies this
      ensures Valid()
      ensures (pending, o) == AcceptFrame(timeout, old(pending), f)
    {
      if f.FlowControl? {
        return Nothing;
      }
      if f.SingleFrame? {
        return Emitted(f.address, f.timestamp, f.payload);
      }
      if f.FirstFrame? {
        var fresh_ := Pending(f.declared, 1, f.timestamp, f.payload);
        if |fresh_.payload| >= fresh_.declared {
          return Rejected(Malformed);
        }
        pending := pending[f.address := fresh_];
        return Nothing;
      }
      if f.address !in pending {
        return Rejected(Malformed);
      }
      var entry := pending[f.address];
      if f.timestamp - entry.last > timeout {
        pending := pending - {f.address};
        return Rejected(Timeout);
      }
      if f.sequence != entry.expected {
        pending := pending - {f.address};
        return Rejected(Malformed);
      }
      var copyCount := Min(entry.declared - |entry.payload|, |f.payload|);
      assert f.payload[..|f.payload|] == f.payload;
      entry := entry.(payload := entry.payload + f.payload[..copyCount]);
      entry := entry.(last := f.timestamp);
      entry := entry.(expected := (entry.expected + 1) % 16);
      if |entry.payload| != entry.declared {
        pending := pending[f.address := entry];
        return Nothing;
      }
      pending := pending - {f.address};
      return Emitted(f.address, f.timestamp, entry.payload);
    }

    /** Drops exactly the entries older than the timeout and counts them. */
    method ExpireEntries(now: int) returns (dropped: nat)
      requires Valid()
      modifies this
      ensures Valid()
      ensures pending == Expire(timeout, old(pending), now)
      ensures dropped == |old(pending)| - |pending|
    {
      var before := |pending|;
      var kept := map a | a in pending && now - pending[a].last <= timeout :: pending[a];
      assert kept.Keys <= pending.Keys;
      SubsetCardinality(kept.Keys, pending.Keys);
      pending := kept;
      dropped := before - |pending|;
    }

    method Reset()
      modifies this
      ensures Valid() && pending == map[]
    {
      pending := map[];
    }
  }

  lemma {:induction false} SubsetCardinality<T>(a: set<T>, b: set<T>)
    requires a <= b
    ensures |a| <= |b|
  {
    if a != {} {
      var x :| x in a;
      SubsetCardinality(a - {x}, b - {x});
    }
  }

  // ---------------------------------------------------------------- soundness on arbitrary traces

  datatype Event = Received(frame: Frame) | Expired(now: int) | Cleared

  function Replay(timeout: int, events: seq<Event>): Table {
    if events == [] then map[]
    else
      var before := Replay(timeout, events[..|events| - 1]);
      match events[|events| - 1]
      case Received(f) => AcceptFrame(timeout, before, f).0
      case Expired(now) => Expire(timeout, before, now)
      case Cleared => map[]
  }

  /** The first frame most recently received for an address and every consecutive frame after it. */
  function CurrentRun(timeout: int, events: seq<Event>, a: Address): seq<Frame> {
    if events == [] then []
    else
      var before := CurrentRun(timeout, events[..|events| - 1], a);
      match events[|events| - 1]
      case Received(f) =>
        if f.address != a then before
        else if f.FirstFrame? then [f]
        else if f.ConsecutiveFrame? && before != [] then before + [f]
        else before
      case Expired(now) =>
        if before != [] && now - before[|before| - 1].timestamp > timeout then [] else before
      case Cleared => []
  }

  /** The k-th frame of a run continues it: next sequence number, within the timeout. */
  predicate Continues(timeout: int, run: seq<Frame>, k: nat)
    requires 1 <= k < |run|
  {
    && run[k].ConsecutiveFrame?
    && run[k].sequence == k % 16
    && run[k].timestamp - run[k - 1].timestamp <= timeout
  }

  predicate InOrder(timeout: int, run: seq<Frame>) {
    && run != []
    && run[0].FirstFrame?
    && forall k | 1 <= k < |run| :: Continues(timeout, run, k)
  }

  function Gathered(run: seq<Frame>): seq<Byte> {
    if run == [] then []
    else
      var last := run[|run| - 1];
      Gathered(run[..|run| - 1]) + (if last.FlowControl? then [] else last.payload)
  }

  predicate Open(timeout: int, run: seq<Frame>) {
    && InOrder(timeout, run)
    && |Gathered(run)| < run[0].declared
  }

  predicate AllWellFormed(events: seq<Event>) {
    forall e | e in events && e.Received? :: WellFormed(e.frame)
  }

  lemma {:induction false} RunShape(timeout: int, events: seq<Event>, a: Address)
    ensures var run := CurrentRun(timeout, events, a);
            && (run != [] ==> run[0].FirstFrame? && Received(run[0]) in events)
            && forall k | 1 <= k < |run| :: run[k].ConsecutiveFrame?
  {
    if events != [] {
      RunShape(timeout, events[..|events| - 1], a);
    }
  }

  lemma OrderExtends(timeout: int, run: seq<Frame>, f: Frame)
    requires run != [] && f.ConsecutiveFrame?
    ensures InOrder(timeout, run + [f]) <==>
            && InOrder(timeout, run)
            && f.sequence == |run| % 16
            && f.timestamp - run[|run| - 1].timestamp <= timeout
  {
    var ext := run + [f];
    forall k | 1 <= k < |run|
      ensures Continues(timeout, ext, k) == Continues(timeout, run, k)
    {
      assert ext[k] == run[k] && ext[k - 1] == run[k - 1];
    }
    if InOrder(timeout, ext) {
      assert Continues(timeout, ext, |run|);
      forall k | 1 <= k < |run|
        ensures Continues(timeout, run, k)
      {
        assert Continues(timeout, ext, k);
      }
    }
  }

  lemma GatheredExtends(run: seq<Frame>, f: Frame)
    requires !f.FlowControl?
    ensures Gathered(run + [f]) == Gathered(run) + f.payload
  {
    assert (run + [f])[..|run|] == run;
  }

  /** An address is pending exactly when its run is open, with the entry the run determines. */
  predicate Agrees(timeout: int, table: Table, a: Address, run: seq<Frame>) {
    && (a in table <==> Open(timeout, run))
    && (a in table ==> table[a] == Pending(run[0].declared, |run| % 16, run[|run| - 1].timestamp, Gathered(run)))
  }

  lemma FirstFrameAgrees(timeout: int, table: Table, f: Frame)
    requires WellFormed(f) && f.FirstFrame?
    ensures Agrees(timeout, AcceptFrame(timeout, table, f).0, f.address, [f])
  {
    assert [] + [f] == [f];
    GatheredExtends([], f);
  }

  lemma ConsecutiveFrameAgrees(timeout: int, table: Table, run: seq<Frame>, f: Frame)
    requires f.ConsecutiveFrame? && run != []
    requires Agrees(timeout, table, f.address, run)
    ensures Agrees(timeout, AcceptFrame(timeout, table, f).0, f.address, run + [f])
  {
    NextSequence(|run|);
    OrderExtends(timeout, run, f);
    GatheredExtends(run, f);
    assert (run + [f])[0] == run[0];
    if f.address in table && |Gathered(run + [f])| < run[0].declared {
      assert table[f.address].payload + f.payload == Gathered(run + [f]);
    }
  }

  /** After any history of parsed frames, expiries and resets, an address is pending exactly when
      the run since its last first frame is in order, within the timeout and still short. */
  lemma {:induction false} TableIsRun(timeout: int, events: seq<Event>, a: Address)
    requires AllWellFormed(events)
    ensures Agrees(timeout, Replay(timeout, events), a, CurrentRun(timeout, events, a))
  {
    if events == [] { return; }
    var init, e := events[..|events| - 1], events[|events| - 1];
    assert AllWellFormed(init);
    TableIsRun(timeout, init, a);
    var run, table := CurrentRun(timeout, init, a), Replay(timeout, init);
    match e
    case Expired(now) =>
    case Cleared =>
    case Received(f) =>
      assert e in events;
      if f.address == a && f.FirstFrame? {
        FirstFrameAgrees(timeout, table, f);
      } else if f.address == a && f.ConsecutiveFrame? && run != [] {
        ConsecutiveFrameAgrees(timeout, table, run, f);
      }
  }

  /** A consecutive frame completes a message if and only if the run it ends is in order and within
      the timeout, was short before it and is not short after it; the message then is exactly the
      declared number of leading bytes of the run. */
  lemma EmissionIsExact(timeout: int, events: seq<Event>, f: Frame, o: Outcome)
    requires AllWellFormed(events) && WellFormed(f) && f.ConsecutiveFrame?
    requires o == AcceptFrame(timeout, Replay(timeout, events), f).1
    ensures var before := CurrentRun(timeout, events, f.address);
            var run := CurrentRun(timeout, events + [Received(f)], f.address);
            && run == (if before == [] then [] else before + [f])
            && (o.Emitted? <==> Open(timeout, before) && InOrder(timeout, run) && |Gathered(run)| >= run[0].declared)
            && (o.Emitted? ==> && |o.payload| == run[0].declared
                               && o.payload <= Gathered(run)
                               && o == Emitted(f.address, f.timestamp, o.payload))
  {
    var a := f.address;
    var before := CurrentRun(timeout, events, a);
    TableIsRun(timeout, events, a);
    RunShape(timeout, events, a);
    assert (events + [Received(f)])[..|events|] == events;
    if before != [] {
      OrderExtends(timeout, before, f);
      if InOrder(timeout, before) {
        GatheredExtends(before, f);
      }
    }
  }

  /** Every pending entry is short of its declared length, so a parsed first frame is never refused. */
  lemma PendingIsShort(timeout: int, events: seq<Event>, a: Address, f: Frame)
    requires AllWellFormed(events) && WellFormed(f) && f.FirstFrame?
    ensures var table := Replay(timeout, events);
            && (a in table ==> |table[a].payload| < table[a].declared && table[a].expected < 16)
            && AcceptFrame(timeout, table, f).1 == Nothing
  {
    TableIsRun(timeout, events, a);
  }

  // ---------------------------------------------------------------- segmentation

  datatype Message = Message(address: Address, payload: seq<Byte>, start: int, spacing: int)

  predicate Sendable(m: Message) {
    1 <= |m.payload| <= MAX_PAYLOAD
  }

  lemma NextSequence(j: nat)
    ensures (j % 16 + 1) % 16 == (j + 1) % 16
  {
  }

  function FrameCount(length: nat): nat {
    if length <= 7 then 1 else 1 + length / 7
  }

  function Sent(m: Message, j: nat): nat
    requires |m.payload| > 7
  {
    Min(6 + 7 * j, |m.payload|)
  }

  /** The j-th frame is `j` spacings after the first. */
  function SentAt(m: Message, j: nat): int {
    if j == 0 then m.start else SentAt(m, j - 1) + m.spacing
  }

  function FrameAt(m: Message, j: nat): Frame
    requires Sendable(m) && j < FrameCount(|m.payload|)
  {
    var at := SentAt(m, j);
    if |m.payload| <= 7 then SingleFrame(m.address, at, m.payload)
    else if j == 0 then FirstFrame(m.address, at, m.payload[..6], |m.payload|)
    else ConsecutiveFrame(m.address, at, m.payload[Sent(m, j - 1)..Sent(m, j)], j % 16)
  }

  lemma FrameAtWellFormed(m: Message, j: nat)
    requires Sendable(m) && j < FrameCount(|m.payload|)
    ensures WellFormed(FrameAt(m, j))
    ensures Parse(Encode(FrameAt(m, j))) == Ok(FrameAt(m, j))
  {
    var f := FrameAt(m, j);
    assert |m.payload| > 7 && j > 0 ==> 6 + 7 * (j - 1) < |m.payload|;
    assert WellFormed(f);
    assert |Encode(f).bytes| <= 8;
    ParseInvertsEncode(Encode(f), f);
  }

  function Frames(m: Message): seq<TraceFrame>
    requires Sendable(m)
  {
    FramesUpTo(m, FrameCount(|m.payload|))
  }

  function FramesUpTo(m: Message, count: nat): (r: seq<TraceFrame>)
    requires Sendable(m) && count <= FrameCount(|m.payload|)
    ensures |r| == count
  {
    if count == 0 then []
    else
      FrameAtWellFormed(m, count - 1);
      FramesUpTo(m, count - 1) + [Encode(FrameAt(m, count - 1))]
  }

  lemma {:induction false} FrameOf(m: Message, count: nat, j: nat)
    requires Sendable(m) && j < count <= FrameCount(|m.payload|)
    ensures WellFormed(FrameAt(m, j)) && FramesUpTo(m, count)[j] == Encode(FrameAt(m, j))
  {
    FrameAtWellFormed(m, j);
    if j + 1 < count {
      FrameOf(m, count - 1, j);
    }
  }

  lemma LeadingFrame(m: Message)
    requires Sendable(m)
    ensures var n := |m.payload|;
            FramesUpTo(m, 1) ==
            [TraceFrame(m.address, m.start, if n <= 7 then [n] + m.payload else [16 + (n / 256) % 16, n % 256] + m.payload[..6])]
  {
    FrameAtWellFormed(m, 0);
    assert FramesUpTo(m, 1) == FramesUpTo(m, 0) + [Encode(FrameAt(m, 0))];
  }

  lemma ConsecutiveFrameNext(m: Message, j: nat)
    requires Sendable(m) && |m.payload| > 7 && 1 <= j < FrameCount(|m.payload|)
    ensures var offset, next := Sent(m, j - 1), Sent(m, j);
            && offset < next == offset + Min(7, |m.payload| - offset)
            && (next < |m.payload| <==> j + 1 < FrameCount(|m.payload|))
            && SentAt(m, j) == SentAt(m, j - 1) + m.spacing
            && FramesUpTo(m, j + 1) ==
               FramesUpTo(m, j) + [TraceFrame(m.address, SentAt(m, j), [32 + j % 16] + m.payload[offset..next])]
  {
    FrameAtWellFormed(m, j);
  }

  /** The segmenting loop: one single frame, or a first frame and consecutive frames of at most
      seven bytes whose sequence number wraps from 15 to 0. */
  method MakeFrames(m: Message) returns (r: Result<seq<TraceFrame>, Error>)
    ensures !Sendable(m) ==> r == Err(TooLarge)
    ensures Sendable(m) ==> r == Ok(Frames(m))
  {
    var n := |m.payload|;
    if n == 0 || n > MAX_PAYLOAD {
      return Err(TooLarge);
    }
    LeadingFrame(m);
    if n <= 7 {
      return Ok([TraceFrame(m.address, m.start, [n] + m.payload)]);
    }
    var frames := [TraceFrame(m.address, m.start, [16 + (n / 256) % 16, n % 256] + m.payload[..6])];
    var offset, sequence, timestamp := 6, 1, m.start;
    ghost var j := 1;
    while offset < n
      invariant 1 <= j <= FrameCount(n) && 0 <= sequence < 16
      invariant offset == Sent(m, j - 1)
      invariant offset < n <==> j < FrameCount(n)
      invariant sequence == j % 16
      invariant timestamp == SentAt(m, j - 1)
      invariant frames == FramesUpTo(m, j)
      decreases n - offset
    {
      timestamp := timestamp + m.spacing;
      var count := Min(7, n - offset);
      ConsecutiveFrameNext(m, j);
      frames := frames + [TraceFrame(m.address, timestamp, [32 + sequence] + m.payload[offset..offset + count])];
      offset := offset + count;
      NextSequence(j);
      sequence := (sequence + 1) % 16;
      j := j + 1;
    }
    return Ok(frames);
  }

  // ---------------------------------------------------------------- interleaved round trip

  function Only(trace: seq<TraceFrame>, a: Address): seq<TraceFrame> {
    if trace == [] then []
    else
      var last := trace[|trace| - 1];
      Only(trace[..|trace| - 1], a) + (if last.address == a then [last] else [])
  }

  function ProcessFrame(timeout: int, table: Table, t: TraceFrame): (Table, Outcome) {
    match Parse(t)
    case Ok(f) => AcceptFrame(timeout, table, f)
    case Err(e) => (table, Rejected(e))
  }

  function TableAfter(timeout: int, table: Table, trace: seq<TraceFrame>): Table {
    if trace == [] then table
    else ProcessFrame(timeout, TableAfter(timeout, table, trace[..|trace| - 1]), trace[|trace| - 1]).0
  }

  /** What the reassembler answers to the k-th frame of a trace. */
  function OutcomeAt(timeout: int, table: Table, trace: seq<TraceFrame>, k: nat): Outcome
    requires k < |trace|
  {
    ProcessFrame(timeout, TableAfter(timeout, table, trace[..k]), trace[k]).1
  }

  lemma {:induction false} OnlyPrefix(trace: seq<TraceFrame>, a: Address, k: nat)
    requires k < |trace|
    ensures Only(trace[..k + 1], a) <= Only(trace, a)
    ensures Only(trace[..k + 1], a) == Only(trace[..k], a) + (if trace[k].address == a then [trace[k]] else [])
  {
    assert trace[..k + 1][..k] == trace[..k];
    if k + 1 < |trace| {
      var init := trace[..|trace| - 1];
      OnlyPrefix(init, a, k);
      assert init[..k] == trace[..k] && init[..k + 1] == trace[..k + 1];
    } else {
      assert trace[..k + 1] == trace;
    }
  }

  /** What the table must hold for a message once its first `j` frames were accepted. */
  predicate Progressed(table: Table, m: Message, j: nat)
    requires Sendable(m)
  {
    1 <= j < FrameCount(|m.payload|) ==>
      && m.address in table
      && table[m.address] == Pending(|m.payload|, j % 16, SentAt(m, j - 1), m.payload[..Sent(m, j - 1)])
  }

  lemma AcceptAdvances(timeout: int, table: Table, m: Message, j: nat)
    requires Sendable(m) && m.spacing <= timeout && j < FrameCount(|m.payload|)
    requires Progressed(table, m, j)
    ensures var f := FrameAt(m, j);
            var (after, o) := AcceptFrame(timeout, table, f);
            && Progressed(after, m, j + 1)
            && o == (if j + 1 == FrameCount(|m.payload|) then Emitted(m.address, f.timestamp, m.payload) else Nothing)
  {
    NextSequence(j);
    if |m.payload| > 7 && j > 0 {
      assert m.payload[..Sent(m, j - 1)] + m.payload[Sent(m, j - 1)..Sent(m, j)] == m.payload[..Sent(m, j)];
      assert j + 1 == FrameCount(|m.payload|) ==> m.payload[..Sent(m, j)] == m.payload;
    }
  }

  /** A frame of another address, parsed or not, leaves an entry alone. */
  lemma OtherAddressKept(timeout: int, table: Table, t: TraceFrame, m: Message, j: nat)
    requires Sendable(m) && t.address != m.address && Progressed(table, m, j)
    ensures Progressed(ProcessFrame(timeout, table, t).0, m, j)
  {
  }

  lemma {:induction false} Progress(timeout: int, table: Table, trace: seq<TraceFrame>, m: Message, k: nat)
    requires Sendable(m) && m.spacing <= timeout && k <= |trace|
    requires Only(trace, m.address) == Frames(m)
    ensures Progressed(TableAfter(timeout, table, trace[..k]), m, |Only(trace[..k], m.address)|)
  {
    if k > 0 {
      Progress(timeout, table, trace, m, k - 1);
      OnlyPrefix(trace, m.address, k - 1);
      assert trace[..k][..k - 1] == trace[..k - 1];
      var before := TableAfter(timeout, table, trace[..k - 1]);
      assert TableAfter(timeout, table, trace[..k]) == ProcessFrame(timeout, before, trace[k - 1]).0;
      if trace[k - 1].address == m.address {
        FrameAccepted(timeout, table, trace, m, k - 1);
      } else {
        OtherAddressKept(timeout, before, trace[k - 1], m, |Only(trace[..k - 1], m.address)|);
      }
    }
  }

  lemma FrameAccepted(timeout: int, table: Table, trace: seq<TraceFrame>, m: Message, k: nat)
    requires Sendable(m) && m.spacing <= timeout && k < |trace|
    requires Only(trace, m.address) == Frames(m) && trace[k].address == m.address
    requires Progressed(TableAfter(timeout, table, trace[..k]), m, |Only(trace[..k], m.address)|)
    ensures var j := |Only(trace[..k], m.address)|;
            && j < FrameCount(|m.payload|)
            && trace[k] == Encode(FrameAt(m, j))
            && Progressed(ProcessFrame(timeout, TableAfter(timeout, table, trace[..k]), trace[k]).0, m, j + 1)
            && OutcomeAt(timeout, table, trace, k) ==
               (if j + 1 == FrameCount(|m.payload|) then Emitted(m.address, trace[k].timestamp, m.payload) else Nothing)
  {
    OnlyPrefix(trace, m.address, k);
    var j := |Only(trace[..k], m.address)|;
    assert Only(trace[..k + 1], m.address)[j] == trace[k];
    FrameOf(m, FrameCount(|m.payload|), j);
    FrameAtWellFormed(m, j);
    AcceptAdvances(timeout, TableAfter(timeout, table, trace[..k]), m, j);
  }

  /** Whatever the reassembler held before and whatever other addresses send in between, the frames
      of a message spaced within the timeout yield its payload on the last of them and nothing,
      not even an error, on every earlier one. */
  lemma InterleavedRoundTrip(timeout: int, table: Table, trace: seq<TraceFrame>, m: Message, k: nat)
    requires Sendable(m) && m.spacing <= timeout
    requires Only(trace, m.address) == Frames(m)
    requires k < |trace| && trace[k].address == m.address
    ensures OutcomeAt(timeout, table, trace, k) ==
            if Only(trace[..k + 1], m.address) == Frames(m)
            then Emitted(m.address, trace[k].timestamp, m.payload) else Nothing
  {
    Progress(timeout, table, trace, m, k);
    FrameAccepted(timeout, table, trace, m, k);
    OnlyPrefix(trace, m.address, k);
  }

  lemma {:induction false} LastFrameExists(trace: seq<TraceFrame>, a: Address) returns (k: nat)
    requires Only(trace, a) != []
    ensures k < |trace| && trace[k].address == a
    ensures Only(trace[..k], a) + [trace[k]] == Only(trace, a)
    ensures forall x | k < x < |trace| :: trace[x].address != a
  {
    var last := |trace| - 1;
    if trace[last].address == a {
      return last;
    }
    k := LastFrameExists(trace[..last], a);
    assert trace[..last][..k] == trace[..k];
  }

  lemma {:induction false} OnlyLength(trace: seq<TraceFrame>, a: Address, i: nat, j: nat)
    requires i <= j <= |trace|
    ensures |Only(trace[..i], a)| <= |Only(trace[..j], a)|
  {
    if i < j {
      OnlyLength(trace, a, i, j - 1);
      OnlyPrefix(trace, a, j - 1);
    }
  }

  /** An order-preserving merge of the frames of messages with pairwise distinct addresses. */
  ghost predicate Merges(trace: seq<TraceFrame>, messages: seq<Message>) {
    && (forall i | 0 <= i < |messages| :: Sendable(messages[i]))
    && (forall i, j | 0 <= i < j < |messages| :: messages[i].address != messages[j].address)
    && (forall t | t in trace :: exists i | 0 <= i < |messages| :: t.address == messages[i].address)
    && (forall i | 0 <= i < |messages| :: Only(trace, messages[i].address) == Frames(messages[i]))
  }

  /** A merge delivers each message exactly once, on its own last frame; every other frame of the
      trace is answered with nothing. */
  lemma MergeDelivers(timeout: int, table: Table, trace: seq<TraceFrame>, messages: seq<Message>, k: nat) returns (i: nat)
    requires Merges(trace, messages) && k < |trace|
    requires forall m | m in messages :: m.spacing <= timeout
    ensures i < |messages| && trace[k].address == messages[i].address
    ensures var last := forall x | k < x < |trace| :: trace[x].address != trace[k].address;
            OutcomeAt(timeout, table, trace, k) ==
            if last then Emitted(messages[i].address, trace[k].timestamp, messages[i].payload) else Nothing
  {
    assert trace[k] in trace;
    i :| 0 <= i < |messages| && trace[k].address == messages[i].address;
    var m := messages[i];
    InterleavedRoundTrip(timeout, table, trace, m, k);
    var z := LastFrameExists(trace, m.address);
    OnlyPrefix(trace, m.address, k);
    if k != z {
      assert k < z;
      OnlyLength(trace, m.address, k + 1, z);
    }
  }
}
