/** The adaptive PID scheduler: queued diagnostics first, then streaming by tier, due time and PID. */
module Scheduler {
  import opened Wrappers

  datatype Request = Request(mode: Byte, pid: Byte)

  datatype Tier = High | Medium | Low

  /** Time points are in nanoseconds, round trips and intervals in milliseconds. */
  const NS_PER_MS: int := 1_000_000

  datatype State = State(
    supported: seq<Byte>,
    nextDue: seq<int>,
    diagnostics: seq<Request>,
    inFlight: bool,
    congested: bool,
    ewma: int)

  const INITIAL: State := State([], [], [], false, false, 50)

  function TierFor(pid: Byte): Tier {
    if pid == 0x0C || pid == 0x0D || pid == 0x11 then High
    else if pid == 0x0B || pid == 0x10 || pid == 0x04 || pid == 0x0E || 0x14 <= pid <= 0x2B then Medium
    else Low
  }

  function Rank(t: Tier): nat {
    match t
    case High => 0
    case Medium => 1
    case Low => 2
  }

  function DispatchInterval(ewma: int): (ms: int)
    ensures ms >= 10
  {
    Max(10, TruncDiv(ewma * 5, 4))
  }

  function PeriodFor(ewma: int, congested: bool, t: Tier): (ms: int)
    ensures ms >= 3 * DispatchInterval(ewma)
    ensures t == High ==> ms == 3 * DispatchInterval(ewma)
  {
    var base := DispatchInterval(ewma);
    match t
    case High => base * 3
    case Medium => base * (if congested then 10 else 6)
    case Low => base * (if congested then 20 else 12)
  }

  predicate StrictlySorted(pids: seq<Byte>) {
    forall i, j | 0 <= i < j < |pids| :: pids[i] < pids[j]
  }

  predicate WellFormed(s: State) {
    && |s.nextDue| == |s.supported|
    && StrictlySorted(s.supported)
  }

  // ---------------------------------------------------------------- selection

  /** Whether PID `i` is served before PID `j`: tier first, then due time, then PID. */
  predicate Before(s: State, i: nat, j: nat)
    requires WellFormed(s) && i < |s.supported| && j < |s.supported|
  {
    var ti, tj := Rank(TierFor(s.supported[i])), Rank(TierFor(s.supported[j]));
    || ti < tj
    || (ti == tj && s.nextDue[i] < s.nextDue[j])
    || (ti == tj && s.nextDue[i] == s.nextDue[j] && s.supported[i] <= s.supported[j])
  }

  function Select(s: State, now: int, count: nat): (r: Option<nat>)
    requires WellFormed(s) && count <= |s.supported|
    ensures r.Some? ==> r.value < count
  {
    if count == 0 then None
    else
      var best := Select(s, now, count - 1);
      var i := count - 1;
      if s.nextDue[i] > now then best
      else if best.None? then Some(i)
      else
        var ti, tb := Rank(TierFor(s.supported[i])), Rank(TierFor(s.supported[best.value]));
        if ti < tb || (ti == tb && s.nextDue[i] < s.nextDue[best.value]) then Some(i) else best
  }

  /** The scan picks the least due PID, and picks one whenever any is due. */
  lemma {:induction false} SelectIsLeast(s: State, now: int, count: nat)
    requires WellFormed(s) && count <= |s.supported|
    ensures var r := Select(s, now, count);
            && (r.None? <==> forall i | 0 <= i < count :: s.nextDue[i] > now)
            && (r.Some? ==> && s.nextDue[r.value] <= now
                            && forall i | 0 <= i < count && s.nextDue[i] <= now :: Before(s, r.value, i))
  {
    if count > 0 {
      SelectIsLeast(s, now, count - 1);
      var best := Select(s, now, count - 1);
      if best.Some? {
        assert s.supported[best.value] < s.supported[count - 1];
      }
    }
  }

  // ---------------------------------------------------------------- specification

  function NextRequest(s: State, now: int): (State, Option<Request>)
    requires WellFormed(s)
  {
    if s.inFlight then (s, None)
    else if s.diagnostics != [] then
      (s.(diagnostics := s.diagnostics[1..], inFlight := true), Some(s.diagnostics[0]))
    else
      match Select(s, now, |s.supported|)
      case None => (s, None)
      case Some(i) =>
        var period := PeriodFor(s.ewma, s.congested, TierFor(s.supported[i]));
        (s.(nextDue := s.nextDue[i := now + period * NS_PER_MS], inFlight := true), Some(Request(0x01, s.supported[i])))
  }

  /** The head of the diagnostic queue is served before any streaming; otherwise the least due PID
      by tier, due time and PID; and nothing is served only in flight or with nothing due. */
  lemma NextServes(s: State, now: int)
    requires WellFormed(s)
    ensures var r := NextRequest(s, now).1;
            if s.inFlight then r.None?
            else if s.diagnostics != [] then r == Some(s.diagnostics[0])
            else if forall i | 0 <= i < |s.supported| :: s.nextDue[i] > now then r.None?
            else exists i | 0 <= i < |s.supported| ::
                   && r == Some(Request(1, s.supported[i])) && s.nextDue[i] <= now
                   && forall j | 0 <= j < |s.supported| && s.nextDue[j] <= now :: Before(s, i, j)
  {
    SelectIsLeast(s, now, |s.supported|);
  }

  function Completed(s: State, roundTrip: int, timedOut: bool): State {
    var observed := if timedOut then Max(roundTrip, 1000) else roundTrip;
    s.(inFlight := false, ewma := TruncDiv(s.ewma * 7 + observed, 8))
  }

  function Enqueued(s: State, r: Request): State {
    s.(diagnostics := s.diagnostics + [r])
  }

  /** The PIDs of a list below a bound, each once, ascending. */
  function PidsBelow(pids: seq<Byte>, bound: nat): (r: seq<Byte>)
    requires bound <= 256
  {
    if bound == 0 then []
    else
      var p: Byte := bound - 1;
      PidsBelow(pids, bound - 1) + if p in pids then [p] else []
  }

  /** A new list of PIDs makes every one of them due at time zero. */
  function Listed(s: State, pids: seq<Byte>): State {
    var supported := PidsBelow(pids, 256);
    s.(supported := supported, nextDue := seq(|supported|, _ => 0))
  }

  lemma {:induction false} PidsBelowAscend(pids: seq<Byte>, bound: nat)
    requires bound <= 256
    ensures var r := PidsBelow(pids, bound);
            && StrictlySorted(r) && (forall i | 0 <= i < |r| :: r[i] < bound)
            && forall p: Byte :: p in r <==> p in pids && p < bound
  {
    if bound > 0 {
      PidsBelowAscend(pids, bound - 1);
    }
  }

  class AdaptivePidScheduler {
    var supported: seq<Byte>
    var nextDue: seq<int>
    var diagnostics: seq<Request>
    var inFlight: bool
    var congested: bool
    var ewma: int

    ghost function Model(): State
      reads this
    {
      State(supported, nextDue, diagnostics, inFlight, congested, ewma)
    }

    constructor ()
      ensures Model() == INITIAL
    {
      supported, nextDue, diagnostics := [], [], [];
      inFlight, congested, ewma := false, false, 50;
    }

    /** Keeps each PID once, in ascending order, and makes every PID due at time zero. */
    method SetSupportedPids(pids: seq<Byte>)
      modifies this
      ensures WellFormed(Model()) && Model() == Listed(old(Model()), pids)
      ensures forall p: Byte :: p in supported <==> p in pids
    {
      var unique: seq<Byte>, due := [], [];
      var p: int := 0;
      while p < 256
        invariant 0 <= p <= 256
        invariant unique == PidsBelow(pids, p) && due == seq(|unique|, _ => 0)
      {
        if p in pids {
          unique, due := unique + [p], due + [0];
        }
        p := p + 1;
      }
      PidsBelowAscend(pids, 256);
      supported, nextDue := unique, due;
    }

    method EnqueueDiagnostic(r: Request)
      modifies this
      ensures Model() == Enqueued(old(Model()), r)
    {
      diagnostics := diagnostics + [r];
    }

    method Next(now: int) returns (request: Option<Request>)
      requires WellFormed(Model())
      modifies this
      ensures WellFormed(Model())
      ensures (Model(), request) == NextRequest(old(Model()), now)
    {
      if inFlight {
        return None;
      }
      if diagnostics != [] {
        request := Some(diagnostics[0]);
        diagnostics := diagnostics[1..];
        inFlight := true;
        return;
      }
      var selected: Option<nat> := None;
      var i := 0;
      while i < |supported|
        invariant 0 <= i <= |supported|
        invariant selected == Select(Model(), now, i)
      {
        if nextDue[i] <= now {
          if selected.None?
             || Rank(TierFor(supported[i])) < Rank(TierFor(supported[selected.value]))
             || (TierFor(supported[i]) == TierFor(supported[selected.value]) && nextDue[i] < nextDue[selected.value]) {
            selected := Some(i);
          }
        }
        i := i + 1;
      }
      if selected.None? {
        return None;
      }
      var period := PeriodFor(ewma, congested, TierFor(supported[selected.value]));
      nextDue := nextDue[selected.value := now + period * NS_PER_MS];
      inFlight := true;
      return Some(Request(0x01, supported[selected.value]));
    }

    method Complete(roundTrip: int, timedOut: bool)
      modifies this
      ensures Model() == Completed(old(Model()), roundTrip, timedOut)
    {
      inFlight := false;
      var observed := if timedOut then Max(roundTrip, 1000) else roundTrip;
      ewma := TruncDiv(ewma * 7 + observed, 8);
    }

    method SetCongested(value: bool)
      modifies this
      ensures Model() == old(Model()).(congested := value)
    {
      congested := value;
    }

    method Reset()
      modifies this
      ensures Model() == INITIAL
    {
      supported, nextDue, diagnostics := [], [], [];
      inFlight, congested, ewma := false, false, 50;
    }
  }

  // ---------------------------------------------------------------- runs between resets

  datatype Call =
    | Enqueue(request: Request)
    | Next(now: int)
    | Complete(roundTrip: int, timedOut: bool)
    | SetCongested(value: bool)
    | SetSupportedPids(pids: seq<Byte>)

  /** A streaming request sent: its PID, time, and the interval and tier period then in force. */
  datatype Dispatch = Dispatch(pid: Byte, at: int, interval: int, period: int)

  function After(s: State, c: Call): State
    requires WellFormed(s)
  {
    match c
    case Enqueue(r) => Enqueued(s, r)
    case Next(now) => NextRequest(s, now).0
    case Complete(rtt, late) => Completed(s, rtt, late)
    case SetCongested(v) => s.(congested := v)
    case SetSupportedPids(pids) => Listed(s, pids)
  }

  lemma ListedIsWellFormed(s: State, pids: seq<Byte>)
    ensures WellFormed(Listed(s, pids))
  {
    PidsBelowAscend(pids, 256);
  }

  function Run(s: State, calls: seq<Call>): (r: State)
    requires WellFormed(s)
    ensures WellFormed(r)
    decreases |calls|
  {
    if calls == [] then s
    else
      var c := calls[|calls| - 1];
      ListedIsWellFormed(s, if c.SetSupportedPids? then c.pids else []);
      After(Run(s, calls[..|calls| - 1]), c)
  }

  function SentBy(s: State, c: Call): Option<Request>
    requires WellFormed(s)
  {
    if c.Next? then NextRequest(s, c.now).1 else None
  }

  /** The diagnostic requests sent, in order. */
  function DiagnosticsSent(s: State, calls: seq<Call>): seq<Request>
    requires WellFormed(s)
  {
    if calls == [] then []
    else
      var init, c := calls[..|calls| - 1], calls[|calls| - 1];
      var before := Run(s, init);
      DiagnosticsSent(s, init)
      + (if before.diagnostics != [] && SentBy(before, c).Some? then [SentBy(before, c).value] else [])
  }

  function DiagnosticsEnqueued(calls: seq<Call>): seq<Request> {
    if calls == [] then []
    else
      DiagnosticsEnqueued(calls[..|calls| - 1])
      + (if calls[|calls| - 1].Enqueue? then [calls[|calls| - 1].request] else [])
  }

  function Streamed(s: State, calls: seq<Call>): seq<Dispatch>
    requires WellFormed(s)
  {
    if calls == [] then []
    else
      var init, c := calls[..|calls| - 1], calls[|calls| - 1];
      var before := Run(s, init);
      Streamed(s, init)
      + (if before.diagnostics == [] && SentBy(before, c).Some?
         then var pid := SentBy(before, c).value.pid;
              [Dispatch(pid, c.now, DispatchInterval(before.ewma), PeriodFor(before.ewma, before.congested, TierFor(pid)))]
         else [])
  }

  /** Diagnostics leave in the order they were queued, none lost and none repeated. */
  lemma {:induction false} DiagnosticsAreFifo(s: State, calls: seq<Call>)
    requires WellFormed(s)
    ensures DiagnosticsSent(s, calls) + Run(s, calls).diagnostics == s.diagnostics + DiagnosticsEnqueued(calls)
  {
    if calls != [] {
      var init, c := calls[..|calls| - 1], calls[|calls| - 1];
      DiagnosticsAreFifo(s, init);
      var sent, queue := DiagnosticsSent(s, init), Run(s, init).diagnostics;
      var enqueued := DiagnosticsEnqueued(init);
      assert sent + [] == sent && enqueued + [] == enqueued;
      if c.Enqueue? {
        assert sent + (queue + [c.request]) == (sent + queue) + [c.request];
        assert s.diagnostics + (enqueued + [c.request]) == (s.diagnostics + enqueued) + [c.request];
      } else if queue != [] {
        assert sent + queue == (sent + [queue[0]]) + queue[1..];
      }
    }
  }

  /** A past dispatch keeps its PID from being due before its period has passed. */
  predicate Blocks(s: State, sent: Dispatch)
    requires WellFormed(s)
  {
    forall i | 0 <= i < |s.supported| && s.supported[i] == sent.pid :: s.nextDue[i] >= sent.at + sent.period * NS_PER_MS
  }

  /** A new list forgets a dispatch unless it leaves the PID out or the period ended by time zero. */
  predicate Remembers(c: Call, sent: Dispatch) {
    c.SetSupportedPids? ==> sent.pid !in c.pids || sent.at + sent.period * NS_PER_MS <= 0
  }

  /** No call but a new list forgets a dispatch, and a list forgets it exactly as said. */
  lemma CallKeepsBlockExactly(s: State, c: Call, sent: Dispatch)
    requires WellFormed(s) && Blocks(s, sent)
    ensures WellFormed(After(s, c)) && (Blocks(After(s, c), sent) <==> Remembers(c, sent))
  {
    if c.SetSupportedPids? {
      NewListBlocksExactly(s, c.pids, sent);
    } else {
      SelectIsLeast(s, if c.Next? then c.now else 0, |s.supported|);
    }
  }

  /** Whatever was due before, after a new list a dispatch blocks its PID if and only if the list
      leaves it out or its period ended by time zero. */
  lemma NewListBlocksExactly(s: State, pids: seq<Byte>, sent: Dispatch)
    ensures WellFormed(Listed(s, pids))
    ensures Blocks(Listed(s, pids), sent) <==> sent.pid !in pids || sent.at + sent.period * NS_PER_MS <= 0
  {
    PidsBelowAscend(pids, 256);
    var t := Listed(s, pids);
    if sent.pid in pids {
      assert sent.pid in t.supported;
      var i :| 0 <= i < |t.supported| && t.supported[i] == sent.pid;
      assert t.nextDue[i] == 0;
    }
  }

  lemma DispatchBlocks(s: State, now: int, sent: Dispatch)
    requires WellFormed(s) && s.diagnostics == [] && NextRequest(s, now).1.Some?
    requires sent.pid == NextRequest(s, now).1.value.pid && sent.at == now
    requires sent.period == PeriodFor(s.ewma, s.congested, TierFor(sent.pid))
    ensures Blocks(NextRequest(s, now).0, sent)
  {
  }

  /** The lists since the d-th dispatch remember it. */
  predicate Remembered(s: State, calls: seq<Call>, d: nat)
    requires WellFormed(s) && d < |Streamed(s, calls)|
  {
    var init, c := calls[..|calls| - 1], calls[|calls| - 1];
    d < |Streamed(s, init)| ==> Remembered(s, init, d) && Remembers(c, Streamed(s, init)[d])
  }

  /** The lists between the d-th and the e-th dispatch remember the d-th. */
  predicate RememberedUntil(s: State, calls: seq<Call>, d: nat, e: nat)
    requires WellFormed(s) && d < e < |Streamed(s, calls)|
  {
    var init := calls[..|calls| - 1];
    if e < |Streamed(s, init)| then RememberedUntil(s, init, d, e) else Remembered(s, init, d)
  }

  /** A dispatch blocks its PID after a run if the lists in it remember it. */
  lemma {:induction false} DueAfterDispatch(s: State, calls: seq<Call>, d: nat)
    requires WellFormed(s) && d < |Streamed(s, calls)| && Remembered(s, calls, d)
    ensures Blocks(Run(s, calls), Streamed(s, calls)[d])
  {
    var init, c := calls[..|calls| - 1], calls[|calls| - 1];
    var before := Run(s, init);
    if d < |Streamed(s, init)| {
      DueAfterDispatch(s, init, d);
      CallKeepsBlockExactly(before, c, Streamed(s, init)[d]);
    } else {
      DispatchBlocks(before, c.now, Streamed(s, calls)[d]);
    }
  }

  lemma BlockedIsNotServed(s: State, now: int, sent: Dispatch)
    requires WellFormed(s) && Blocks(s, sent)
    requires s.diagnostics == [] && NextRequest(s, now).1.Some? && NextRequest(s, now).1.value.pid == sent.pid
    ensures now >= sent.at + sent.period * NS_PER_MS
  {
    SelectIsLeast(s, now, |s.supported|);
  }

  /** Between resets no PID is dispatched again before its period has passed, unless a list of PIDs
      set in between forgets the dispatch. */
  lemma {:induction false} NeverTwiceWithinPeriod(s: State, calls: seq<Call>, d: nat, e: nat)
    requires WellFormed(s) && d < e < |Streamed(s, calls)|
    requires Streamed(s, calls)[d].pid == Streamed(s, calls)[e].pid && RememberedUntil(s, calls, d, e)
    ensures Streamed(s, calls)[e].at >= Streamed(s, calls)[d].at + Streamed(s, calls)[d].period * NS_PER_MS
  {
    var init, c := calls[..|calls| - 1], calls[|calls| - 1];
    if e < |Streamed(s, init)| {
      NeverTwiceWithinPeriod(s, init, d, e);
    } else {
      DueAfterDispatch(s, init, d);
      BlockedIsNotServed(Run(s, init), c.now, Streamed(s, init)[d]);
    }
  }

  lemma {:induction false} StreamedPeriods(s: State, calls: seq<Call>, d: nat)
    requires WellFormed(s) && d < |Streamed(s, calls)|
    ensures var sent := Streamed(s, calls)[d]; sent.period >= 3 * sent.interval
  {
    var init := calls[..|calls| - 1];
    if d < |Streamed(s, init)| {
      StreamedPeriods(s, init, d);
    }
  }

  predicate AllHigh(log: seq<Dispatch>, picks: seq<nat>)
    requires forall i | i in picks :: i < |log|
  {
    forall i | i in picks :: TierFor(log[i].pid) == High
  }

  /** Four high-tier dispatches repeat one of the three high-tier PIDs, so they span at least three
      of the smallest dispatch interval in force: streaming never starves the other tiers. The lists
      set in between must remember the dispatches. */
  lemma FourHighDispatchesTakeTime(s: State, calls: seq<Call>, a: nat, b: nat, c: nat, d: nat, interval: int)
    requires WellFormed(s) && a < b < c < d < |Streamed(s, calls)|
    requires AllHigh(Streamed(s, calls), [a, b, c, d])
    requires forall i | a <= i <= d :: Streamed(s, calls)[i].interval >= interval
    requires forall i, j | a <= i < j <= d :: RememberedUntil(s, calls, i, j)
    ensures var log := Streamed(s, calls);
            exists x, y | a <= x < y <= d :: log[y].at - log[x].at >= 3 * interval * NS_PER_MS
  {
    var log := Streamed(s, calls);
    var at := [a, b, c, d];
    assert a in at && b in at && c in at && d in at;
    var x, y := SamePair(log[a].pid, log[b].pid, log[c].pid, log[d].pid);
    var first, second := at[x], at[y];
    assert a <= first < second <= d && log[first].pid == log[second].pid;
    NeverTwiceWithinPeriod(s, calls, first, second);
    StreamedPeriods(s, calls, first);
  }

  lemma SamePair(a: Byte, b: Byte, c: Byte, d: Byte) returns (x: nat, y: nat)
    requires forall p | p in [a, b, c, d] :: TierFor(p) == High
    ensures x < y < 4 && [a, b, c, d][x] == [a, b, c, d][y]
  {
    assert TierFor(a) == High && TierFor(b) == High && TierFor(c) == High && TierFor(d) == High;
    if a == b { return 0, 1; }
    if a == c { return 0, 2; }
    if a == d { return 0, 3; }
    if b == c { return 1, 2; }
    if b == d { return 1, 3; }
    return 2, 3;
  }

  /** What one more call adds to a run. */
  lemma OneMoreCall(s: State, calls: seq<Call>, c: Call)
    requires WellFormed(s)
    ensures var before, all := Run(s, calls), calls + [c];
            && Run(s, all) == After(before, c)
            && Streamed(s, all) == Streamed(s, calls) +
               if before.diagnostics == [] && SentBy(before, c).Some?
               then var pid := SentBy(before, c).value.pid;
                    [Dispatch(pid, c.now, DispatchInterval(before.ewma), PeriodFor(before.ewma, before.congested, TierFor(pid)))]
               else []
  {
    assert (calls + [c])[..|calls|] == calls;
  }

  lemma OnlyPidIsServed(s: State)
    requires WellFormed(s) && s.supported == [0x0C] && s.nextDue == [0] && s.diagnostics == [] && !s.inFlight
    ensures NextRequest(s, 0).1 == Some(Request(1, 0x0C)) && NextRequest(s, 0).0.inFlight
    ensures NextRequest(s, 0).0.diagnostics == []
  {
    SelectIsLeast(s, 0, 1);
  }

  lemma {:induction false} OnePidBelow(p: Byte, bound: nat)
    requires bound <= 256
    ensures PidsBelow([p], bound) == if p < bound then [p] else []
  {
    if bound > 0 {
      OnePidBelow(p, bound - 1);
    }
  }

  lemma OnlyPidIsListed(s: State, p: Byte)
    ensures Listed(s, [p]) == s.(supported := [p], nextDue := [0])
  {
    OnePidBelow(p, 256);
  }

  /** A PID goes out, its list is set again, and it goes out again at the same instant. */
  lemma NewPidListForgetsPeriods()
    ensures var s := State([0x0C], [0], [], false, false, 50);
            var calls := [] + [Next(0)] + [Complete(0, false)] + [SetSupportedPids([0x0C])] + [Next(0)];
            && WellFormed(s) && |Streamed(s, calls)| == 2
            && Streamed(s, calls)[0].pid == Streamed(s, calls)[1].pid == 0x0C
            && Streamed(s, calls)[0].at == Streamed(s, calls)[1].at == 0 < Streamed(s, calls)[0].period
  {
    var s := State([0x0C], [0], [], false, false, 50);
    var sent := [] + [Next(0)];
    var done := sent + [Complete(0, false)];
    var listed := done + [SetSupportedPids([0x0C])];
    OnlyPidIsServed(s);
    OneMoreCall(s, [], Next(0));
    OneMoreCall(s, sent, Complete(0, false));
    OneMoreCall(s, done, SetSupportedPids([0x0C]));
    OnlyPidIsListed(Run(s, done), 0x0C);
    OnlyPidIsServed(Run(s, listed));
    OneMoreCall(s, listed, Next(0));
  }

  // ---------------------------------------------------------------- figures

  /** A completed request ends the flight and enters the round-trip average with one eighth, rounded
      down; one that timed out counts at least a second. Nothing else changes. */
  lemma AverageIsWeighted(s: State, roundTrip: int, timedOut: bool)
    requires s.ewma >= 0 && roundTrip >= 0
    ensures var t := Completed(s, roundTrip, timedOut);
            var observed := if timedOut && roundTrip < 1000 then 1000 else roundTrip;
            && 8 * t.ewma <= 7 * s.ewma + observed < 8 * t.ewma + 8
            && t == s.(inFlight := false, ewma := t.ewma)
  {
  }

  /** The interval is five quarters of the average round trip, at least ten milliseconds; high-tier PIDs
      wait three intervals, medium ones twice and low ones four times as long, in congestion ten and
      twenty intervals. */
  lemma PeriodsAreMultiples(ewma: int, congested: bool)
    requires ewma >= 0
    ensures var interval := DispatchInterval(ewma);
            && (ewma >= 8 ==> 4 * interval <= 5 * ewma < 4 * interval + 4) && (ewma < 8 ==> interval == 10)
            && PeriodFor(ewma, congested, High) == 3 * interval
            && PeriodFor(ewma, false, Medium) == 2 * PeriodFor(ewma, false, High)
            && PeriodFor(ewma, false, Low) == 4 * PeriodFor(ewma, false, High)
            && PeriodFor(ewma, true, Medium) == 10 * interval && PeriodFor(ewma, true, Low) == 20 * interval
  {
  }

  /** The high tier is engine speed, vehicle speed and throttle; the medium tier load, pressure, timing,
      air flow and the oxygen sensors; the low tier everything else. */
  lemma TiersExactly(pid: Byte)
    ensures TierFor(pid) == High <==> pid in {12, 13, 17}
    ensures TierFor(pid) == Medium <==> pid in {4, 11, 14, 16} || 20 <= pid <= 43
  {
  }

  /** A streamed PID is next due exactly its period after it was sent, and no other PID's time changes. */
  lemma ServedIsRescheduled(s: State, now: int, i: nat)
    requires WellFormed(s) && i < |s.supported|
    requires s.diagnostics == [] && NextRequest(s, now).1.Some? && NextRequest(s, now).1.value.pid == s.supported[i]
    ensures var t := NextRequest(s, now).0;
            && t.inFlight && |t.nextDue| == |s.nextDue|
            && t.nextDue[i] == now + PeriodFor(s.ewma, s.congested, TierFor(s.supported[i])) * 1_000_000
            && forall j | 0 <= j < |s.nextDue| && j != i :: t.nextDue[j] == s.nextDue[j]
  {
    SelectIsLeast(s, now, |s.supported|);
  }
}
