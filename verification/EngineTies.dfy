/** Whether the clear requests under way are those of the active clear, and which of them is its own. */
module EngineTies {
  import opened Wrappers
  import opened Sources
  import opened EngineModel
  import opened EngineSafety
  import opened EngineAccounting
  import opened EngineClearing
  import Scheduler

  // ---------------------------------------------------------------- clear requests under way

  function InFlight(s: State): seq<Request> {
    Current(s.unanswered, s.epoch)
  }

  /** The answers that an active clear still waits for. */
  function Owed(s: State): nat {
    if s.operation.Some? && s.operation.value.kind == Clear then s.operation.value.outstanding else 0
  }

  /** The clear requests of this epoch, unanswered or queued. */
  function UnderWay(s: State): nat {
    ClearRequests(InFlight(s)) + ClearRequests(s.scheduler.diagnostics)
  }

  /** As many clear requests are under way as the active clear waits for. */
  predicate Tied(s: State) {
    UnderWay(s) == Owed(s)
  }

  /** A fault ends a clear that still waits for its answer, or an explicit disconnect finds a clear
      request of this epoch unanswered. */
  predicate Unties(s: State, e: Event) {
    || (e.SourceChangedEvent? && Unavailable(e.state) && Owed(s) > 0)
    || (e.DisconnectEvent? && ClearRequests(InFlight(s)) > 0)
  }

  lemma {:induction false} CurrentSplits(a: seq<Transmit>, b: seq<Transmit>, epoch: nat)
    ensures Current(a + b, epoch) == Current(a, epoch) + Current(b, epoch)
  {
    if a == [] {
      assert a + b == b;
    } else {
      CurrentSplits(a[1..], b, epoch);
      assert (a + b)[1..] == a[1..] + b;
    }
  }

  function Weight(t: Transmit, epoch: nat): nat {
    if t.epoch == epoch && t.request.mode == 0x04 then 1 else 0
  }

  /** The clear requests before, at and after a place among the unanswered transmits. */
  lemma ClearsAround(unanswered: seq<Transmit>, i: nat, epoch: nat)
    requires i < |unanswered|
    ensures var before, after := ClearRequests(Current(unanswered[..i], epoch)), ClearRequests(Current(unanswered[i + 1..], epoch));
            && ClearRequests(Current(unanswered, epoch)) == before + Weight(unanswered[i], epoch) + after
            && ClearRequests(Current(unanswered[..i] + unanswered[i + 1..], epoch)) == before + after
  {
    var a, u, b := unanswered[..i], [unanswered[i]], unanswered[i + 1..];
    assert unanswered == a + (u + b);
    CurrentSplits(a, u + b, epoch);
    CurrentSplits(u, b, epoch);
    CurrentSplits(a, b, epoch);
    ClearRequestsAppend(Current(a, epoch), Current(u + b, epoch));
    ClearRequestsAppend(Current(u, epoch), Current(b, epoch));
    ClearRequestsAppend(Current(a, epoch), Current(b, epoch));
    assert u[1..] == [];
    OneCurrent(unanswered[i], epoch);
  }

  lemma OneCurrent(t: Transmit, epoch: nat)
    ensures ClearRequests(Current([t], epoch)) == Weight(t, epoch)
  {
    assert [t][1..] == [] && [t.request][1..] == [];
  }

  lemma DispatchMoves(s: State, now: int)
    requires Scheduler.WellFormed(s.scheduler)
    ensures UnderWay(Dispatch(s, now)) == UnderWay(s)
    ensures ClearRequests(InFlight(Dispatch(s, now))) == ClearRequests(InFlight(s)) + Sends(s, DispatchEvent(now))
  {
    var next := Scheduler.NextRequest(s.scheduler, now).1;
    DispatchQueues(s, now);
    if SourceReady(s) && next.Some? {
      var t := Transmit(s.epoch, next.value);
      CurrentSplits(s.unanswered, [t], s.epoch);
      ClearRequestsAppend(InFlight(s), Current([t], s.epoch));
      OneCurrent(t, s.epoch);
    }
  }

  lemma FinishRequestOwes(s: State, r: Request, ok: bool, lookupOk: bool, settleAt: int, now: int)
    requires s.operation.Some? ==> OperationIsSound(s.operation.value, s.epoch)
    ensures var t := FinishRequest(s, r, ok, lookupOk, settleAt, now);
            && Owed(t) == (if r.mode == 0x04 then 0 else Owed(s))
            && t.epoch == s.epoch && t.unanswered == s.unanswered
  {
    if s.operation.Some? && Belongs(s.operation.value.kind, r) {
      LastCompletedOwesNothing(s.(operation := Some(Counted(s.operation.value, ok))), lookupOk, settleAt, now);
    }
  }

  lemma LastCompletedOwesNothing(s: State, lookupOk: bool, settleAt: int, now: int)
    requires s.operation.Some? && OperationIsSound(s.operation.value, s.epoch)
    ensures var t := LastCompleted(s, lookupOk, settleAt, now);
            && (s.operation.value.outstanding == 0 ==> Owed(t) == 0)
            && t.epoch == s.epoch && t.unanswered == s.unanswered
  {
  }

  /** An answer takes one clear request from under way and, if it was one, all that is owed. */
  lemma TransmitDoneOwes(s: State, e: Event)
    requires Invariant(s) && e.TransmitDoneEvent? && e.i < |s.unanswered|
    ensures var weight := Weight(s.unanswered[e.i], s.epoch);
            && UnderWay(Step(s, e)) == UnderWay(s) - weight
            && Owed(Step(s, e)) == (if weight == 1 then 0 else Owed(s))
            && Step(s, e).epoch == s.epoch
  {
    ClearsAround(s.unanswered, e.i, s.epoch);
    TransmitQueues(s, e);
    var t := s.(unanswered := s.unanswered[..e.i] + s.unanswered[e.i + 1..]);
    PacketsKeep(t);
    var u := ProcessPackets(t);
    if s.unanswered[e.i].epoch == s.epoch {
      FinishRequestOwes(u.(scheduler := Scheduler.Completed(u.scheduler, e.roundTrip, !e.ok)), s.unanswered[e.i].request, e.ok, e.lookupOk, e.settleAt, e.now);
    }
  }

  /** Whatever was under way before, nothing is in a new epoch. */
  lemma NewEpochTies(s: State, now: int)
    requires TransmitsAreKnown(s)
    ensures UnderWay(NewEpoch(s, now)) == 0 && Tied(NewEpoch(s, now))
  {
    NoneInFuture(s.unanswered, s.epoch + 1);
  }

  lemma QueueingTies(s: State, e: Event)
    requires Invariant(s) && (e.ScanEvent? || e.IdentifyEvent? || e.SettleEvent? || e.ConfirmClearEvent?)
    ensures UnderWay(Step(s, e)) - Owed(Step(s, e)) == UnderWay(s) - Owed(s)
    ensures InFlight(Step(s, e)) == InFlight(s)
  {
    QueriesAreNoClears();
    EnqueuedClears(s, [STORED_CODES, PENDING_CODES]);
    EnqueuedClears(s, IDENTIFICATION);
    EnqueuedClears(s, [CLEAR_CODES]);
  }

  lemma CancelTiesExactly(s: State, e: Event)
    requires Invariant(s) && Tied(s) && (e.SourceChangedEvent? || e.DisconnectEvent?)
    ensures Tied(Step(s, e)) <==> !Unties(s, e)
  {
  }

  /** Of all steps, exactly a fault that ends a waiting clear and an explicit disconnect with a clear
      request unanswered leave clear requests under way that no active clear waits for. */
  lemma StepTiesExactly(s: State, e: Event)
    requires Invariant(s) && Tied(s)
    ensures Tied(Step(s, e)) <==> !Unties(s, e)
  {
    match e
    case SetSourceEvent(source, now) => NewEpochTies(s.(token := None, source := source, config := None), now);
    case SwapSourceEvent(source, now) => NewEpochTies(s.(source := source, config := None), now);
    case NewEpochEvent(now) => NewEpochTies(s, now);
    case DisconnectEvent(_) => CancelTiesExactly(s, e);
    case SourceChangedEvent(_, _, _) => CancelTiesExactly(s, e);
    case DispatchEvent(now) => DispatchMoves(s, now);
    case TransmitDoneEvent(i, _, _, _, _, _) => if i < |s.unanswered| { TransmitDoneOwes(s, e); }
    case ProcessPacketsEvent => PacketsKeep(s);
    case PrepareClearEvent(_) =>
    case _ => if QueuesRequests(e) { QueueingTies(s, e); }
  }

  predicate QueuesRequests(e: Event) {
    e.ScanEvent? || e.IdentifyEvent? || e.SettleEvent? || e.ConfirmClearEvent?
  }

  /** The requests under way and the active clear stay tied through every part of a run. */
  ghost predicate TiedThroughout(events: seq<Event>) {
    Tied(Run(INITIAL, events)) && (events != [] ==> TiedThroughout(events[..|events| - 1]))
  }

  ghost predicate NeverUntied(events: seq<Event>) {
    events != [] ==>
      var init := events[..|events| - 1];
      NeverUntied(init) && !Unties(Run(INITIAL, init), events[|events| - 1])
  }

  /** In a run the ties hold throughout if and only if no fault ends a waiting clear and no explicit
      disconnect finds a clear request unanswered. */
  lemma {:induction false} RunTiesExactly(events: seq<Event>)
    ensures TiedThroughout(events) <==> NeverUntied(events)
  {
    if events != [] {
      var init := events[..|events| - 1];
      RunTiesExactly(init);
      if TiedThroughout(init) {
        StepTiesExactly(Run(INITIAL, init), events[|events| - 1]);
      }
    }
  }

  /** While the ties hold, a clear request goes out only for the active clear that waits for it. */
  lemma ClearIsSentWhileActive(s: State, e: Event)
    requires Invariant(s) && Tied(s) && Sends(s, e) == 1
    ensures s.operation.Some? && s.operation.value.kind == Clear && s.operation.value.outstanding == 1
    ensures ClearRequests(InFlight(s)) == 0
  {
    DispatchQueues(s, e.now);
  }

  /** The request account is stronger than the ties. */
  lemma AccountTies(s: State)
    requires Invariant(s) && Accounted(s)
    ensures Tied(s)
  {
    var queue, inFlight := s.scheduler.diagnostics, InFlight(s);
    if inFlight != [] {
      assert inFlight == [inFlight[0]];
      assert ClearRequests(inFlight) == if inFlight[0].mode == 0x04 then 1 else 0;
    }
    if s.operation.Some? {
      ClearsOf(s.operation.value.kind, queue);
    }
  }

  lemma {:induction false} ClearsOf(kind: Kind, requests: seq<Request>)
    requires forall i | 0 <= i < |requests| :: Belongs(kind, requests[i])
    ensures ClearRequests(requests) == if kind == Clear then |requests| else 0
  {
    if requests != [] {
      assert Belongs(kind, requests[0]);
      assert forall i | 0 <= i < |requests| - 1 :: requests[1..][i] == requests[i + 1];
      ClearsOf(kind, requests[1..]);
    }
  }

  // ---------------------------------------------------------------- whose request is answered

  /** The place of a transmit among the clear requests under way. */
  function Place(s: State, i: nat): nat
    requires i < |s.unanswered|
  {
    ClearRequests(Current(s.unanswered[..i], s.epoch))
  }

  /** For each clear request under way, oldest first, the ticket of the clear that queued it. */
  ghost function LineAfter(line: seq<nat>, s: State, e: Event): (r: seq<nat>)
    requires Invariant(s) && |line| == UnderWay(s)
    ensures |r| == UnderWay(Step(s, e))
  {
    LineMoves(s, e);
    if Step(s, e).started != s.started then line + [s.issued]
    else if Step(s, e).epoch != s.epoch then []
    else if e.DisconnectEvent? then line[..ClearRequests(InFlight(s))]
    else if e.TransmitDoneEvent? && e.i < |s.unanswered| && Weight(s.unanswered[e.i], s.epoch) == 1
    then line[..Place(s, e.i)] + line[Place(s, e.i) + 1..]
    else line
  }

  lemma LineMoves(s: State, e: Event)
    requires Invariant(s)
    ensures var t := Step(s, e);
            UnderWay(t) ==
            if t.started != s.started then UnderWay(s) + 1
            else if t.epoch != s.epoch then 0
            else if e.DisconnectEvent? then ClearRequests(InFlight(s))
            else if e.TransmitDoneEvent? && e.i < |s.unanswered| then UnderWay(s) - Weight(s.unanswered[e.i], s.epoch)
            else UnderWay(s)
    ensures e.TransmitDoneEvent? && e.i < |s.unanswered| ==>
              Place(s, e.i) + Weight(s.unanswered[e.i], s.epoch) <= ClearRequests(InFlight(s))
  {
    StartedChanges(s, e);
    match e
    case SetSourceEvent(_, _) => EpochLine(s, e);
    case SwapSourceEvent(_, _) => EpochLine(s, e);
    case NewEpochEvent(_) => EpochLine(s, e);
    case DispatchEvent(now) => DispatchMoves(s, now);
    case TransmitDoneEvent(i, _, _, _, _, _) =>
      if i < |s.unanswered| {
        TransmitDoneOwes(s, e);
        TransmitMoves(s, e);
        ClearsAround(s.unanswered, i, s.epoch);
      }
    case ProcessPacketsEvent => PacketsKeep(s);
    case DisconnectEvent(_) => CancelsKeepRequests(s, e);
    case SourceChangedEvent(_, _, _) => CancelsKeepRequests(s, e);
    case _ => if QueuesRequests(e) { QueueingTies(s, e); QueueingStarts(s, e); }
  }

  lemma EpochLine(s: State, e: Event)
    requires Invariant(s) && (e.SetSourceEvent? || e.SwapSourceEvent? || e.NewEpochEvent?)
    ensures var t := Step(s, e);
            t.started == s.started && UnderWay(t) == if t.epoch != s.epoch then 0 else UnderWay(s)
  {
    CancelMoves(s, e);
    match e
    case SetSourceEvent(source, now) => NewEpochTies(s.(token := None, source := source, config := None), now);
    case SwapSourceEvent(source, now) => NewEpochTies(s.(source := source, config := None), now);
    case NewEpochEvent(now) => NewEpochTies(s, now);
  }

  lemma CancelsKeepRequests(s: State, e: Event)
    requires Invariant(s) && (e.DisconnectEvent? || e.SourceChangedEvent?)
    ensures var t := Step(s, e);
            && t.started == s.started && t.epoch == s.epoch && InFlight(t) == InFlight(s)
            && t.scheduler.diagnostics == if e.DisconnectEvent? then [] else s.scheduler.diagnostics
  {
  }

  lemma QueueingStarts(s: State, e: Event)
    requires Invariant(s) && QueuesRequests(e)
    ensures var t := Step(s, e);
            && t.epoch == s.epoch
            && (if t.started != s.started then Owed(t) == 1 && Owed(s) == 0 && t.operation.value.ticket == s.issued && t.issued == s.issued + 1
                else Owed(t) == Owed(s) && (t.operation == s.operation || Owed(t) == 0))
  {
  }

  /** The line ends with the waiting clear's own request, and every ticket before it is older. */
  predicate Lined(s: State, line: seq<nat>) {
    && |line| == UnderWay(s)
    && AllBelow(line, s.issued)
    && (Owed(s) > 0 ==>
          && line != [] && line[|line| - 1] == s.operation.value.ticket
          && AllBelow(line[..|line| - 1], s.operation.value.ticket))
  }

  predicate AllBelow(line: seq<nat>, bound: nat) {
    forall i | 0 <= i < |line| :: line[i] < bound
  }

  /** A step that leaves a clear waiting began it, or found it waiting and left the line alone. */
  lemma WaitingClears(s: State, e: Event)
    requires Invariant(s)
    ensures var t := Step(s, e);
            && t.issued >= s.issued
            && (t.started != s.started ==> t.issued == s.issued + 1 && Owed(t) == 1 && t.operation.value.ticket == s.issued)
            && (t.started == s.started && Owed(t) > 0 ==>
                  && Owed(s) > 0 && t.operation.value.ticket == s.operation.value.ticket
                  && t.epoch == s.epoch && !e.DisconnectEvent?
                  && !(e.TransmitDoneEvent? && e.i < |s.unanswered| && Weight(s.unanswered[e.i], s.epoch) == 1))
  {
    StepMovesCompletions(s, e);
    match e
    case TransmitDoneEvent(i, _, _, _, _, _) =>
      if i < |s.unanswered| {
        TransmitDoneOwes(s, e);
        TransmitMoves(s, e);
      }
    case ProcessPacketsEvent => PacketsKeep(s);
    case _ =>
      if Cancels(e) {
        CancelsOrKeeps(s, e);
        CancelMoves(s, e);
      } else if QueuesRequests(e) {
        QueueingStarts(s, e);
      }
  }

  lemma PartsAreBelow(line: seq<nat>, bound: nat, more: nat, p: nat)
    requires AllBelow(line, bound) && bound <= more && p <= |line|
    ensures AllBelow(line, more) && AllBelow(line[..p], more)
    ensures p < |line| ==> AllBelow(line[..p] + line[p + 1..], more)
    ensures AllBelow(line + [bound], bound + 1) && (line + [bound])[..|line|] == line
  {
    if p < |line| {
      var rest := line[..p] + line[p + 1..];
      assert forall i | 0 <= i < |rest| :: rest[i] == line[if i < p then i else i + 1];
    }
  }

  lemma StepLines(s: State, e: Event, line: seq<nat>)
    requires Invariant(s) && Lined(s, line)
    ensures Lined(Step(s, e), LineAfter(line, s, e))
  {
    WaitingClears(s, e);
    LineMoves(s, e);
    var t := Step(s, e);
    var p := if e.TransmitDoneEvent? && e.i < |s.unanswered| then Place(s, e.i) else ClearRequests(InFlight(s));
    PartsAreBelow(line, s.issued, t.issued, p);
  }

  /** The line after a run that begins with nothing under way. */
  ghost function LineFrom(s: State, events: seq<Event>): (r: seq<nat>)
    requires Invariant(s) && UnderWay(s) == Owed(s) == 0
    ensures Lined(Run(s, events), r)
    decreases |events|
  {
    if events == [] then []
    else
      var init := events[..|events| - 1];
      var line := LineFrom(s, init);
      StepLines(Run(s, init), events[|events| - 1], line);
      LineAfter(line, Run(s, init), events[|events| - 1])
  }

  /** The engine begins with nothing under way. */
  lemma NothingUnderWay()
    ensures Invariant(INITIAL) && UnderWay(INITIAL) == Owed(INITIAL) == 0
  {
  }

  /** The answer `e` is counted for the active clear while it waits: it marks the audit transmitted
      or fails the clear, and may mark the audit positive. */
  predicate CountsForClear(s: State, e: Event) {
    Own(s, e) && Owed(s) > 0
  }

  /** The answer counted for a clear is that of its own request if and only if no clear request is
      queued and none of the epoch was sent after the one answered. */
  lemma OwnRequestIsAnsweredExactly(start: State, events: seq<Event>, e: Event)
    requires Invariant(start) && UnderWay(start) == Owed(start) == 0
    requires CountsForClear(Run(start, events), e)
    ensures var s, line := Run(start, events), LineFrom(start, events);
            && Place(s, e.i) < |line|
            && (line[Place(s, e.i)] == s.operation.value.ticket <==>
                ClearRequests(s.scheduler.diagnostics) == 0 && ClearRequests(Current(s.unanswered[e.i + 1..], s.epoch)) == 0)
  {
    var s, line := Run(start, events), LineFrom(start, events);
    ClearsAround(s.unanswered, e.i, s.epoch);
    var last := |line| - 1;
    assert Place(s, e.i) < last ==> line[Place(s, e.i)] == line[..last][Place(s, e.i)];
  }

  /** While the ties hold the answer counted for a clear is always that of its own request, and no
      clear request is left under way after it. */
  lemma TiedAnswerIsOwn(start: State, events: seq<Event>, e: Event)
    requires Invariant(start) && UnderWay(start) == Owed(start) == 0
    requires CountsForClear(Run(start, events), e) && Tied(Run(start, events))
    ensures var s, line := Run(start, events), LineFrom(start, events);
            && Place(s, e.i) < |line| && line[Place(s, e.i)] == s.operation.value.ticket
            && UnderWay(Step(s, e)) == 0
  {
    var s := Run(start, events);
    OwnRequestIsAnsweredExactly(start, events, e);
    ClearsAround(s.unanswered, e.i, s.epoch);
    TransmitDoneOwes(s, e);
  }

  /** An audit is marked only by the answer counted for its clear. */
  lemma AuditsAreMarkedByAnswers(s: State, e: Event)
    requires Invariant(s) && s.operation.Some? && s.operation.value.kind == Clear && s.settleAt.None?
    ensures var t := Step(s, e);
            t.operation.Some? && t.operation.value.audit.Some? && t.operation.value.audit != s.operation.value.audit ==>
              CountsForClear(s, e)
  {
    match e
    case TransmitDoneEvent(i, ok, roundTrip, lookupOk, settleAt, now) =>
      if i < |s.unanswered| {
        PacketsKeep(s.(unanswered := s.unanswered[..i] + s.unanswered[i + 1..]));
      }
    case ProcessPacketsEvent => PacketsKeep(s);
    case _ => if Cancels(e) { CancelsOrKeeps(s, e); }
  }
}
