/** What reaches the vehicle when its diagnostic information is cleared, and what the audit then says. */
module EngineClearing {
  import opened Wrappers
  import opened Telemetry
  import opened Sources
  import opened EngineModel
  import opened EngineSafety
  import opened EngineAccounting
  import Scheduler

  // ---------------------------------------------------------------- errors

  /** The operation of `s` goes on with an error in `t`, or its audit was filed with one. */
  predicate CarriesError(s: State, t: State)
    requires s.operation.Some?
  {
    if t.operation.Some? then t.operation.value.ticket == s.operation.value.ticket && t.operation.value.error.Some?
    else |t.audits| == |s.audits| + 1 && t.audits[|s.audits|].error.Some?
  }

  lemma NotedKeepsError(op: Operation, m: Message)
    requires op.error.Some?
    ensures Noted(op, m).error.Some?
  {
  }

  lemma {:induction false} PacketsKeepError(s: State)
    requires IsIsolated(s) && s.operation.Some? && s.operation.value.error.Some?
    ensures ProcessPackets(s).operation.Some? && ProcessPackets(s).operation.value.error.Some?
    decreases |s.queue|
  {
    if s.queue != [] {
      var t := s.(queue := s.queue[1..]);
      NotedKeepsError(s.operation.value, s.queue[0].message);
      PacketKeeps(t, s.queue[0]);
      PacketsKeepError(HandlePacket(t, s.queue[0]));
    }
  }

  lemma FinishRequestCarriesError(s: State, r: Request, ok: bool, lookupOk: bool, settleAt: int, now: int)
    requires Invariant(s) && s.operation.Some? && IsClear(s.operation.value) && s.operation.value.error.Some?
    ensures CarriesError(s, FinishRequest(s, r, ok, lookupOk, settleAt, now))
  {
    CountedKeeps(s, ok);
  }

  /** A clear that met an error, be it a rejection by the vehicle, a failed transmit or a malformed
      reply, is never audited as a success: the error stays until the audit has one. */
  lemma ErrorsAreAudited(s: State, e: Event)
    requires Invariant(s) && s.operation.Some? && IsClear(s.operation.value) && s.operation.value.error.Some?
    ensures CarriesError(s, Step(s, e))
  {
    match e
    case ProcessPacketsEvent => PacketsKeepError(s); PacketsKeep(s);
    case TransmitDoneEvent(_, _, _, _, _, _) => TransmitCarriesError(s, e);
    case _ => if Cancels(e) { CancelCarriesError(s, e); }
  }

  lemma TransmitCarriesError(s: State, e: Event)
    requires Invariant(s) && s.operation.Some? && IsClear(s.operation.value) && s.operation.value.error.Some?
    requires e.TransmitDoneEvent?
    ensures CarriesError(s, Step(s, e))
  {
    if e.i < |s.unanswered| {
      var t := s.(unanswered := s.unanswered[..e.i] + s.unanswered[e.i + 1..]);
      assert Invariant(t);
      ProcessKeeps(t);
      PacketsKeepError(t);
      var u := ProcessPackets(t);
      if s.unanswered[e.i].epoch == s.epoch {
        FinishRequestCarriesError(u.(scheduler := Scheduler.Completed(u.scheduler, e.roundTrip, !e.ok)), s.unanswered[e.i].request, e.ok, e.lookupOk, e.settleAt, e.now);
      }
    }
  }

  lemma CancelCarriesError(s: State, e: Event)
    requires Invariant(s) && s.operation.Some? && IsClear(s.operation.value) && s.operation.value.error.Some? && Cancels(e)
    ensures CarriesError(s, Step(s, e))
  {
  }

  /** Nothing is filed, or one audit is and the caller is told exactly its error or its success. */
  predicate Files(s: State, t: State) {
    || t.audits == s.audits
    || (s.operation.Some? && |t.audits| == |s.audits| + 1 && t.audits[..|s.audits|] == s.audits
        && t.answers == s.answers + [Answer(s.operation.value.ticket, t.audits[|s.audits|].error)])
  }

  lemma CancelFiles(s: State, error: Error, now: int)
    ensures Files(s, CancelOperation(s, error, now))
  {
  }

  lemma FinishRequestFiles(s: State, r: Request, ok: bool, lookupOk: bool, settleAt: int, now: int)
    ensures Files(s, FinishRequest(s, r, ok, lookupOk, settleAt, now))
  {
    if s.operation.Some? && Belongs(s.operation.value.kind, r) {
      var t := s.(operation := Some(Counted(s.operation.value, ok)));
      LastCompletedFiles(t, lookupOk, settleAt, now);
    }
  }

  lemma LastCompletedFiles(s: State, lookupOk: bool, settleAt: int, now: int)
    requires s.operation.Some?
    ensures Files(s, LastCompleted(s, lookupOk, settleAt, now))
  {
  }

  /** Audits are only ever added, one at a time, and the clear's caller is told what its audit says. */
  lemma AuditsAreAnswered(s: State, e: Event)
    requires Invariant(s)
    ensures Files(s, Step(s, e))
  {
    match e
    case SetSourceEvent(source, now) => CancelFiles(s.(token := None, source := source, config := None), Cancelled, now);
    case SwapSourceEvent(source, now) => CancelFiles(s.(source := source, config := None, token := None), Cancelled, now);
    case NewEpochEvent(now) => CancelFiles(s.(token := None), Cancelled, now);
    case DisconnectEvent(now) => CancelFiles(s.(token := None), Cancelled, now);
    case SourceChangedEvent(state, error, now) =>
      CancelFiles(if state != Ready then s.(token := None) else s, if error.Some? then error.value else Cancelled, now);
    case ProcessPacketsEvent => PacketsKeep(s);
    case TransmitDoneEvent(i, ok, roundTrip, lookupOk, settleAt, now) =>
      if i < |s.unanswered| {
        var t := s.(unanswered := s.unanswered[..i] + s.unanswered[i + 1..]);
        PacketsKeep(t);
        var u := ProcessPackets(t);
        FinishRequestFiles(u.(scheduler := Scheduler.Completed(u.scheduler, roundTrip, !ok)), s.unanswered[i].request, ok, lookupOk, settleAt, now);
      }
    case _ =>
  }

  // ---------------------------------------------------------------- replies and settling

  predicate Replied(queue: seq<Packet>, epoch: nat) {
    exists i | 0 <= i < |queue| :: queue[i].epoch == epoch && queue[i].message == ClearReply(true)
  }

  lemma {:induction false} ReplyWasQueued(s: State)
    requires IsIsolated(s) && s.operation.Some? && !s.operation.value.positiveReply
    ensures ProcessPackets(s).operation.Some?
    ensures ProcessPackets(s).operation.value.positiveReply ==> Replied(s.queue, s.epoch)
    decreases |s.queue|
  {
    if s.queue != [] {
      var t := s.(queue := s.queue[1..]);
      var u := HandlePacket(t, s.queue[0]);
      PacketKeeps(t, s.queue[0]);
      if !u.operation.value.positiveReply {
        ReplyWasQueued(u);
        if Replied(u.queue, s.epoch) {
          var i :| 0 <= i < |u.queue| && u.queue[i].epoch == s.epoch && u.queue[i].message == ClearReply(true);
          assert s.queue[i + 1] == u.queue[i];
        }
      } else {
        PacketsKeep(u);
      }
    }
  }

  /** The wait before the rescan starts only when a well-formed positive reply of this epoch was
      received, a clear request of this epoch was answered well and nothing went wrong. */
  lemma SettlingNeedsPositiveReply(s: State, e: Event)
    requires Invariant(s) && s.settleAt.None? && s.operation.Some? && !s.operation.value.positiveReply
    ensures Step(s, e).settleAt.Some? ==>
              && e.TransmitDoneEvent? && e.ok && Own(s, e) && s.operation.value.kind == Clear
              && Step(s, e).settleAt == Some(e.settleAt)
              && Replied(s.queue, s.epoch) && Step(s, e).operation.Some? && Step(s, e).operation.value.error.None?
  {
    match e
    case TransmitDoneEvent(i, ok, roundTrip, lookupOk, settleAt, now) =>
      if i < |s.unanswered| {
        var t := s.(unanswered := s.unanswered[..i] + s.unanswered[i + 1..]);
        ReplyWasQueued(t);
        PacketsKeep(t);
        var u := ProcessPackets(t);
        if s.unanswered[i].epoch == s.epoch {
          FinishRequestSettles(u.(scheduler := Scheduler.Completed(u.scheduler, roundTrip, !ok)), s.unanswered[i].request, ok, lookupOk, settleAt, now);
        }
      }
    case ProcessPacketsEvent => PacketsKeep(s);
    case _ => if Cancels(e) { CancelsOrKeeps(s, e); }
  }

  lemma FinishRequestSettles(s: State, r: Request, ok: bool, lookupOk: bool, settleAt: int, now: int)
    requires s.operation.Some? && s.settleAt.None?
    ensures var t := FinishRequest(s, r, ok, lookupOk, settleAt, now);
            t.settleAt.Some? ==>
              && ok && s.operation.value.kind == Clear && Belongs(Clear, r) && t.settleAt == Some(settleAt)
              && s.operation.value.positiveReply && t.operation.Some? && t.operation.value.error.None?
  {
  }

  /** The rescan of a clear begins only by a clock reading at or after the time settled for. */
  lemma RescanWaitsForSettling(s: State, e: Event)
    requires Invariant(s) && s.operation.Some? && s.operation.value.kind == Clear
    ensures Step(s, e).operation.Some? && Step(s, e).operation.value.kind == PostClearScan <==>
            e.SettleEvent? && s.settleAt.Some? && e.now >= s.settleAt.value
  {
    match e
    case TransmitDoneEvent(i, ok, roundTrip, lookupOk, settleAt, now) =>
      if i < |s.unanswered| {
        PacketsKeep(s.(unanswered := s.unanswered[..i] + s.unanswered[i + 1..]));
      }
    case ProcessPacketsEvent => PacketsKeep(s);
    case _ => if Cancels(e) { CancelsOrKeeps(s, e); }
  }

  // ---------------------------------------------------------------- requests

  function ClearRequests(requests: seq<Request>): nat {
    if requests == [] then 0 else ClearRequests(requests[1..]) + if requests[0].mode == 0x04 then 1 else 0
  }

  lemma {:induction false} ClearRequestsAppend(a: seq<Request>, b: seq<Request>)
    ensures ClearRequests(a + b) == ClearRequests(a) + ClearRequests(b)
  {
    if a == [] {
      assert a + b == b;
    } else {
      assert (a + b)[1..] == a[1..] + b;
      ClearRequestsAppend(a[1..], b);
    }
  }

  /** The clear requests a step hands to the source. */
  function Sends(s: State, e: Event): nat
    requires Scheduler.WellFormed(s.scheduler)
  {
    if e.DispatchEvent? && SourceReady(s) then
      var r := Scheduler.NextRequest(s.scheduler, e.now).1;
      if r.Some? && r.value.mode == 0x04 then 1 else 0
    else 0
  }

  ghost function Sent(events: seq<Event>): nat {
    if events == [] then 0
    else Sent(events[..|events| - 1]) + Sends(Run(INITIAL, events[..|events| - 1]), events[|events| - 1])
  }

  lemma EnqueuedClears(s: State, requests: seq<Request>)
    ensures ClearRequests(Enqueued(s, requests).scheduler.diagnostics) ==
            ClearRequests(s.scheduler.diagnostics) + ClearRequests(requests)
  {
    ClearRequestsAppend(s.scheduler.diagnostics, requests);
  }

  lemma QueriesAreNoClears()
    ensures ClearRequests([STORED_CODES, PENDING_CODES]) == ClearRequests(IDENTIFICATION) == ClearRequests([FREEZE_FRAME]) == 0
    ensures ClearRequests([CLEAR_CODES]) == 1
  {
    assert IDENTIFICATION[1..][1..][1..] == [];
    assert [STORED_CODES, PENDING_CODES][1..][1..] == [];
  }

  lemma FinishRequestQueues(s: State, r: Request, ok: bool, lookupOk: bool, settleAt: int, now: int)
    ensures var t := FinishRequest(s, r, ok, lookupOk, settleAt, now);
            t.scheduler.diagnostics == s.scheduler.diagnostics || t.scheduler.diagnostics == s.scheduler.diagnostics + [FREEZE_FRAME]
  {
  }

  lemma DispatchQueues(s: State, now: int)
    requires Scheduler.WellFormed(s.scheduler)
    ensures ClearRequests(Dispatch(s, now).scheduler.diagnostics) + Sends(s, DispatchEvent(now)) == ClearRequests(s.scheduler.diagnostics)
  {
  }

  /** A step that hands out, queues or begins clears keeps those sent and queued within those begun. */
  lemma StepSendsConfirmed(s: State, e: Event, sent: nat)
    requires Invariant(s) && sent + ClearRequests(s.scheduler.diagnostics) <= |s.started|
    ensures sent + Sends(s, e) + ClearRequests(Step(s, e).scheduler.diagnostics) <= |Step(s, e).started|
  {
    StartedChanges(s, e);
    QueriesAreNoClears();
    match e
    case ScanEvent => EnqueuedClears(s, [STORED_CODES, PENDING_CODES]);
    case SettleEvent(_) => EnqueuedClears(s, [STORED_CODES, PENDING_CODES]);
    case DispatchEvent(now) => DispatchQueues(s, now);
    case IdentifyEvent => EnqueuedClears(s, IDENTIFICATION);
    case ConfirmClearEvent(_, _) => EnqueuedClears(s, [CLEAR_CODES]);
    case ProcessPacketsEvent => PacketsKeep(s);
    case TransmitDoneEvent(_, _, _, _, _, _) => TransmitQueues(s, e);
    case _ =>
  }

  lemma TransmitQueues(s: State, e: Event)
    requires Invariant(s) && e.TransmitDoneEvent?
    ensures ClearRequests(Step(s, e).scheduler.diagnostics) == ClearRequests(s.scheduler.diagnostics)
  {
    if e.i < |s.unanswered| {
      var t := s.(unanswered := s.unanswered[..e.i] + s.unanswered[e.i + 1..]);
      PacketsKeep(t);
      var u := ProcessPackets(t);
      var v := u.(scheduler := Scheduler.Completed(u.scheduler, e.roundTrip, !e.ok));
      FinishRequestQueues(v, s.unanswered[e.i].request, e.ok, e.lookupOk, e.settleAt, e.now);
      EnqueuedClears(v, [FREEZE_FRAME]);
      QueriesAreNoClears();
    }
  }

  /** In every run, faults and disconnects included, the source is handed at most one clear request
      for each token confirmed. */
  lemma {:induction false} ClearRequestsAreConfirmed(events: seq<Event>)
    ensures Sent(events) + ClearRequests(Run(INITIAL, events).scheduler.diagnostics) <= |Run(INITIAL, events).started|
    decreases |events|
  {
    if events != [] {
      var init := events[..|events| - 1];
      ClearRequestsAreConfirmed(init);
      StepSendsConfirmed(Run(INITIAL, init), events[|events| - 1], Sent(init));
    }
  }
}
