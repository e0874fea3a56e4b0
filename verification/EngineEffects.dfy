/** What single steps leave in the engine's other fields, and what an audit records. */
module EngineEffects {
  import opened Wrappers
  import opened Sources
  import opened EngineModel
  import opened EngineSafety
  import opened EngineAccounting
  import opened EngineHeard
  import opened EngineOutcomes
  import opened EngineClearing
  import Scheduler

  // ---------------------------------------------------------------- starting and cancelling

  /** A scan or identification is refused with the reason why, or queues its requests; either way no
      token stays alive. */
  lemma BeginAnswersExactly(s: State, e: Event)
    requires Invariant(s) && (e.ScanEvent? || e.IdentifyEvent?)
    ensures var t := Step(s, e);
            && t.token.None?
            && (if s.operation.Some? then
                  t.operation == s.operation && t.answers == s.answers + [Answer(s.issued, Some(OperationInProgress))]
                else if !SourceReady(s) then
                  t.operation.None? && t.answers == s.answers + [Answer(s.issued, Some(Error.InvalidState))]
                else
                  && t.operation.Some? && t.answers == s.answers
                  && t.scheduler.diagnostics == s.scheduler.diagnostics +
                     if e.ScanEvent? then [Scheduler.Request(3, 0), Scheduler.Request(7, 0)]
                     else [Scheduler.Request(9, 2), Scheduler.Request(9, 4), Scheduler.Request(9, 6)])
  {
  }

  /** A step that cancels an operation answers it with the source's error, if it reported one, and as
      cancelled otherwise. */
  lemma CancelAnswersExactly(s: State, e: Event)
    requires Invariant(s) && Cancels(e) && s.operation.Some? && Step(s, e).operation.None?
    ensures Step(s, e).answers == s.answers +
            [Answer(s.operation.value.ticket, Some(if e.SourceChangedEvent? && e.error.Some? then e.error.value else Error.Cancelled))]
    ensures BeginsEpoch(s, e) || e.DisconnectEvent? || (e.SourceChangedEvent? && (e.state == Faulted || e.state == Disconnected))
  {
  }

  // ---------------------------------------------------------------- which error

  /** Among the messages noted the vehicle's rejection of a clear has the last word; otherwise the first
      error stays, and a new one says that a message was malformed. */
  lemma {:induction false} ErrorNoted(op: Operation, messages: seq<Message>)
    ensures var noted := NotedAll(op, messages).error;
            if op.kind == Clear && NegativeReply(Some(4)) in messages then noted == Some(NegativeResponse)
            else if op.error.Some? then noted == op.error
            else noted == None || noted == Some(MalformedResponse)
    decreases |messages|
  {
    if messages != [] {
      var one := Noted(op, messages[0]);
      ErrorNoted(one, messages[1..]);
      assert messages == [messages[0]] + messages[1..];
      if op.kind == Clear && messages[0] == NegativeReply(Some(4)) && NegativeReply(Some(4)) !in messages[1..] {
        assert one.error == Some(NegativeResponse);
      }
    }
  }

  /** Why an operation ends with its last answer: an error noted before, a failed answer, no positive
      reply, codes that cannot be looked up, in this order. */
  function Reason(op: Operation, ok: bool, lookupOk: bool): Option<Error> {
    if op.error.Some? then op.error
    else if !ok then Some(TransmitFailed)
    else if op.kind == Clear && !op.positiveReply then Some(MalformedResponse)
    else if EndsScan(op) && !lookupOk then Some(LookupFailed)
    else None
  }

  lemma FinishRequestReasons(s: State, r: Request, ok: bool, lookupOk: bool, settleAt: int, now: int)
    requires s.operation.Some? && OperationIsSound(s.operation.value, s.epoch) && s.operation.value.kind != Identify
    requires Belongs(s.operation.value.kind, r) && FinishRequest(s, r, ok, lookupOk, settleAt, now).operation.None?
    ensures FinishRequest(s, r, ok, lookupOk, settleAt, now).answers ==
            s.answers + [Answer(s.operation.value.ticket, Reason(s.operation.value, ok, lookupOk))]
  {
  }

  /** The answer that ends a scan or a clear gives the reason that applies. */
  lemma EndGivesReason(s: State, e: Event)
    requires Invariant(s) && Own(s, e) && s.operation.value.kind != Identify && Step(s, e).operation.None?
    ensures Step(s, e).answers == s.answers + [Answer(s.operation.value.ticket, Reason(Processed(s), e.ok, e.lookupOk))]
    ensures Processed(s) == NotedAll(s.operation.value, MessagesOf(s.queue, s.epoch))
  {
    var rest := s.unanswered[..e.i] + s.unanswered[e.i + 1..];
    PacketsIgnoreTransmits(s, rest);
    PacketsKeep(s);
    ProcessNotes(s);
    var u := ProcessPackets(s.(unanswered := rest));
    var v := u.(scheduler := Scheduler.Completed(u.scheduler, e.roundTrip, !e.ok));
    FinishRequestReasons(v, s.unanswered[e.i].request, e.ok, e.lookupOk, e.settleAt, e.now);
  }

  // ---------------------------------------------------------------- connection and source

  /** The connection state that a step reports: the worker's own, the source's, or none. */
  function Reported(s: State, e: Event): Option<ConnectionState>
    requires Invariant(s)
  {
    if BeginsEpoch(s, e) && Step(s, e).source.Some? then Some(Step(s, e).source.value.state)
    else if e.SourceChangedEvent? then Some(e.state)
    else if e.ConnectedEvent? && e.ok then Some(Ready)
    else if e.DisconnectDoneEvent? then Some(if e.ok then Disconnected else Faulted)
    else None
  }

  lemma LastCompletedLeavesConnection(s: State, lookupOk: bool, settleAt: int, now: int)
    requires s.operation.Some?
    ensures var t := LastCompleted(s, lookupOk, settleAt, now);
            && t.connection == s.connection && t.boundEpoch == s.boundEpoch && t.source == s.source && t.config == s.config
            && t.scheduler.ewma == s.scheduler.ewma && t.scheduler.inFlight == s.scheduler.inFlight
  {
  }

  lemma FinishRequestLeavesConnection(s: State, r: Request, ok: bool, lookupOk: bool, settleAt: int, now: int)
    ensures var t := FinishRequest(s, r, ok, lookupOk, settleAt, now);
            && t.connection == s.connection && t.boundEpoch == s.boundEpoch && t.source == s.source && t.config == s.config
            && t.scheduler.ewma == s.scheduler.ewma && t.scheduler.inFlight == s.scheduler.inFlight
  {
    if s.operation.Some? {
      LastCompletedLeavesConnection(s.(operation := Some(Counted(s.operation.value, ok))), lookupOk, settleAt, now);
    }
  }

  /** An answer of the epoch ends the flight and is averaged, a failed one as a timeout. */
  lemma TransmitLeavesConnection(s: State, e: Event)
    requires Invariant(s) && e.TransmitDoneEvent?
    ensures var t := Step(s, e);
            && t.connection == s.connection && t.boundEpoch == s.boundEpoch && t.source == s.source && t.config == s.config
            && t.epoch == s.epoch
    ensures Processes(s, e) ==>
              !Step(s, e).scheduler.inFlight && Step(s, e).scheduler.ewma == Scheduler.Completed(s.scheduler, e.roundTrip, !e.ok).ewma
  {
    if e.i < |s.unanswered| {
      var t := s.(unanswered := s.unanswered[..e.i] + s.unanswered[e.i + 1..]);
      PacketsKeep(t);
      var u := ProcessPackets(t);
      var v := u.(scheduler := Scheduler.Completed(u.scheduler, e.roundTrip, !e.ok));
      FinishRequestLeavesConnection(v, s.unanswered[e.i].request, e.ok, e.lookupOk, e.settleAt, e.now);
      FinishRequestStays(v, s.unanswered[e.i].request, e.ok, e.lookupOk, e.settleAt, e.now);
    }
  }

  /** The connection is what the last step to report one reported. */
  ghost function LastReported(s: State, events: seq<Event>): ConnectionState
    requires Invariant(s)
    decreases |events|
  {
    if events == [] then s.connection
    else
      var init, e := events[..|events| - 1], events[|events| - 1];
      var reported := Reported(Run(s, init), e);
      if reported.Some? then reported.value else LastReported(s, init)
  }

  lemma StepReports(s: State, e: Event)
    requires Invariant(s)
    ensures Step(s, e).connection == if Reported(s, e).Some? then Reported(s, e).value else s.connection
  {
    match e
    case TransmitDoneEvent(_, _, _, _, _, _) => TransmitLeavesConnection(s, e);
    case ProcessPacketsEvent => PacketsKeep(s);
    case _ =>
  }

  lemma {:induction false} ConnectionIsLastReported(s: State, events: seq<Event>)
    requires Invariant(s)
    ensures Run(s, events).connection == LastReported(s, events)
    decreases |events|
  {
    if events != [] {
      var init := events[..|events| - 1];
      ConnectionIsLastReported(s, init);
      StepReports(Run(s, init), events[|events| - 1]);
    }
  }

  /** The source's subscription is bound to the present epoch. */
  predicate SourceIsBound(s: State) {
    s.source.Some? ==> s.boundEpoch == Some(s.epoch)
  }

  lemma StepBinds(s: State, e: Event)
    requires Invariant(s) && SourceIsBound(s)
    ensures SourceIsBound(Step(s, e))
  {
    match e
    case TransmitDoneEvent(_, _, _, _, _, _) => TransmitLeavesConnection(s, e);
    case ProcessPacketsEvent => PacketsKeep(s);
    case _ =>
  }

  /** After every run the source's subscription tags packets with the present epoch. */
  lemma {:induction false} RunBinds(s: State, events: seq<Event>)
    requires Invariant(s) && SourceIsBound(s)
    ensures SourceIsBound(Run(s, events))
    decreases |events|
  {
    if events != [] {
      var init := events[..|events| - 1];
      RunBinds(s, init);
      StepBinds(Run(s, init), events[|events| - 1]);
    }
  }

  /** The source is the one last set, in the state it last moved to. */
  lemma SourceFollows(s: State, e: Event)
    requires Invariant(s)
    ensures Step(s, e).source ==
            if e.SwapSourceEvent? || (e.SetSourceEvent? && BeginsEpoch(s, e)) then e.source
            else if e.SourceMovesEvent? && s.source.Some? then Some(Source(s.source.value.sourceType, e.state))
            else s.source
  {
    match e
    case TransmitDoneEvent(_, _, _, _, _, _) => TransmitLeavesConnection(s, e);
    case ProcessPacketsEvent => PacketsKeep(s);
    case _ =>
  }

  /** The configuration is that of the last connect the source's type allowed, and a swap forgets it. */
  lemma ConfigFollows(s: State, e: Event)
    requires Invariant(s)
    ensures Step(s, e).config ==
            if e.SwapSourceEvent? || (e.SetSourceEvent? && BeginsEpoch(s, e)) then None
            else if e.ConnectEvent? && s.source.Some? && s.source.value.sourceType == e.config.sourceType then Some(e.config)
            else s.config
  {
    match e
    case TransmitDoneEvent(_, _, _, _, _, _) => TransmitLeavesConnection(s, e);
    case ProcessPacketsEvent => PacketsKeep(s);
    case _ =>
  }

  /** A new epoch and an explicit disconnect leave no operation, token or settling, and a scheduler
      without requests, PIDs or flight and with the first round-trip estimate. */
  lemma ResetsForget(s: State, e: Event)
    requires Invariant(s) && (BeginsEpoch(s, e) || e.DisconnectEvent?)
    ensures var t := Step(s, e);
            && t.operation.None? && t.token.None? && t.settleAt.None?
            && t.scheduler == Scheduler.State([], [], [], false, false, 50)
            && t.unanswered == s.unanswered
  {
    CancelKeeps(s.(token := None), Error.Cancelled, 0);
  }

  /** A clear that begins queues its one request behind all others. */
  lemma ConfirmQueuesTheClear(s: State, id: nat, now: int)
    requires Invariant(s) && ConfirmClear(s, id, now).started != s.started
    ensures var t := ConfirmClear(s, id, now);
            && t.operation.Some? && t.operation.value.outstanding == 1
            && t.scheduler.diagnostics == s.scheduler.diagnostics + [Scheduler.Request(4, 0)]
  {
  }

  /** A rescan forgets the codes noted before it and queues its two requests behind all others. */
  lemma RescanStartsAfresh(s: State, now: int)
    requires Invariant(s) && s.settleAt.Some? && now >= s.settleAt.value
    ensures var t := Settle(s, now);
            && t.settleAt.None? && t.operation.Some? && t.operation.value.kind == PostClearScan
            && t.operation.value.codes == [] && t.operation.value.outstanding == 2
            && t.scheduler.diagnostics == s.scheduler.diagnostics + [Scheduler.Request(3, 0), Scheduler.Request(7, 0)]
  {
  }

  // ---------------------------------------------------------------- what an audit records

  /** The two audits are of the same clear. */
  predicate SameSubject(a: Audit, b: Audit) {
    a.preparedAt == b.preparedAt && a.sourceType == b.sourceType && a.epoch == b.epoch && a.identity == b.identity
  }

  function TimeOf(e: Event): int {
    match e
    case SetSourceEvent(_, now) => now
    case SwapSourceEvent(_, now) => now
    case DisconnectEvent(now) => now
    case NewEpochEvent(now) => now
    case SourceChangedEvent(_, _, now) => now
    case TransmitDoneEvent(_, _, _, _, _, now) => now
    case _ => 0
  }

  /** The clear goes on with the same subject, or its audit is filed with it, at the time of the step. */
  predicate KeepsSubject(s: State, t: State, now: int)
    requires s.operation.Some? && s.operation.value.audit.Some?
  {
    if t.operation.Some? then t.operation.value.audit.Some? && SameSubject(t.operation.value.audit.value, s.operation.value.audit.value)
    else
      && |t.audits| == |s.audits| + 1
      && SameSubject(t.audits[|s.audits|], s.operation.value.audit.value) && t.audits[|s.audits|].completedAt == now
  }

  lemma LastCompletedKeepsSubject(s: State, lookupOk: bool, settleAt: int, now: int)
    requires s.operation.Some? && IsClear(s.operation.value) && OperationIsSound(s.operation.value, s.epoch)
    ensures KeepsSubject(s, LastCompleted(s, lookupOk, settleAt, now), now)
  {
  }

  lemma FinishRequestKeepsSubject(s: State, r: Request, ok: bool, lookupOk: bool, settleAt: int, now: int)
    requires s.operation.Some? && IsClear(s.operation.value) && OperationIsSound(s.operation.value, s.epoch)
    ensures KeepsSubject(s, FinishRequest(s, r, ok, lookupOk, settleAt, now), now)
  {
    if Belongs(s.operation.value.kind, r) {
      LastCompletedKeepsSubject(s.(operation := Some(Counted(s.operation.value, ok))), lookupOk, settleAt, now);
    }
  }

  lemma TransmitKeepsSubject(s: State, e: Event)
    requires Invariant(s) && s.operation.Some? && IsClear(s.operation.value) && e.TransmitDoneEvent?
    ensures KeepsSubject(s, Step(s, e), e.now)
  {
    if e.i < |s.unanswered| {
      var t := s.(unanswered := s.unanswered[..e.i] + s.unanswered[e.i + 1..]);
      PacketsKeep(t);
      var u := ProcessPackets(t);
      var v := u.(scheduler := Scheduler.Completed(u.scheduler, e.roundTrip, !e.ok));
      FinishRequestKeepsSubject(v, s.unanswered[e.i].request, e.ok, e.lookupOk, e.settleAt, e.now);
    }
  }

  lemma StepKeepsSubject(s: State, e: Event)
    requires Invariant(s) && s.operation.Some? && IsClear(s.operation.value)
    ensures KeepsSubject(s, Step(s, e), TimeOf(e))
  {
    match e
    case TransmitDoneEvent(_, _, _, _, _, _) => TransmitKeepsSubject(s, e);
    case ProcessPacketsEvent => PacketsKeep(s);
    case _ => if Cancels(e) { CancelKeepsSubject(s, e); }
  }

  lemma CancelKeepsSubject(s: State, e: Event)
    requires Invariant(s) && s.operation.Some? && IsClear(s.operation.value) && Cancels(e)
    ensures KeepsSubject(s, Step(s, e), TimeOf(e))
  {
  }

  lemma {:induction false} SubjectStays(s: State, events: seq<Event>, ticket: nat)
    requires Invariant(s) && Active(s, ticket) && IsClear(s.operation.value)
    requires Active(Run(s, events), ticket)
    ensures var op := Run(s, events).operation.value;
            op.audit.Some? && SameSubject(op.audit.value, s.operation.value.audit.value)
    decreases |events|
  {
    if events != [] {
      var init, e := events[..|events| - 1], events[|events| - 1];
      IssuedGrows(s, init);
      WasActive(Run(s, init), e, ticket);
      SubjectStays(s, init, ticket);
      KindStays(s, init, ticket);
      StepKeepsSubject(Run(s, init), e);
    }
  }

  lemma ConfirmTakesSubject(s: State, id: nat, now: int)
    requires Invariant(s) && ConfirmClear(s, id, now).started != s.started
    ensures var t := ConfirmClear(s, id, now);
            && s.token.Some? && s.source.Some? && Active(t, s.issued) && s.issued < t.issued && IsClear(t.operation.value)
            && t.operation.value.audit.Some?
            && var a := t.operation.value.audit.value;
               && a.preparedAt == s.token.value.preparedAt && a.sourceType == s.source.value.sourceType
               && a.epoch == s.epoch && a.identity == Identity(s.metadata)
  {
    ConfirmStarts(s, id, now);
  }

  /** Over all runs: the audit of a confirmed clear records when its token was prepared, the source
      type, epoch and vehicle at its confirmation, and the time of the step that ended it. */
  lemma AuditRecordsTheClear(s: State, id: nat, now: int, events: seq<Event>, e: Event)
    requires Invariant(s) && ConfirmClear(s, id, now).started != s.started && Invariant(ConfirmClear(s, id, now))
    requires Active(Run(ConfirmClear(s, id, now), events), s.issued)
    requires Step(Run(ConfirmClear(s, id, now), events), e).operation.None?
    ensures var before := Run(ConfirmClear(s, id, now), events);
            var t := Step(before, e);
            && |t.audits| == |before.audits| + 1 && s.token.Some? && s.source.Some?
            && var a := t.audits[|before.audits|];
               && a.preparedAt == s.token.value.preparedAt && a.sourceType == s.source.value.sourceType
               && a.epoch == s.epoch && a.identity == Identity(s.metadata) && a.completedAt == TimeOf(e)
  {
    var begun := ConfirmClear(s, id, now);
    ConfirmTakesSubject(s, id, now);
    SubjectStays(begun, events, s.issued);
    KindStays(begun, events, s.issued);
    StepKeepsSubject(Run(begun, events), e);
  }
}
