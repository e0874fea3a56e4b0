/** How many requests of the active operation are on their way, and when the operation ends. */
module EngineAccounting {
  import opened Wrappers
  import opened Sources
  import opened EngineModel
  import opened EngineSafety
  import Scheduler

  // ---------------------------------------------------------------- the account

  /** The unanswered requests of one epoch. */
  function Current(unanswered: seq<Transmit>, epoch: nat): seq<Request> {
    if unanswered == [] then []
    else (if unanswered[0].epoch == epoch then [unanswered[0].request] else []) + Current(unanswered[1..], epoch)
  }

  /** An active operation counts exactly its requests queued or in flight; without one there are none. */
  predicate Carried(operation: Option<Operation>, queue: seq<Request>, inFlight: seq<Request>) {
    if operation.None? then queue == [] && (inFlight != [] ==> inFlight[0].mode == 1)
    else
      var op := operation.value;
      && (forall i | 0 <= i < |queue| :: Belongs(op.kind, queue[i]))
      && (inFlight != [] ==> inFlight[0].mode == 1 || Belongs(op.kind, inFlight[0]))
      && op.outstanding == |queue| + if inFlight != [] && Belongs(op.kind, inFlight[0]) then 1 else 0
  }

  /** The scheduler is in flight exactly when one transmit of this epoch is unanswered. */
  predicate Accounted(s: State) {
    var current := Current(s.unanswered, s.epoch);
    && |current| == (if s.scheduler.inFlight then 1 else 0)
    && Carried(s.operation, s.scheduler.diagnostics, current)
  }

  /** A fault that cancels an operation leaves its requests behind, and an explicit disconnect resets
      the scheduler although a request may be out. */
  predicate Breaks(s: State, e: Event) {
    || (e.SourceChangedEvent? && Unavailable(e.state) && s.operation.Some? && s.operation.value.outstanding > 0)
    || (e.DisconnectEvent? && s.scheduler.inFlight)
  }

  // ---------------------------------------------------------------- unanswered transmits

  lemma {:induction false} CurrentAppends(unanswered: seq<Transmit>, t: Transmit, epoch: nat)
    ensures Current(unanswered + [t], epoch) == Current(unanswered, epoch) + if t.epoch == epoch then [t.request] else []
  {
    if unanswered == [] {
      assert [] + [t] == [t] && [t][1..] == [];
    } else {
      CurrentAppends(unanswered[1..], t, epoch);
      assert (unanswered + [t])[1..] == unanswered[1..] + [t];
    }
  }

  lemma {:induction false} CurrentRemoves(unanswered: seq<Transmit>, i: nat, epoch: nat)
    requires i < |unanswered|
    ensures var rest := Current(unanswered[..i] + unanswered[i + 1..], epoch);
            var all := Current(unanswered, epoch);
            if unanswered[i].epoch == epoch then |rest| == |all| - 1 && (|all| == 1 ==> all[0] == unanswered[i].request)
            else rest == all
  {
    var rest := unanswered[..i] + unanswered[i + 1..];
    if i == 0 {
      assert rest == unanswered[1..];
    } else {
      CurrentRemoves(unanswered[1..], i - 1, epoch);
      assert rest[1..] == unanswered[1..][..i - 1] + unanswered[1..][i..];
    }
  }

  lemma {:induction false} NoneInFuture(unanswered: seq<Transmit>, epoch: nat)
    requires forall i | 0 <= i < |unanswered| :: unanswered[i].epoch < epoch
    ensures Current(unanswered, epoch) == []
  {
    if unanswered != [] {
      NoneInFuture(unanswered[1..], epoch);
    }
  }

  // ---------------------------------------------------------------- steps

  lemma EpochAccounts(s: State, now: int)
    requires Sound(s)
    ensures Accounted(NewEpoch(s, now))
  {
    NoneInFuture(s.unanswered, s.epoch + 1);
  }

  /** Whatever came before, a new epoch restores the account. */
  lemma NewEpochRestoresAccount(s: State, source: Option<Source>, now: int)
    requires Invariant(s)
    ensures Accounted(NewEpoch(s, now)) && Accounted(SwapSource(s, source, now))
  {
    EpochAccounts(s, now);
    NoneInFuture(s.unanswered, s.epoch + 1);
  }

  lemma DispatchAccounts(s: State, now: int)
    requires Invariant(s) && Accounted(s)
    ensures Accounted(Dispatch(s, now))
  {
    var next := Scheduler.NextRequest(s.scheduler, now);
    if SourceReady(s) && next.1.Some? {
      CurrentAppends(s.unanswered, Transmit(s.epoch, next.1.value), s.epoch);
    }
  }

  /** The account of an operation one of whose requests has just been answered. */
  predicate CountsDown(s: State, r: Request) {
    && Current(s.unanswered, s.epoch) == [] && !s.scheduler.inFlight
    && Carried(s.operation, s.scheduler.diagnostics, [r])
  }

  /** New requests of an operation on an empty queue, with nothing but streaming in flight. */
  lemma LoadedAccounts(s: State, op: Operation, requests: seq<Request>)
    requires s.scheduler.diagnostics == [] && op.outstanding == |requests|
    requires forall i | 0 <= i < |requests| :: Belongs(op.kind, requests[i])
    requires var current := Current(s.unanswered, s.epoch);
             && |current| == (if s.scheduler.inFlight then 1 else 0)
             && (current != [] ==> current[0].mode == 1)
    ensures Accounted(Enqueued(s.(operation := Some(op)), requests))
  {
    assert s.scheduler.diagnostics + requests == requests;
  }

  lemma FinishesIdle(s: State, lookupOk: bool, settleAt: int, now: int)
    requires s.operation.Some? && OperationIsSound(s.operation.value, s.epoch)
    ensures FinishScan(s, lookupOk, now).operation.None?
    ensures forall t | t == FinishScan(s, lookupOk, now) || t == FinishIdentification(s) || t == ClearCompleted(s, settleAt, now) ::
              t.epoch == s.epoch && t.scheduler == s.scheduler && t.unanswered == s.unanswered
    ensures s.operation.value.kind == Clear ==>
              var t := ClearCompleted(s, settleAt, now);
              t.operation.Some? ==> t.operation.value.kind == Clear && t.operation.value.outstanding == s.operation.value.outstanding
  {
  }

  lemma LastCompletedAccounts(s: State, lookupOk: bool, settleAt: int, now: int)
    requires s.operation.Some? && s.operation.value.outstanding == 0 && OperationIsSound(s.operation.value, s.epoch)
    requires Current(s.unanswered, s.epoch) == [] && !s.scheduler.inFlight && s.scheduler.diagnostics == []
    ensures Accounted(LastCompleted(s, lookupOk, settleAt, now))
  {
    var op := s.operation.value;
    if op.kind != Clear && op.kind != Identify && op.freezeFrameCode.None? && op.codes != [] {
      LoadedAccounts(s, op.(freezeFrameCode := Some(op.codes[0]), outstanding := 1), [FREEZE_FRAME]);
    } else {
      FinishesIdle(s, lookupOk, settleAt, now);
    }
  }

  lemma FinishRequestAccounts(s: State, r: Request, ok: bool, lookupOk: bool, settleAt: int, now: int)
    requires CountsDown(s, r) && (s.operation.Some? ==> OperationIsSound(s.operation.value, s.epoch))
    ensures Accounted(FinishRequest(s, r, ok, lookupOk, settleAt, now))
  {
    if s.operation.Some? && Belongs(s.operation.value.kind, r) {
      var t := s.(operation := Some(Counted(s.operation.value, ok)));
      if t.operation.value.outstanding == 0 {
        LastCompletedAccounts(t, lookupOk, settleAt, now);
      }
    }
  }

  lemma TransmitDoneAccounts(s: State, e: Event)
    requires Invariant(s) && Accounted(s) && e.TransmitDoneEvent?
    ensures Accounted(Step(s, e))
  {
    if e.i < |s.unanswered| {
      CurrentRemoves(s.unanswered, e.i, s.epoch);
      var done := s.unanswered[e.i];
      var t := s.(unanswered := s.unanswered[..e.i] + s.unanswered[e.i + 1..]);
      if done.epoch == s.epoch {
        PacketsKeep(t);
        var u := ProcessPackets(t);
        assert [done.request] == Current(s.unanswered, s.epoch);
        FinishRequestAccounts(u.(scheduler := Scheduler.Completed(u.scheduler, e.roundTrip, !e.ok)), done.request, e.ok, e.lookupOk, e.settleAt, e.now);
      }
    }
  }

  lemma BeginAccounts(s: State, e: Event)
    requires Invariant(s) && Accounted(s) && (e.ScanEvent? || e.IdentifyEvent?)
    ensures Accounted(Step(s, e))
  {
    var t := s.(token := None, issued := s.issued + 1);
    if t.operation.None? && SourceReady(t) {
      if e.ScanEvent? {
        LoadedAccounts(t, NewOperation(t, Scan, 2, s.issued), [STORED_CODES, PENDING_CODES]);
      } else {
        LoadedAccounts(t, NewOperation(t, Identify, 3, s.issued), IDENTIFICATION);
      }
    }
  }

  lemma BeginClearAccounts(s: State, token: Token, ticket: nat, now: int)
    requires Accounted(s) && s.operation.None?
    ensures Accounted(BeginClear(s, token, ticket, now))
  {
    var audit := Audit(token.preparedAt, now, token.sourceType, s.epoch, token.identity, false, false, false, None);
    LoadedAccounts(s.(started := s.started + [token.id]), NewOperation(s, Clear, 1, ticket).(audit := Some(audit)), [CLEAR_CODES]);
  }

  lemma ConfirmAccounts(s: State, id: nat, now: int)
    requires Accounted(s)
    ensures Accounted(ConfirmClear(s, id, now))
  {
    var u := s.(issued := s.issued + 1, token := None);
    if s.token.Some? && SafetyError(u, now).None? {
      BeginClearAccounts(u, s.token.value, s.issued, now);
    }
  }

  lemma SettleAccounts(s: State, now: int)
    requires Invariant(s) && Accounted(s)
    ensures Accounted(Settle(s, now))
  {
    if s.settleAt.Some? && now >= s.settleAt.value {
      LoadedAccounts(s.(settleAt := None), s.operation.value.(kind := PostClearScan, outstanding := 2, codes := []), [STORED_CODES, PENDING_CODES]);
    }
  }

  lemma CancelAccountsExactly(s: State, e: Event)
    requires Invariant(s) && Accounted(s) && (e.SourceChangedEvent? || e.DisconnectEvent?)
    ensures Accounted(Step(s, e)) <==> !Breaks(s, e)
  {
  }

  /** A step breaks the account exactly if it is a fault that cancels an operation still waiting for
      answers, or an explicit disconnect with a request in flight. */
  lemma StepAccountsExactly(s: State, e: Event)
    requires Invariant(s) && Accounted(s)
    ensures Accounted(Step(s, e)) <==> !Breaks(s, e)
  {
    match e
    case SetSourceEvent(source, now) => NewEpochRestoresAccount(s.(token := None), source, now);
    case SwapSourceEvent(source, now) => NewEpochRestoresAccount(s, source, now);
    case NewEpochEvent(now) => EpochAccounts(s, now);
    case DisconnectEvent(_) => CancelAccountsExactly(s, e);
    case SourceChangedEvent(_, _, _) => CancelAccountsExactly(s, e);
    case DispatchEvent(now) => DispatchAccounts(s, now);
    case TransmitDoneEvent(_, _, _, _, _, _) => TransmitDoneAccounts(s, e);
    case ScanEvent => BeginAccounts(s, e);
    case IdentifyEvent => BeginAccounts(s, e);
    case ConfirmClearEvent(id, now) => ConfirmAccounts(s, id, now);
    case SettleEvent(now) => SettleAccounts(s, now);
    case ProcessPacketsEvent => PacketsKeep(s);
    case _ =>
  }

  // ---------------------------------------------------------------- progress

  /** The answer of a request that belongs to the active operation. */
  predicate Own(s: State, e: Event) {
    && e.TransmitDoneEvent? && e.i < |s.unanswered| && s.unanswered[e.i].epoch == s.epoch
    && s.operation.Some? && Belongs(s.operation.value.kind, s.unanswered[e.i].request)
  }

  /** At most this many answers are still to come before the operation ends. */
  function Left(op: Operation): nat {
    match op.kind
    case Identify => op.outstanding
    case Clear => op.outstanding + 3
    case _ => op.outstanding + if op.freezeFrameCode.None? then 1 else 0
  }

  /** The counter is positive whenever an answer counts it down. */
  lemma CounterNeverUnderflows(s: State, e: Event)
    requires Accounted(s) && Own(s, e)
    ensures s.operation.value.outstanding > 0
  {
    CurrentRemoves(s.unanswered, e.i, s.epoch);
  }

  /** An active operation waits for the vehicle to settle or has a request queued or in flight. */
  lemma ActiveOperationIsServed(s: State)
    requires Invariant(s) && Accounted(s) && s.operation.Some?
    ensures s.settleAt.Some? || s.scheduler.diagnostics != [] || s.scheduler.inFlight
    ensures Left(s.operation.value) > 0
  {
  }

  lemma FinishRequestLeaves(s: State, r: Request, ok: bool, lookupOk: bool, settleAt: int, now: int)
    requires s.operation.Some? && OperationIsSound(s.operation.value, s.epoch)
    requires Belongs(s.operation.value.kind, r) ==> s.operation.value.outstanding > 0
    ensures var t := FinishRequest(s, r, ok, lookupOk, settleAt, now);
            t.operation.Some? ==>
              Left(t.operation.value) + (if Belongs(s.operation.value.kind, r) then 1 else 0) <= Left(s.operation.value)
  {
    if Belongs(s.operation.value.kind, r) {
      var t := s.(operation := Some(Counted(s.operation.value, ok)));
      if t.operation.value.outstanding == 0 {
        LastCompletedLeaves(t, lookupOk, settleAt, now);
      }
    }
  }

  lemma LastCompletedLeaves(s: State, lookupOk: bool, settleAt: int, now: int)
    requires s.operation.Some? && OperationIsSound(s.operation.value, s.epoch) && s.operation.value.outstanding == 0
    ensures var t := LastCompleted(s, lookupOk, settleAt, now);
            t.operation.Some? ==> Left(t.operation.value) <= Left(s.operation.value)
  {
    FinishesIdle(s, lookupOk, settleAt, now);
  }

  lemma TransmitLeaves(s: State, e: Event)
    requires Invariant(s) && Accounted(s) && e.TransmitDoneEvent? && s.operation.Some?
    ensures Step(s, e).operation.Some? ==>
              Left(Step(s, e).operation.value) + (if Own(s, e) then 1 else 0) <= Left(s.operation.value)
  {
    if e.i < |s.unanswered| {
      if Own(s, e) {
        CounterNeverUnderflows(s, e);
      }
      var t := s.(unanswered := s.unanswered[..e.i] + s.unanswered[e.i + 1..]);
      PacketsKeep(t);
      var u := ProcessPackets(t);
      if s.unanswered[e.i].epoch == s.epoch {
        FinishRequestLeaves(u.(scheduler := Scheduler.Completed(u.scheduler, e.roundTrip, !e.ok)), s.unanswered[e.i].request, e.ok, e.lookupOk, e.settleAt, e.now);
      }
    }
  }

  lemma StepLeaves(s: State, e: Event)
    requires Invariant(s) && Accounted(s) && s.operation.Some?
    ensures Step(s, e).operation.Some? ==>
              Left(Step(s, e).operation.value) + (if Own(s, e) then 1 else 0) <= Left(s.operation.value)
  {
    match e
    case TransmitDoneEvent(_, _, _, _, _, _) => TransmitLeaves(s, e);
    case ProcessPacketsEvent => PacketsKeep(s);
    case _ => if Cancels(e) { CancelsOrKeeps(s, e); }
  }

  lemma CancelsOrKeeps(s: State, e: Event)
    requires Cancels(e)
    requires Scheduler.WellFormed(s.scheduler)
    ensures Step(s, e).operation.None? || Step(s, e).operation == s.operation
  {
  }

  /** The events of a run, none of which breaks the account. */
  ghost predicate KeepsAccount(s: State, events: seq<Event>)
    requires Invariant(s)
    decreases |events|
  {
    events != [] ==>
      var init := events[..|events| - 1];
      KeepsAccount(s, init) && !Breaks(Run(s, init), events[|events| - 1])
  }

  lemma {:induction false} RunAccounts(s: State, events: seq<Event>)
    requires Invariant(s) && Accounted(s) && KeepsAccount(s, events)
    ensures Accounted(Run(s, events)) && Run(s, events).issued >= s.issued
    decreases |events|
  {
    if events != [] {
      var init := events[..|events| - 1];
      RunAccounts(s, init);
      StepAccountsExactly(Run(s, init), events[|events| - 1]);
      StepMovesCompletions(Run(s, init), events[|events| - 1]);
    }
  }

  predicate Active(s: State, ticket: nat) {
    s.operation.Some? && s.operation.value.ticket == ticket
  }

  /** How many answers the operation with a ticket had during a run. */
  ghost function OwnAnswers(s: State, events: seq<Event>, ticket: nat): nat
    requires Invariant(s)
    decreases |events|
  {
    if events == [] then 0
    else
      var init := events[..|events| - 1];
      var before := Run(s, init);
      OwnAnswers(s, init, ticket) + if Active(before, ticket) && Own(before, events[|events| - 1]) then 1 else 0
  }

  /** While an operation stays active every answer it gets brings its end nearer. */
  lemma {:induction false} AnswersAreBounded(s: State, events: seq<Event>)
    requires Invariant(s) && Accounted(s) && KeepsAccount(s, events) && s.operation.Some?
    requires Active(Run(s, events), s.operation.value.ticket)
    ensures OwnAnswers(s, events, s.operation.value.ticket) + Left(Run(s, events).operation.value) <= Left(s.operation.value)
    decreases |events|
  {
    if events != [] {
      var init, e, ticket := events[..|events| - 1], events[|events| - 1], s.operation.value.ticket;
      var before := Run(s, init);
      RunAccounts(s, init);
      StepMovesCompletions(before, e);
      assert Active(before, ticket);
      AnswersAreBounded(s, init);
      StepLeaves(before, e);
    }
  }

  lemma BeginLeft(s: State, begin: Event)
    requires Invariant(s) && s.operation.None?
    requires begin.ScanEvent? || begin.IdentifyEvent? || begin.ConfirmClearEvent?
    ensures var t := Step(s, begin);
            t.operation.Some? ==> t.operation.value.ticket == s.issued && Left(t.operation.value) == if begin.ConfirmClearEvent? then 4 else 3
  {
  }

  /** A scan or identification has ended after three answers and a clear, its rescan included, after
      four, in every run that neither breaks the account nor cancels it before. */
  lemma OperationsEnd(s: State, begin: Event, events: seq<Event>)
    requires Invariant(s) && Accounted(s) && s.operation.None?
    requires begin.ScanEvent? || begin.IdentifyEvent? || begin.ConfirmClearEvent?
    requires Invariant(Step(s, begin)) && KeepsAccount(Step(s, begin), events)
    requires OwnAnswers(Step(s, begin), events, s.issued) >= if begin.ConfirmClearEvent? then 4 else 3
    requires Step(s, begin).operation.Some?
    ensures !Active(Run(Step(s, begin), events), s.issued)
  {
    BeginLeft(s, begin);
    StepAccountsExactly(s, begin);
    FewAnswersWhileActive(Step(s, begin), events, s.issued);
  }

  lemma FewAnswersWhileActive(s: State, events: seq<Event>, ticket: nat)
    requires Invariant(s) && Accounted(s) && KeepsAccount(s, events) && Active(s, ticket)
    ensures Active(Run(s, events), ticket) ==> OwnAnswers(s, events, ticket) < Left(s.operation.value)
  {
    RunAccounts(s, events);
    if Active(Run(s, events), ticket) {
      AnswersAreBounded(s, events);
      ActiveOperationIsServed(Run(s, events));
    }
  }

  // ---------------------------------------------------------------- where the account breaks

  lemma ScanOnReadySource()
    ensures var scanning := BeginScan(SwapSource(INITIAL, Some(Source(SerialElm327, Ready)), 0));
            && Invariant(scanning) && Accounted(scanning) && SourceReady(scanning) && !scanning.scheduler.inFlight
            && scanning.operation.Some? && scanning.operation.value.outstanding == 2
            && scanning.scheduler.diagnostics != []
  {
    var ready := SwapSource(INITIAL, Some(Source(SerialElm327, Ready)), 0);
    assert Invariant(INITIAL);
    NewEpochKeeps(INITIAL, Some(Source(SerialElm327, Ready)), None, 0);
    NewEpochRestoresAccount(INITIAL, Some(Source(SerialElm327, Ready)), 0);
    BeginKeeps(ready, ScanEvent);
    BeginAccounts(ready, ScanEvent);
  }

  /** Two ways to lose the account: a fault while a scan is queued, a disconnect while it is in flight. */
  lemma LeftoversBreakTheAccount()
    ensures var scanning := BeginScan(SwapSource(INITIAL, Some(Source(SerialElm327, Ready)), 0));
            && Invariant(scanning) && Accounted(scanning) && Accounted(Dispatch(scanning, 0))
            && !Accounted(SourceChanged(scanning, Faulted, None, 1))
            && !Accounted(Disconnect(Dispatch(scanning, 0), 1))
  {
    ScanOnReadySource();
    var scanning := BeginScan(SwapSource(INITIAL, Some(Source(SerialElm327, Ready)), 0));
    CancelAccountsExactly(scanning, SourceChangedEvent(Faulted, None, 1));
    DispatchKeeps(scanning, 0);
    DispatchAccounts(scanning, 0);
    CancelAccountsExactly(Dispatch(scanning, 0), DisconnectEvent(1));
  }
}
