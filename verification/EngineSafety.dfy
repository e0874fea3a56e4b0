/** What every reachable engine state keeps: token binding, clear audits, completions, epoch isolation. */
module EngineSafety {
  import opened Wrappers
  import opened Telemetry
  import opened Sources
  import opened EngineModel
  import Scheduler

  // ---------------------------------------------------------------- the invariant

  predicate Physical(t: SourceType) {
    t == SerialElm327 || t == SocketCan
  }

  /** A live token still binds, to a physical source, and no operation is active. */
  predicate TokenIsBound(s: State) {
    s.token.Some? ==> s.operation.None? && Binds(s, s.token.value) && Physical(s.token.value.sourceType)
  }

  predicate AscendingBelow(ids: seq<nat>, bound: nat) {
    ids != [] ==> ids[|ids| - 1] < bound && AscendingBelow(ids[..|ids| - 1], ids[|ids| - 1])
  }

  /** No token has begun more than one clear, and the live one has begun none. */
  predicate TokensAreFresh(s: State) {
    && (s.token.Some? ==> s.token.value.id < s.prepared)
    && AscendingBelow(s.started, if s.token.Some? then s.token.value.id else s.prepared)
  }

  predicate AuditIsSound(a: Audit) {
    && (a.rescanned ==> a.positive)
    && (a.positive ==> a.transmitted)
    && (a.error.None? ==> a.rescanned)
  }

  predicate OperationIsSound(op: Operation, epoch: nat) {
    && op.epoch == epoch
    && (op.audit.Some? <==> IsClear(op))
    && (op.audit.Some? ==> !op.audit.value.rescanned && (op.audit.value.positive ==> op.audit.value.transmitted))
    && (op.kind == PostClearScan ==> op.audit.value.positive)
    && (op.kind == Clear ==> op.outstanding <= 1)
  }

  /** An operation waits for an answer, or for the vehicle to settle after a clear it has accepted. */
  predicate SettlesAfterClear(s: State) {
    && (s.settleAt.Some? ==> s.operation.Some? && s.operation.value.kind == Clear)
    && (s.operation.Some? ==> (s.operation.value.outstanding == 0 <==> s.settleAt.Some?))
    && (s.settleAt.Some? && s.operation.value.audit.Some? ==> s.operation.value.audit.value.positive)
  }

  function ActiveClears(s: State): nat {
    if s.operation.Some? && IsClear(s.operation.value) then 1 else 0
  }

  predicate ClearsAreAudited(s: State) {
    && |s.started| == |s.audits| + ActiveClears(s)
    && forall i | 0 <= i < |s.audits| :: AuditIsSound(s.audits[i])
  }

  /** Every held sample came in a packet of the current epoch. */
  predicate IsIsolated(s: State) {
    forall i | 0 <= i < |s.held| :: s.held[i].epoch == s.epoch
  }

  predicate TransmitsAreKnown(s: State) {
    forall i | 0 <= i < |s.unanswered| :: s.unanswered[i].epoch <= s.epoch
  }

  predicate Sound(s: State) {
    && TokenIsBound(s) && TokensAreFresh(s)
    && (s.operation.Some? ==> OperationIsSound(s.operation.value, s.epoch) && s.operation.value.ticket < s.issued)
    && ClearsAreAudited(s)
    && IsIsolated(s) && TransmitsAreKnown(s)
    && Scheduler.WellFormed(s.scheduler)
  }

  predicate Invariant(s: State) {
    Sound(s) && SettlesAfterClear(s)
  }

  lemma DroppingToken(s: State)
    requires Invariant(s)
    ensures Invariant(s.(token := None))
  {
  }

  // ---------------------------------------------------------------- completions and epochs

  /** The active clear may be ended with this error, or with none. */
  predicate ReadyToFile(s: State, error: Option<Error>) {
    && s.operation.Some? && IsClear(s.operation.value) && s.operation.value.audit.Some?
    && AuditIsSound(s.operation.value.audit.value.(error := error))
    && TokenIsBound(s) && TokensAreFresh(s) && ClearsAreAudited(s)
    && IsIsolated(s) && TransmitsAreKnown(s) && Scheduler.WellFormed(s.scheduler)
  }

  lemma FinishClearKeeps(s: State, error: Option<Error>, now: int)
    requires ReadyToFile(s, error)
    ensures var t := FinishClear(s, error, now);
            Invariant(t) && t.operation.None? && t.settleAt.None? && Invariant(t.(answers := s.answers))
  {
  }

  lemma CancelKeeps(s: State, error: Error, now: int)
    requires Invariant(s)
    ensures Invariant(CancelOperation(s, error, now)) && CancelOperation(s, error, now).operation.None?
    ensures CancelOperation(s, error, now).settleAt.None?
  {
    if s.operation.Some? && IsClear(s.operation.value) {
      FinishClearKeeps(s, Some(error), now);
    }
  }

  /** A new epoch needs no more than that the invariant holds without the token. */
  lemma RenewalKeeps(s: State, now: int)
    requires Invariant(s.(token := None))
    ensures Invariant(NewEpoch(s, now))
  {
    CancelKeeps(s.(token := None), Cancelled, now);
  }

  lemma NewEpochKeeps(s: State, source: Option<Source>, config: Option<Config>, now: int)
    requires Invariant(s)
    ensures Invariant(s.(source := source, config := config, token := None))
    ensures Invariant(NewEpoch(s.(source := source, config := config), now))
  {
    DroppingToken(s);
    RenewalKeeps(s.(source := source, config := config), now);
  }

  // ---------------------------------------------------------------- starting operations

  lemma EnqueuedKeeps(s: State, requests: seq<Request>)
    requires Invariant(s)
    ensures Invariant(Enqueued(s, requests))
  {
  }

  lemma NewOperationKeeps(s: State, kind: Kind, outstanding: nat, ticket: nat)
    requires Invariant(s) && s.token.None? && s.operation.None? && ticket < s.issued
    requires outstanding > 0 && (kind == Scan || kind == Identify)
    ensures Invariant(s.(operation := Some(NewOperation(s, kind, outstanding, ticket))))
  {
  }

  lemma BeginKeeps(s: State, e: Event)
    requires Invariant(s) && (e.ScanEvent? || e.IdentifyEvent?)
    ensures Invariant(Step(s, e))
  {
    var t := s.(token := None, issued := s.issued + 1);
    if t.operation.None? && SourceReady(t) {
      if e.ScanEvent? {
        NewOperationKeeps(t, Scan, 2, s.issued);
      } else {
        NewOperationKeeps(t, Identify, 3, s.issued);
      }
    }
  }

  lemma PrepareKeeps(s: State, now: int)
    requires Invariant(s)
    ensures Invariant(PrepareClear(s, now))
  {
  }

  lemma ConfirmKeeps(s: State, id: nat, now: int)
    requires Invariant(s)
    ensures Invariant(ConfirmClear(s, id, now))
  {
    var t := s.(issued := s.issued + 1);
    var u := t.(token := None);
    assert Invariant(t);
    DroppingToken(t);
    if t.token.None? || t.token.value.id != id {
      AnswerKeeps(t, s.issued, Some(TokenInvalid));
    } else if now >= t.token.value.expiresAt {
      AnswerKeeps(u, s.issued, Some(TokenExpired));
    } else if SafetyError(u, now).Some? {
      AnswerKeeps(u, s.issued, SafetyError(u, now));
    } else {
      BeginClearKeeps(u, s.token.value, s.issued, now);
    }
  }

  lemma AnswerKeeps(s: State, ticket: nat, error: Option<Error>)
    requires Invariant(s)
    ensures Invariant(Answered(s, ticket, error))
  {
  }

  lemma BeginClearKeeps(s: State, token: Token, ticket: nat, now: int)
    requires Invariant(s) && s.token.None? && s.operation.None? && ticket < s.issued
    requires token.id < s.prepared && AscendingBelow(s.started, token.id)
    ensures Invariant(BeginClear(s, token, ticket, now))
  {
    var audit := Audit(token.preparedAt, now, token.sourceType, s.epoch, token.identity, false, false, false, None);
    var op := NewOperation(s, Clear, 1, ticket).(audit := Some(audit));
    var t := s.(operation := Some(op), started := s.started + [token.id]);
    assert t.started[..|t.started| - 1] == s.started;
    assert Invariant(t);
    EnqueuedKeeps(t, [CLEAR_CODES]);
  }

  // ---------------------------------------------------------------- packets and requests

  lemma TaggedEpoch(epoch: nat, samples: seq<Sample>)
    ensures |Tagged(epoch, samples)| == |samples|
    ensures forall i | 0 <= i < |samples| :: Tagged(epoch, samples)[i] == Held(epoch, samples[i])
  {
  }

  /** What handling packets leaves alone. */
  predicate OnlyNoted(s: State, t: State) {
    && t == s.(queue := t.queue, held := t.held, operation := t.operation)
    && (t.operation.Some? <==> s.operation.Some?)
    && (s.operation.Some? ==>
          t.operation.value == s.operation.value.(
            codes := t.operation.value.codes, metadata := t.operation.value.metadata,
            positiveReply := t.operation.value.positiveReply, error := t.operation.value.error))
  }

  lemma PacketKeeps(s: State, p: Packet)
    requires IsIsolated(s)
    ensures IsIsolated(HandlePacket(s, p)) && OnlyNoted(s, HandlePacket(s, p)) && HandlePacket(s, p).queue == s.queue
  {
    if p.message.LiveData? && p.message.samples.Some? {
      TaggedEpoch(p.epoch, p.message.samples.value);
    }
  }

  lemma NotedKeeps(s: State, m: Message)
    requires Invariant(s) && s.operation.Some?
    ensures Invariant(s.(operation := Some(Noted(s.operation.value, m))))
  {
  }

  lemma {:induction false} PacketsKeep(s: State)
    requires IsIsolated(s)
    ensures IsIsolated(ProcessPackets(s)) && OnlyNoted(s, ProcessPackets(s)) && ProcessPackets(s).queue == []
    decreases |s.queue|
  {
    if s.queue != [] {
      var t := s.(queue := s.queue[1..]);
      PacketKeeps(t, s.queue[0]);
      PacketsKeep(HandlePacket(t, s.queue[0]));
    }
  }

  lemma ProcessKeeps(s: State)
    requires Invariant(s)
    ensures Invariant(ProcessPackets(s)) && OnlyNoted(s, ProcessPackets(s))
  {
    PacketsKeep(s);
  }

  lemma NextIsWellFormed(s: Scheduler.State, now: int)
    requires Scheduler.WellFormed(s)
    ensures Scheduler.WellFormed(Scheduler.NextRequest(s, now).0)
  {
  }

  lemma DispatchKeeps(s: State, now: int)
    requires Invariant(s)
    ensures Invariant(Dispatch(s, now))
  {
    NextIsWellFormed(s.scheduler, now);
  }

  lemma FinishScanKeeps(s: State, lookupOk: bool, now: int)
    requires Sound(s) && s.settleAt.None? && s.operation.Some?
    requires s.operation.value.kind == Scan || s.operation.value.kind == PostClearScan
    ensures Invariant(FinishScan(s, lookupOk, now))
  {
    if s.operation.value.kind == PostClearScan {
      var op := if lookupOk then s.operation.value else Remembered(s.operation.value, LookupFailed);
      var rescanned := op.(audit := Some(op.audit.value.(rescanned := true)));
      FinishClearKeeps(s.(operation := Some(rescanned)), op.error, now);
    }
  }

  lemma ClearCompletedKeeps(s: State, settleAt: int, now: int)
    requires Sound(s) && s.operation.Some? && s.operation.value.kind == Clear && s.operation.value.outstanding == 0
    requires s.operation.value.error.None? ==> s.operation.value.audit.value.transmitted
    ensures Invariant(ClearCompleted(s, settleAt, now))
  {
    var op := s.operation.value;
    if op.error.Some? || !op.positiveReply {
      FinishClearKeeps(s, if op.error.Some? then op.error else Some(MalformedResponse), now);
    }
  }

  lemma LastCompletedKeeps(s: State, lookupOk: bool, settleAt: int, now: int)
    requires Sound(s) && s.operation.Some? && s.operation.value.outstanding == 0
    requires if s.operation.value.kind == Clear
             then s.operation.value.error.None? ==> s.operation.value.audit.value.transmitted else s.settleAt.None?
    ensures Invariant(LastCompleted(s, lookupOk, settleAt, now))
  {
    var op := s.operation.value;
    match op.kind
    case Clear => ClearCompletedKeeps(s, settleAt, now);
    case Identify =>
    case _ =>
      if op.freezeFrameCode.None? && op.codes != [] {
        EnqueuedKeeps(s.(operation := Some(op.(freezeFrameCode := Some(op.codes[0]), outstanding := 1))), [FREEZE_FRAME]);
      } else {
        FinishScanKeeps(s, lookupOk, now);
      }
  }

  lemma CountedKeeps(s: State, ok: bool)
    requires Invariant(s) && s.operation.Some?
    ensures Sound(s.(operation := Some(Counted(s.operation.value, ok))))
    ensures var op := Counted(s.operation.value, ok);
            op.kind == Clear && op.error.None? ==> op.audit.value.transmitted
  {
  }

  lemma FinishRequestKeeps(s: State, r: Request, ok: bool, lookupOk: bool, settleAt: int, now: int)
    requires Invariant(s)
    ensures Invariant(FinishRequest(s, r, ok, lookupOk, settleAt, now))
  {
    if s.operation.Some? && Belongs(s.operation.value.kind, r) {
      CountedKeeps(s, ok);
      var t := s.(operation := Some(Counted(s.operation.value, ok)));
      if t.operation.value.outstanding == 0 {
        LastCompletedKeeps(t, lookupOk, settleAt, now);
      }
    }
  }

  lemma TransmitDoneKeeps(s: State, e: Event)
    requires Invariant(s) && e.TransmitDoneEvent?
    ensures Invariant(Step(s, e))
  {
    if e.i < |s.unanswered| {
      var t := s.(unanswered := s.unanswered[..e.i] + s.unanswered[e.i + 1..]);
      assert Invariant(t);
      ProcessKeeps(t);
      var u := ProcessPackets(t);
      var v := u.(scheduler := Scheduler.Completed(u.scheduler, e.roundTrip, !e.ok));
      FinishRequestKeeps(v, s.unanswered[e.i].request, e.ok, e.lookupOk, e.settleAt, e.now);
    }
  }

  lemma SettleKeeps(s: State, now: int)
    requires Invariant(s)
    ensures Invariant(Settle(s, now))
  {
    if s.settleAt.Some? && now >= s.settleAt.value {
      var t := s.(settleAt := None, operation := Some(s.operation.value.(kind := PostClearScan, outstanding := 2, codes := [])));
      EnqueuedKeeps(t, [STORED_CODES, PENDING_CODES]);
    }
  }

  // ---------------------------------------------------------------- runs

  lemma SourceChangedKeeps(s: State, state: ConnectionState, error: Option<Error>, now: int)
    requires Invariant(s)
    ensures Invariant(SourceChanged(s, state, error, now))
  {
    DroppingToken(s);
    var t := s.(token := None);
    if Unavailable(state) {
      CancelKeeps(t, if error.Some? then error.value else Cancelled, now);
    }
    ConnectionKeeps(if Unavailable(state) then CancelOperation(t, if error.Some? then error.value else Cancelled, now)
                    else if state != Ready then t else s, state);
  }

  lemma ConnectionKeeps(s: State, state: ConnectionState)
    requires Invariant(s)
    ensures Invariant(s.(connection := state))
  {
  }

  lemma SetSourceKeeps(s: State, source: Option<Source>, now: int)
    requires Invariant(s)
    ensures Invariant(SetSource(s, source, now))
  {
    NewEpochKeeps(s.(token := None), source, None, now);
  }

  lemma PassiveKeeps(s: State, e: Event)
    requires Invariant(s)
    requires e.ConnectEvent? || e.ConnectedEvent? || e.DisconnectDoneEvent? || e.SupportedPidsEvent? || e.PushEvent? || e.SourceMovesEvent?
    ensures Invariant(Step(s, e))
  {
    Scheduler.ListedIsWellFormed(s.scheduler, if e.SupportedPidsEvent? then e.pids else []);
  }

  /** No step of any kind breaks the invariant. */
  lemma StepKeeps(s: State, e: Event)
    requires Invariant(s)
    ensures Invariant(Step(s, e))
  {
    match e
    case SetSourceEvent(source, now) => SetSourceKeeps(s, source, now);
    case SwapSourceEvent(source, now) => NewEpochKeeps(s, source, None, now);
    case DisconnectEvent(now) => CancelKeeps(s.(token := None), Cancelled, now);
    case ScanEvent => BeginKeeps(s, e);
    case IdentifyEvent => BeginKeeps(s, e);
    case PrepareClearEvent(now) => PrepareKeeps(s, now);
    case ConfirmClearEvent(id, now) => ConfirmKeeps(s, id, now);
    case NewEpochEvent(now) => NewEpochKeeps(s, s.source, s.config, now);
    case SourceChangedEvent(state, error, now) => SourceChangedKeeps(s, state, error, now);
    case ProcessPacketsEvent => ProcessKeeps(s);
    case DispatchEvent(now) => DispatchKeeps(s, now);
    case TransmitDoneEvent(_, _, _, _, _, _) => TransmitDoneKeeps(s, e);
    case SettleEvent(now) => SettleKeeps(s, now);
    case _ => PassiveKeeps(s, e);
  }

  /** The state after a run; every run keeps the invariant. */
  ghost function Run(s: State, events: seq<Event>): (t: State)
    requires Invariant(s)
    ensures Invariant(t)
    decreases |events|
  {
    if events == [] then s
    else
      var before := Run(s, events[..|events| - 1]);
      StepKeeps(before, events[|events| - 1]);
      Step(before, events[|events| - 1])
  }

  // ---------------------------------------------------------------- clear tokens

  /** The k-th sample held is of the metric and no later one is. */
  predicate IsLatest(held: seq<Held>, metric: nat, k: nat) {
    && k < |held| && held[k].sample.metric == metric
    && forall j | k < j < |held| :: held[j].sample.metric != metric
  }

  /** The latest sample is the last one held of the metric, and there is none iff none is held. */
  lemma {:induction false} LatestExactly(held: seq<Held>, metric: nat)
    ensures forall k | 0 <= k < |held| :: IsLatest(held, metric, k) ==> Latest(held, metric) == Some(held[k])
    ensures Latest(held, metric).Some? <==> exists k | 0 <= k < |held| :: IsLatest(held, metric, k)
    ensures Latest(held, metric).None? <==> forall j | 0 <= j < |held| :: held[j].sample.metric != metric
  {
    if held != [] {
      var last := |held| - 1;
      LatestExactly(held[..last], metric);
      if held[last].sample.metric == metric {
        assert IsLatest(held, metric, last);
      } else {
        assert forall k | 0 <= k < last :: IsLatest(held[..last], metric, k) <==> IsLatest(held, metric, k);
      }
    }
  }

  /** The last vehicle-speed sample held is of the current epoch, valid, neither from the future nor
      more than a second old, and at no more than 0.5. */
  predicate AtRest(s: State, now: int) {
    exists k | 0 <= k < |s.held| ::
      IsLatest(s.held, VEHICLE_SPEED, k) && s.held[k].epoch == s.epoch && Standstill(s.held[k].sample, now)
  }

  predicate Standstill(sample: Sample, now: int) {
    sample.quality == Quality.Valid && 0 <= now - sample.at <= 1_000_000_000 && sample.value <= 0.5
  }

  /** A physical source that is ready, configured and idle, of a vehicle at rest. */
  predicate Safe(s: State, now: int) {
    && s.config.Some? && SourceReady(s) && Physical(s.source.value.sourceType) && s.connection == Ready
    && s.operation.None? && AtRest(s, now)
  }

  /** Nothing is said against clearing if and only if it is safe. */
  lemma SafeExactly(s: State, now: int)
    requires IsIsolated(s)
    ensures SafetyError(s, now).None? <==> Safe(s, now)
    ensures SafetyError(s, now) == Some(InvalidState) <==> s.source.None? || s.config.None?
    ensures SafetyError(s, now).None? || SafetyError(s, now) in {Some(InvalidState), Some(OperationInProgress), Some(SafetyRejected)}
  {
    LatestExactly(s.held, VEHICLE_SPEED);
  }

  lemma SafetyIgnoresTickets(s: State, now: int)
    ensures SafetyError(s.(issued := s.issued + 1, token := None), now) == SafetyError(s, now)
    ensures SafetyError(s.(token := None), now) == SafetyError(s, now)
  {
  }

  /** What a confirmation answers. It is refused as invalid exactly when no live token has its number:
      the check that epoch, source, configuration and vehicle are those of the preparation never
      refuses one. Only a confirmation with another number leaves the token alive. */
  lemma RecheckNeverRejects(s: State, id: nat, now: int)
    requires Invariant(s)
    ensures var t := ConfirmClear(s, id, now);
            var reply := t.answers[|s.answers|..];
            var known := s.token.Some? && s.token.value.id == id;
            && (reply == [Answer(s.issued, Some(TokenInvalid))] <==> !known)
            && (reply == [Answer(s.issued, Some(TokenExpired))] <==> known && now >= s.token.value.expiresAt)
            && (reply == [] <==> known && now < s.token.value.expiresAt && Safe(s, now))
            && (|reply| == 1 && known && now < s.token.value.expiresAt ==> reply == [Answer(s.issued, SafetyError(s, now))])
            && t.token == if known then None else s.token
  {
    SafetyIgnoresTickets(s, now);
    SafeExactly(s, now);
  }

  /** A token is prepared only with the vehicle at rest, and has begun no clear. */
  lemma PreparedIsFresh(s: State, now: int)
    requires Invariant(s)
    ensures var t := PrepareClear(s, now);
            t.token.Some? ==>
              && t.token.value.id == s.prepared && t.token.value.id !in t.started && AtRest(t, now)
              && t.token.value.preparedAt == now && t.token.value.expiresAt == now + 30_000_000_000
  {
    PrepareKeeps(s, now);
    var t := PrepareClear(s, now);
    if t.token.Some? {
      SafeExactly(s.(token := None), now);
      forall i | 0 <= i < |t.started|
        ensures t.started[i] != t.token.value.id
      {
        BelowBound(t.started, t.token.value.id, i);
      }
    }
  }

  /** What a confirmation answers, and on what grounds it begins a clear. */
  lemma ConfirmIsSafe(s: State, id: nat, now: int)
    requires Invariant(s)
    ensures var t := ConfirmClear(s, id, now);
            var reply := t.answers[|s.answers|..];
            && (reply == [Answer(s.issued, Some(TokenInvalid))] <==> s.token.None? || s.token.value.id != id)
            && (reply == [] <==> t.started == s.started + [id])
            && (t.started != s.started ==> t.token.None? && Safe(s, now))
  {
    RecheckNeverRejects(s, id, now);
    ClearBeginsOnlySafely(s, ConfirmClearEvent(id, now));
    var t := ConfirmClear(s, id, now);
    assert |s.started| != |s.started + [id]|;
    ConfirmStarts(s, id, now);
    SafetyIgnoresTickets(s, now);
  }

  /** A prepared token begins a clear exactly when it is confirmed within thirty seconds, by its
      number, with the vehicle still safe. */
  lemma PreparedTokenConfirms(s: State, prepared: int, id: nat, confirmed: int)
    requires Invariant(s) && Safe(s, prepared)
    ensures var t := PrepareClear(s, prepared);
            ConfirmClear(t, id, confirmed).started == t.started + [id] <==>
              id == s.prepared && confirmed < prepared + 30 * NS_PER_SECOND && Safe(s, confirmed)
  {
    SafeExactly(s, prepared);
    SafeExactly(s, confirmed);
    SafetyIgnoresTickets(s, prepared);
    SafetyIgnoresTickets(s, confirmed);
    var t := PrepareClear(s, prepared);
    PrepareKeeps(s, prepared);
    var u := t.(issued := t.issued + 1, token := None);
    assert SafetyError(u, confirmed) == SafetyError(s.(token := None), confirmed);
    assert |t.started| != |t.started + [id]|;
  }

  /** A step begins a clear if and only if it confirms a live, unexpired token while it is safe, and
      the clear is for that token. */
  lemma ClearBeginsOnlySafely(s: State, e: Event)
    requires Invariant(s)
    ensures var t := Step(s, e);
            && (t.started != s.started <==>
                && e.ConfirmClearEvent? && s.token.Some? && s.token.value.id == e.id && e.now < s.token.value.expiresAt
                && Safe(s, e.now))
            && (t.started != s.started ==> t.started == s.started + [e.id] && t.token.None?)
  {
    StartedChanges(s, e);
    if e.ConfirmClearEvent? {
      SafeExactly(s, e.now);
      ConfirmStarts(s, e.id, e.now);
    }
  }

  lemma StartedChanges(s: State, e: Event)
    requires Invariant(s)
    ensures var t := Step(s, e);
            t.started == s.started ||
            (&& e.ConfirmClearEvent? && s.token.Some? && s.token.value.id == e.id && e.now < s.token.value.expiresAt
             && SafetyError(s, e.now).None? && t.started == s.started + [e.id] && t.token.None?)
  {
    match e
    case ConfirmClearEvent(id, now) => ConfirmStarts(s, id, now);
    case TransmitDoneEvent(_, _, _, _, _, _) => TransmitMoves(s, e);
    case ProcessPacketsEvent => PacketsKeep(s);
    case _ => if Cancels(e) { CancelMoves(s, e); }
  }

  lemma ConfirmStarts(s: State, id: nat, now: int)
    requires Invariant(s)
    ensures var t := ConfirmClear(s, id, now);
            && t.started == (if s.token.Some? && s.token.value.id == id && now < s.token.value.expiresAt && SafetyError(s, now).None?
                             then s.started + [id] else s.started)
            && (t.started != s.started ==> t.token.None?)
  {
    SafetyIgnoresTickets(s, now);
    assert |s.started + [id]| != |s.started|;
  }

  lemma {:induction false} BelowBound(ids: seq<nat>, bound: nat, i: nat)
    requires AscendingBelow(ids, bound) && i < |ids|
    ensures ids[i] < bound
  {
    if i < |ids| - 1 {
      BelowBound(ids[..|ids| - 1], ids[|ids| - 1], i);
    }
  }

  /** In no run does a token begin two clears. */
  lemma {:induction false} TokensBeginOneClear(events: seq<Event>, i: nat, j: nat)
    requires i < j < |Run(INITIAL, events).started|
    ensures Run(INITIAL, events).started[i] < Run(INITIAL, events).started[j]
  {
    var s := Run(INITIAL, events);
    AscendingIds(s.started, if s.token.Some? then s.token.value.id else s.prepared, i, j);
  }

  lemma {:induction false} AscendingIds(ids: seq<nat>, bound: nat, i: nat, j: nat)
    requires AscendingBelow(ids, bound) && i < j < |ids|
    ensures ids[i] < ids[j]
  {
    var last := |ids| - 1;
    if j < last {
      AscendingIds(ids[..last], ids[last], i, j);
    } else {
      BelowBound(ids[..last], ids[last], i);
    }
  }

  /** In every run each clear begun has its audit or is the active operation, and every audit without
      an error was transmitted, confirmed by the vehicle and scanned again. */
  lemma ClearsAreAuditedInEveryRun(events: seq<Event>)
    ensures var s := Run(INITIAL, events);
            && |s.started| == |s.audits| + ActiveClears(s)
            && forall i | 0 <= i < |s.audits| ::
                 && (s.audits[i].rescanned ==> s.audits[i].positive) && (s.audits[i].positive ==> s.audits[i].transmitted)
                 && (s.audits[i].error.None? ==> s.audits[i].rescanned)
  {
    var s := Run(INITIAL, events);
    assert forall i | 0 <= i < |s.audits| :: AuditIsSound(s.audits[i]);
  }

  // ---------------------------------------------------------------- completions

  function Calls(answers: seq<Answer>, ticket: nat): nat {
    if answers == [] then 0
    else Calls(answers[..|answers| - 1], ticket) + if answers[|answers| - 1].ticket == ticket then 1 else 0
  }

  function Holder(s: State): Option<nat> {
    if s.operation.Some? then Some(s.operation.value.ticket) else None
  }

  /** How often a ticket's completion was called, counting the active operation's as one to come. */
  function Owed(s: State, ticket: nat): nat {
    Calls(s.answers, ticket) + if Holder(s) == Some(ticket) then 1 else 0
  }

  /** A step does nothing to completions, calls the active operation's, takes a new one for an
      operation, or calls a new one at once. */
  predicate MovesCompletions(s: State, t: State) {
    || (t.issued == s.issued && t.answers == s.answers && Holder(t) == Holder(s))
    || (t.issued == s.issued && Holder(s).Some? && Holder(t).None?
        && |t.answers| == |s.answers| + 1 && t.answers[..|s.answers|] == s.answers
        && t.answers[|s.answers|].ticket == Holder(s).value)
    || (t.issued == s.issued + 1 && t.answers == s.answers && Holder(s).None? && Holder(t) == Some(s.issued))
    || (t.issued == s.issued + 1 && Holder(t) == Holder(s)
        && |t.answers| == |s.answers| + 1 && t.answers[..|s.answers|] == s.answers
        && t.answers[|s.answers|].ticket == s.issued)
  }

  lemma LastCompletedMoves(s: State, lookupOk: bool, settleAt: int, now: int)
    requires s.operation.Some? && OperationIsSound(s.operation.value, s.epoch)
    ensures var t := LastCompleted(s, lookupOk, settleAt, now);
            MovesCompletions(s, t) && t.started == s.started && t.queue == s.queue && t.held == s.held
  {
  }

  lemma FinishRequestMoves(s: State, r: Request, ok: bool, lookupOk: bool, settleAt: int, now: int)
    requires Invariant(s)
    ensures MovesCompletions(s, FinishRequest(s, r, ok, lookupOk, settleAt, now))
    ensures FinishRequest(s, r, ok, lookupOk, settleAt, now).started == s.started
    ensures FinishRequest(s, r, ok, lookupOk, settleAt, now).queue == s.queue
    ensures FinishRequest(s, r, ok, lookupOk, settleAt, now).held == s.held
  {
    if s.operation.Some? && Belongs(s.operation.value.kind, r) {
      CountedKeeps(s, ok);
      var t := s.(operation := Some(Counted(s.operation.value, ok)));
      if t.operation.value.outstanding == 0 {
        LastCompletedMoves(t, lookupOk, settleAt, now);
      }
    }
  }

  lemma StepMovesCompletions(s: State, e: Event)
    requires Invariant(s)
    ensures MovesCompletions(s, Step(s, e))
  {
    match e
    case TransmitDoneEvent(_, _, _, _, _, _) => TransmitMoves(s, e);
    case ProcessPacketsEvent => PacketsKeep(s);
    case ScanEvent => BeginMoves(s, e);
    case IdentifyEvent => BeginMoves(s, e);
    case ConfirmClearEvent(id, now) => ConfirmMoves(s, id, now);
    case _ => if Cancels(e) { CancelMoves(s, e); }
  }

  predicate Cancels(e: Event) {
    e.SetSourceEvent? || e.SwapSourceEvent? || e.NewEpochEvent? || e.DisconnectEvent? || e.SourceChangedEvent?
  }

  lemma CancelOperationMoves(s: State, error: Error, now: int)
    ensures var t := CancelOperation(s, error, now);
            MovesCompletions(s, t) && t.started == s.started && t.queue == s.queue && t.held == s.held
  {
  }

  /** Cancelling leaves the samples alone or drops them. */
  lemma CancelMoves(s: State, e: Event)
    requires Invariant(s) && Cancels(e)
    ensures var t := Step(s, e);
            MovesCompletions(s, t) && t.started == s.started
            && (t.queue == s.queue || t.queue == []) && (t.held == s.held || t.held == [])
  {
    match e
    case SetSourceEvent(source, now) => NewEpochMoves(s.(token := None, source := source, config := None), now);
    case SwapSourceEvent(source, now) => NewEpochMoves(s.(source := source, config := None), now);
    case NewEpochEvent(now) => NewEpochMoves(s, now);
    case DisconnectEvent(now) => CancelOperationMoves(s.(token := None), Cancelled, now);
    case SourceChangedEvent(state, error, now) =>
      CancelOperationMoves(if state != Ready then s.(token := None) else s, if error.Some? then error.value else Cancelled, now);
    case _ =>
  }

  lemma NewEpochMoves(s: State, now: int)
    ensures var t := NewEpoch(s, now);
            MovesCompletions(s, t) && t.started == s.started && t.queue == [] && t.held == []
  {
    CancelOperationMoves(s.(token := None), Cancelled, now);
  }

  lemma TransmitMoves(s: State, e: Event)
    requires Invariant(s) && e.TransmitDoneEvent?
    ensures MovesCompletions(s, Step(s, e)) && Step(s, e).started == s.started
  {
    if e.i < |s.unanswered| {
      var t := s.(unanswered := s.unanswered[..e.i] + s.unanswered[e.i + 1..]);
      assert Invariant(t);
      ProcessKeeps(t);
      var u := ProcessPackets(t);
      FinishRequestMoves(u.(scheduler := Scheduler.Completed(u.scheduler, e.roundTrip, !e.ok)), s.unanswered[e.i].request, e.ok, e.lookupOk, e.settleAt, e.now);
    }
  }

  lemma BeginMoves(s: State, e: Event)
    requires Invariant(s) && (e.ScanEvent? || e.IdentifyEvent?)
    ensures MovesCompletions(s, Step(s, e))
  {
  }

  lemma ConfirmMoves(s: State, id: nat, now: int)
    requires Invariant(s)
    ensures MovesCompletions(s, ConfirmClear(s, id, now))
  {
  }

  lemma MovingBalances(s: State, t: State, ticket: nat)
    requires MovesCompletions(s, t) && Owed(s, ticket) == if ticket < s.issued then 1 else 0
    ensures Owed(t, ticket) == if ticket < t.issued then 1 else 0
  {
  }

  /** In every run each scan, identify and clear completion taken has been called exactly once or is
      still held by the active operation, and never both. */
  lemma {:induction false} CompletionsAreCalledOnce(events: seq<Event>, ticket: nat)
    ensures var s := Run(INITIAL, events);
            Owed(s, ticket) == if ticket < s.issued then 1 else 0
    decreases |events|
  {
    if events != [] {
      var init := events[..|events| - 1];
      CompletionsAreCalledOnce(init, ticket);
      StepMovesCompletions(Run(INITIAL, init), events[|events| - 1]);
      MovingBalances(Run(INITIAL, init), Run(INITIAL, events), ticket);
    }
  }

  /** The service disconnects as it is destroyed: no completion is left uncalled. */
  lemma DisconnectCallsEveryCompletion(events: seq<Event>, now: int, ticket: nat)
    ensures var s := Run(INITIAL, events + [DisconnectEvent(now)]);
            ticket < s.issued ==> Calls(s.answers, ticket) == 1
  {
    var all := events + [DisconnectEvent(now)];
    CompletionsAreCalledOnce(all, ticket);
    assert all[..|all| - 1] == events;
    CancelKeeps(Run(INITIAL, events).(token := None), Cancelled, now);
  }

  // ---------------------------------------------------------------- epoch isolation

  function Pushed(events: seq<Event>): seq<Packet> {
    if events == [] then []
    else
      var e := events[|events| - 1];
      Pushed(events[..|events| - 1]) + if e.PushEvent? then [e.packet] else []
  }

  predicate Carries(p: Packet, h: Held) {
    p.epoch == h.epoch && p.message.LiveData? && p.message.samples.Some? && h.sample in p.message.samples.value
  }

  predicate CameIn(h: Held, pushed: seq<Packet>) {
    exists i | 0 <= i < |pushed| :: Carries(pushed[i], h)
  }

  /** The queue and the held samples hold nothing that the source did not push. */
  predicate FromPackets(s: State, pushed: seq<Packet>) {
    && (forall i | 0 <= i < |s.queue| :: s.queue[i] in pushed)
    && (forall i | 0 <= i < |s.held| :: CameIn(s.held[i], pushed))
  }

  lemma PacketIsSource(s: State, p: Packet, pushed: seq<Packet>)
    requires FromPackets(s, pushed) && p in pushed
    ensures FromPackets(HandlePacket(s, p), pushed)
  {
    var t := HandlePacket(s, p);
    if t.held != s.held {
      var samples := p.message.samples.value;
      TaggedEpoch(p.epoch, samples);
      var k :| 0 <= k < |pushed| && pushed[k] == p;
      forall i | |s.held| <= i < |t.held|
        ensures CameIn(t.held[i], pushed)
      {
        assert t.held[i] == Held(p.epoch, samples[i - |s.held|]);
        assert Carries(pushed[k], t.held[i]);
      }
    }
  }

  lemma {:induction false} PacketsAreSources(s: State, pushed: seq<Packet>)
    requires FromPackets(s, pushed)
    ensures FromPackets(ProcessPackets(s), pushed)
    decreases |s.queue|
  {
    if s.queue != [] {
      var t := s.(queue := s.queue[1..]);
      assert s.queue[0] in pushed;
      assert forall i | 0 <= i < |t.queue| :: t.queue[i] == s.queue[i + 1];
      PacketIsSource(t, s.queue[0], pushed);
      PacketsAreSources(HandlePacket(t, s.queue[0]), pushed);
    }
  }

  lemma MorePackets(s: State, pushed: seq<Packet>, p: Packet)
    requires FromPackets(s, pushed)
    ensures FromPackets(s, pushed + [p])
  {
    forall i | 0 <= i < |s.held|
      ensures CameIn(s.held[i], pushed + [p])
    {
      var k :| 0 <= k < |pushed| && Carries(pushed[k], s.held[i]);
      assert (pushed + [p])[k] == pushed[k];
    }
  }

  lemma StepFromPackets(s: State, e: Event, pushed: seq<Packet>)
    requires Invariant(s) && FromPackets(s, pushed)
    ensures FromPackets(Step(s, e), pushed + if e.PushEvent? then [e.packet] else [])
  {
    assert pushed + [] == pushed;
    match e
    case PushEvent(p) => MorePackets(s, pushed, p);
    case ProcessPacketsEvent => PacketsAreSources(s, pushed);
    case TransmitDoneEvent(_, _, _, _, _, _) => TransmitFromPackets(s, e, pushed);
    case _ => if Cancels(e) { CancelMoves(s, e); }
  }

  lemma TransmitFromPackets(s: State, e: Event, pushed: seq<Packet>)
    requires Invariant(s) && FromPackets(s, pushed) && e.TransmitDoneEvent?
    ensures FromPackets(Step(s, e), pushed)
  {
    if e.i < |s.unanswered| {
      var t := s.(unanswered := s.unanswered[..e.i] + s.unanswered[e.i + 1..]);
      assert Invariant(t);
      ProcessKeeps(t);
      PacketsAreSources(t, pushed);
      var u := ProcessPackets(t);
      var v := u.(scheduler := Scheduler.Completed(u.scheduler, e.roundTrip, !e.ok));
      FinishRequestMoves(v, s.unanswered[e.i].request, e.ok, e.lookupOk, e.settleAt, e.now);
    }
  }

  lemma {:induction false} RunFromPackets(events: seq<Event>)
    ensures FromPackets(Run(INITIAL, events), Pushed(events))
    decreases |events|
  {
    if events != [] {
      var init := events[..|events| - 1];
      RunFromPackets(init);
      StepFromPackets(Run(INITIAL, init), events[|events| - 1], Pushed(init));
    }
  }

  /** However pushes and epoch changes interleave, every sample held after a run came in a packet
      that was pushed with the epoch the run ends in. */
  lemma EpochsAreIsolated(events: seq<Event>, k: nat)
    requires k < |Run(INITIAL, events).held|
    ensures var s := Run(INITIAL, events);
            exists i | 0 <= i < |Pushed(events)| ::
              Pushed(events)[i].epoch == s.epoch && Carries(Pushed(events)[i], s.held[k])
  {
    RunFromPackets(events);
    assert CameIn(Run(INITIAL, events).held[k], Pushed(events));
  }
}
