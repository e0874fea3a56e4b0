/** The engine service: each command, continuation and pass of the worker does its step of the model. */
module EngineService {
  import opened Wrappers
  import opened Telemetry
  import opened Sources
  import opened EngineModel
  import opened EngineSafety
  import Scheduler

  class EngineService {
    var epoch: nat
    var source: Option<Source>
    var boundEpoch: Option<nat>
    var connection: ConnectionState
    var config: Option<Config>
    var metadata: seq<EcuMetadata>
    var token: Option<Token>
    var operation: Option<Operation>
    var settleAt: Option<int>
    const scheduler: Scheduler.AdaptivePidScheduler
    var unanswered: seq<Transmit>
    var queue: seq<Packet>
    var held: seq<Held>
    var audits: seq<Audit>
    var answers: seq<Answer>
    var issued: nat
    var prepared: nat
    var started: seq<nat>
    const settlingDelay: int

    ghost function Model(): State
      reads this, scheduler
    {
      State(epoch, source, boundEpoch, connection, config, metadata, token, operation, settleAt, scheduler.Model(),
            unanswered, queue, held, audits, answers, issued, prepared, started)
    }

    /** The invariant of the engine holds between any two steps, and whenever a completion is called. */
    ghost predicate Valid()
      reads this, scheduler
    {
      Invariant(Model())
    }

    constructor (settlingDelay: int)
      ensures Valid() && Model() == INITIAL && fresh(scheduler) && this.settlingDelay == settlingDelay
    {
      epoch, source, boundEpoch, connection, config, metadata := 1, None, None, Disconnected, None, [];
      token, operation, settleAt, unanswered, queue, held := None, None, None, [], [], [];
      audits, answers, issued, prepared, started := [], [], 0, 0, [];
      scheduler := new Scheduler.AdaptivePidScheduler();
      this.settlingDelay := settlingDelay;
    }

    // -------------------------------------------------------------- completions and cancellation

    method Complete(ticket: nat, error: Option<Error>)
      requires Valid()
      modifies this`answers
      ensures Valid()
      ensures Model() == Answered(old(Model()), ticket, error)
    {
      AnswerKeeps(Model(), ticket, error);
      answers := answers + [Answer(ticket, error)];
    }

    method FinishClear(error: Option<Error>, now: int)
      requires operation.Some? && ReadyToFile(Model(), error)
      modifies this`audits, this`operation, this`settleAt, this`answers
      ensures Valid() && operation.None? && settleAt.None?
      ensures Model() == EngineModel.FinishClear(old(Model()), error, now)
    {
      FinishClearKeeps(Model(), error, now);
      if operation.None? || operation.value.audit.None? {
        return;
      }
      var op := operation.value;
      audits := audits + [op.audit.value.(completedAt := now, error := error)];
      operation := None;
      settleAt := None;
      Complete(op.ticket, error);
    }

    method CancelDiagnosticOperation(error: Error, now: int)
      requires Valid()
      modifies this`audits, this`operation, this`settleAt, this`answers
      ensures Valid() && operation.None? && settleAt.None?
      ensures Model() == CancelOperation(old(Model()), error, now)
    {
      CancelKeeps(Model(), error, now);
      if operation.None? {
        return;
      }
      var op := operation.value;
      if (op.kind == Clear || op.kind == PostClearScan) && op.audit.Some? {
        FinishClear(Some(error), now);
        return;
      }
      operation := None;
      Complete(op.ticket, Some(error));
    }

    // -------------------------------------------------------------- sources and epochs

    method BindSource()
      requires Valid()
      modifies this`boundEpoch, this`connection
      ensures Valid()
      ensures Model() == Bound(old(Model()))
    {
      if source.None? {
        return;
      }
      boundEpoch := Some(epoch);
      connection := source.value.state;
    }

    /** Everything that belonged to the old epoch is dropped. */
    method Renew()
      requires Valid() && token.None? && operation.None?
      modifies this, scheduler
      ensures Valid()
      ensures Model() == old(Model()).(settleAt := None, scheduler := Scheduler.INITIAL, epoch := old(epoch) + 1, queue := [], held := [])
    {
      settleAt := None;
      scheduler.Reset();
      epoch := epoch + 1;
      queue := [];
      held := [];
    }

    method InvalidateEpoch(now: int)
      requires Invariant(Model().(token := None))
      modifies this, scheduler
      ensures Valid() && MovesCompletions(old(Model()), Model())
      ensures operation.None? && token.None? && held == [] && queue == []
      ensures Model() == NewEpoch(old(Model()), now)
    {
      NewEpochMoves(Model(), now);
      token := None;
      CancelDiagnosticOperation(Cancelled, now);
      Renew();
      BindSource();
    }

    method SwapSource(next: Option<Source>, now: int)
      requires Valid()
      modifies this, scheduler
      ensures Valid()
      ensures Model() == EngineModel.SwapSource(old(Model()), next, now)
    {
      NewEpochKeeps(Model(), next, None, now);
      source := next;
      config := None;
      InvalidateEpoch(now);
    }

    /** A source still connected is disconnected first, and swapped when that has completed. */
    method SetSource(next: Option<Source>, now: int) returns (disconnecting: bool)
      requires Valid()
      modifies this, scheduler
      ensures Valid() && MovesCompletions(old(Model()), Model()) && started == old(started) && token.None?
      ensures Model() == EngineModel.SetSource(old(Model()), next, now)
      ensures disconnecting <==> old(source).Some? && old(source).value.state != Disconnected
    {
      CancelMoves(Model(), SetSourceEvent(next, now));
      DroppingToken(Model());
      token := None;
      if source.Some? && source.value.state != Disconnected {
        return true;
      }
      SwapSource(next, now);
      return false;
    }

    method Connect(c: Config) returns (ok: bool)
      requires Valid()
      modifies this
      ensures Valid()
      ensures Model() == EngineModel.Connect(old(Model()), c)
      ensures ok <==> old(source).Some? && old(source).value.sourceType == c.sourceType
    {
      StepKeeps(Model(), ConnectEvent(c));
      if source.None? || source.value.sourceType != c.sourceType {
        return false;
      }
      token := None;
      config := Some(c);
      return true;
    }

    method ConnectCompleted(ok: bool)
      requires Valid()
      modifies this
      ensures Valid()
      ensures Model() == Connected(old(Model()), ok)
    {
      StepKeeps(Model(), ConnectedEvent(ok));
      if ok {
        connection := Ready;
      }
    }

    method Disconnect(now: int)
      requires Valid()
      modifies this, scheduler
      ensures Valid() && MovesCompletions(old(Model()), Model()) && operation.None? && token.None?
      ensures Model() == EngineModel.Disconnect(old(Model()), now)
    {
      CancelMoves(Model(), DisconnectEvent(now));
      DroppingToken(Model());
      token := None;
      CancelDiagnosticOperation(Cancelled, now);
      scheduler.Reset();
    }

    method DisconnectCompleted(ok: bool)
      requires Valid()
      modifies this
      ensures Valid()
      ensures Model() == DisconnectDone(old(Model()), ok)
    {
      StepKeeps(Model(), DisconnectDoneEvent(ok));
      connection := if ok then Disconnected else Faulted;
    }

    method HandleSourceState(state: ConnectionState, error: Option<Error>, now: int)
      requires Valid()
      modifies this
      ensures Valid() && (Unavailable(state) ==> operation.None?) && (state != Ready ==> token.None?)
      ensures Model() == SourceChanged(old(Model()), state, error, now)
    {
      DroppingToken(Model());
      if state != Ready {
        token := None;
        if state == Faulted || state == Disconnected {
          CancelDiagnosticOperation(if error.Some? then error.value else Cancelled, now);
        }
      }
      connection := state;
    }

    /** The source changes its state on its own thread, before the worker hears of it. */
    method SourceMoves(state: ConnectionState)
      requires Valid()
      modifies this`source
      ensures Valid()
      ensures Model() == EngineModel.SourceMoves(old(Model()), state)
    {
      StepKeeps(Model(), SourceMovesEvent(state));
      if source.Some? {
        source := Some(source.value.(state := state));
      }
    }

    // -------------------------------------------------------------- starting operations

    method Enqueue(requests: seq<Request>)
      requires Valid()
      modifies scheduler
      ensures Valid()
      ensures Model() == Enqueued(old(Model()), requests)
    {
      EnqueuedKeeps(Model(), requests);
      for i := 0 to |requests|
        invariant scheduler.Model() == old(scheduler.Model()).(diagnostics := old(scheduler.diagnostics) + requests[..i])
      {
        scheduler.EnqueueDiagnostic(requests[i]);
        assert requests[..i + 1] == requests[..i] + [requests[i]];
      }
      assert requests[..|requests|] == requests;
    }

    /** A scan or an identification takes a ticket and starts unless another operation is active or
        the source is not ready. */
    method Begin(kind: Kind, outstanding: nat, requests: seq<Request>) returns (ok: bool)
      requires Valid() && outstanding > 0 && (kind == Scan || kind == Kind.Identify)
      modifies this, scheduler
      ensures Valid()
      ensures var t := old(Model()).(token := None, issued := old(issued) + 1);
              Model() == if t.operation.Some? then Answered(t, old(issued), Some(OperationInProgress))
                         else if !SourceReady(t) then Answered(t, old(issued), Some(InvalidState))
                         else Enqueued(t.(operation := Some(NewOperation(t, kind, outstanding, old(issued)))), requests)
      ensures ok <==> old(operation).None? && SourceReady(old(Model()))
    {
      var ticket := issued;
      issued := issued + 1;
      token := None;
      if operation.Some? {
        Complete(ticket, Some(OperationInProgress));
        return false;
      }
      if source.None? || source.value.state != Ready {
        Complete(ticket, Some(InvalidState));
        return false;
      }
      NewOperationKeeps(Model(), kind, outstanding, ticket);
      operation := Some(Operation(kind, epoch, outstanding, [], [], None, false, None, ticket, None));
      Enqueue(requests);
      return true;
    }

    method BeginScan() returns (ok: bool)
      requires Valid()
      modifies this, scheduler
      ensures Valid() && MovesCompletions(old(Model()), Model()) && token.None?
      ensures Model() == EngineModel.BeginScan(old(Model()))
    {
      BeginMoves(Model(), ScanEvent);
      ok := Begin(Scan, 2, [STORED_CODES, PENDING_CODES]);
    }

    method Identify() returns (ok: bool)
      requires Valid()
      modifies this, scheduler
      ensures Valid() && MovesCompletions(old(Model()), Model()) && token.None?
      ensures Model() == BeginIdentify(old(Model()))
    {
      BeginMoves(Model(), IdentifyEvent);
      ok := Begin(Kind.Identify, 3, IDENTIFICATION);
    }

    // -------------------------------------------------------------- clearing

    method CurrentVehicleIdentity() returns (vins: set<string>)
      ensures vins == Identity(metadata)
    {
      vins := {};
      for i := 0 to |metadata|
        invariant vins == Identity(metadata[..i])
      {
        if metadata[i].vin != "" {
          vins := vins + {metadata[i].vin};
        }
        IdentityOfNext(metadata, i);
      }
      assert metadata[..|metadata|] == metadata;
    }

    lemma IdentityOfNext(items: seq<EcuMetadata>, i: nat)
      requires i < |items|
      ensures Identity(items[..i + 1]) == Identity(items[..i]) + if items[i].vin == "" then {} else {items[i].vin}
    {
      assert items[..i + 1] == items[..i] + [items[i]];
    }

    method ValidateClearSafety(now: int) returns (error: Option<Error>)
      ensures error == SafetyError(Model(), now)
    {
      if source.None? || config.None? {
        return Some(InvalidState);
      }
      if source.value.sourceType != SerialElm327 && source.value.sourceType != SocketCan {
        return Some(SafetyRejected);
      }
      if source.value.state != Ready || connection != Ready {
        return Some(SafetyRejected);
      }
      if operation.Some? {
        return Some(OperationInProgress);
      }
      var speed := Latest(held, VEHICLE_SPEED);
      if speed.None? || speed.value.sample.quality != Quality.Valid {
        return Some(SafetyRejected);
      }
      var at := speed.value.sample.at;
      if at > now || now - at > StaleAfter(VEHICLE_SPEED) {
        return Some(SafetyRejected);
      }
      if speed.value.sample.value > 0.5 {
        return Some(SafetyRejected);
      }
      return None;
    }

    method PrepareClear(now: int) returns (error: Option<Error>)
      requires Valid()
      modifies this
      ensures Valid() && (token.Some? <==> Safe(old(Model()), now)) && (token.Some? <==> error.None?)
      ensures error.None? ==> token.value.id == old(prepared) && token.value.id !in started && AtRest(Model(), now)
      ensures Model() == EngineModel.PrepareClear(old(Model()), now)
      ensures error == SafetyError(old(Model()).(token := None), now)
    {
      PreparedIsFresh(Model(), now);
      SafeExactly(Model(), now);
      SafetyIgnoresTickets(Model(), now);
      PrepareKeeps(Model(), now);
      token := None;
      error := ValidateClearSafety(now);
      if error.Some? {
        return;
      }
      var identity := CurrentVehicleIdentity();
      token := Some(Token(prepared, now, now + TOKEN_LIFETIME, epoch, identity, source.value.sourceType, config.value));
      prepared := prepared + 1;
    }

    method StartClear(t: Token, ticket: nat, now: int)
      requires Valid() && token.None? && operation.None? && ticket < issued
      requires t.id < prepared && AscendingBelow(started, t.id)
      modifies this, scheduler
      ensures Valid()
      ensures Model() == BeginClear(old(Model()), t, ticket, now)
    {
      var audit := Audit(t.preparedAt, now, t.sourceType, epoch, t.identity, false, false, false, None);
      operation := Some(Operation(Clear, epoch, 1, [], [], None, false, None, ticket, Some(audit)));
      started := started + [t.id];
      assert started[..|started| - 1] == old(started);
      Enqueue([CLEAR_CODES]);
    }

    method ConfirmClear(id: nat, now: int)
      requires Valid()
      modifies this, scheduler
      ensures Valid() && MovesCompletions(old(Model()), Model())
      ensures var reply := answers[|old(answers)|..];
              && (reply == [Answer(old(issued), Some(TokenInvalid))] <==> old(token).None? || old(token).value.id != id)
              && (reply == [] <==> started == old(started) + [id])
      ensures started != old(started) ==> token.None? && Safe(old(Model()), now)
      ensures Model() == EngineModel.ConfirmClear(old(Model()), id, now)
    {
      ConfirmIsSafe(Model(), id, now);
      ConfirmMoves(Model(), id, now);
      ConfirmKeeps(Model(), id, now);
      var ticket := issued;
      issued := issued + 1;
      if token.None? || token.value.id != id {
        Complete(ticket, Some(TokenInvalid));
        return;
      }
      if now >= token.value.expiresAt {
        token := None;
        Complete(ticket, Some(TokenExpired));
        return;
      }
      var taken := token.value;
      token := None;
      var identity := CurrentVehicleIdentity();
      var bound := taken.epoch == epoch && source.Some? && config.Some? && taken.sourceType == source.value.sourceType
        && taken.config == config.value && taken.identity == identity;
      var error := Some(TokenInvalid);
      if bound {
        error := ValidateClearSafety(now);
      }
      if error.Some? {
        Complete(ticket, error);
        return;
      }
      StartClear(taken, ticket, now);
    }

    // -------------------------------------------------------------- packets

    /** Pushed from the source's thread; a full queue refuses the newest packet. */
    method TryPush(p: Packet) returns (accepted: bool)
      requires Valid()
      modifies this`queue
      ensures Valid()
      ensures Model() == Push(old(Model()), p)
      ensures accepted <==> |old(queue)| < QUEUE_CAPACITY
    {
      StepKeeps(Model(), PushEvent(p));
      accepted := |queue| < QUEUE_CAPACITY;
      if accepted {
        queue := queue + [p];
      }
    }

    method MergeMetadata(item: EcuMetadata)
      requires Valid() && operation.Some?
      modifies this`operation
      ensures Valid()
      ensures Model() == old(Model()).(operation := Some(Merged(old(operation).value, item)))
    {
      NotedKeeps(Model(), Identification(Some(item)));
      var op := operation.value;
      var k := 0;
      while k < |op.metadata| && op.metadata[k].ecu != item.ecu
        invariant 0 <= k <= |op.metadata|
        invariant IndexOf(op.metadata, item.ecu) == k + IndexOf(op.metadata[k..], item.ecu)
      {
        assert op.metadata[k..][1..] == op.metadata[k + 1..];
        k := k + 1;
      }
      if k == |op.metadata| {
        operation := Some(op.(metadata := op.metadata + [item]));
      } else if item.vin != "" {
        if op.metadata[k].vin != "" && op.metadata[k].vin != item.vin {
          operation := Some(Remembered(op, MalformedResponse));
        } else {
          operation := Some(op.(metadata := op.metadata[k := op.metadata[k].(vin := item.vin)]));
        }
      }
    }

    method HandleDiagnosticMessage(m: Message)
      requires Valid()
      modifies this`operation
      ensures Valid()
      ensures Model() == if old(operation).None? || old(operation).value.epoch != epoch then old(Model())
                         else old(Model()).(operation := Some(Noted(old(operation).value, m)))
    {
      if operation.None? || operation.value.epoch != epoch {
        return;
      }
      NotedKeeps(Model(), m);
      var op := operation.value;
      match m {
        case NegativeReply(service) =>
          if op.kind == Clear && service == Some(0x04) {
            operation := Some(op.(error := Some(NegativeResponse)));
          }
        case Codes(codes) =>
          if codes.None? {
            operation := Some(Remembered(op, MalformedResponse));
          } else {
            operation := Some(op.(codes := op.codes + codes.value));
          }
        case FreezeFrame(decodes) =>
          if op.freezeFrameCode.Some? && !decodes {
            operation := Some(Remembered(op, MalformedResponse));
          }
        case Identification(item) =>
          if item.None? {
            operation := Some(Remembered(op, MalformedResponse));
          } else {
            MergeMetadata(item.value);
          }
        case ClearReply(wellFormed) =>
          if op.kind == Clear {
            if wellFormed {
              operation := Some(op.(positiveReply := true));
            } else {
              operation := Some(Remembered(op, MalformedResponse));
            }
          }
        case _ =>
      }
    }

    method Ingest(packetEpoch: nat, samples: seq<Sample>)
      requires Valid() && packetEpoch == epoch
      modifies this`held
      ensures Valid()
      ensures Model() == old(Model()).(held := old(held) + Tagged(packetEpoch, samples))
    {
      for i := 0 to |samples|
        invariant held + Tagged(packetEpoch, samples[i..]) == old(held) + Tagged(packetEpoch, samples)
      {
        assert samples[i..][1..] == samples[i + 1..];
        held := held + [Held(packetEpoch, samples[i])];
      }
      assert held + [] == held;
      TaggedEpoch(packetEpoch, samples);
    }

    method HandlePacket(p: Packet)
      requires Valid()
      modifies this`operation, this`held
      ensures Valid()
      ensures Model() == EngineModel.HandlePacket(old(Model()), p)
    {
      if p.epoch != epoch {
        return;
      }
      HandleDiagnosticMessage(p.message);
      if p.message.LiveData? && p.message.samples.Some? {
        Ingest(p.epoch, p.message.samples.value);
      }
    }

    method ProcessPackets()
      requires Valid()
      modifies this`queue, this`operation, this`held
      ensures Valid() && queue == [] && OnlyNoted(old(Model()), Model())
      ensures Model() == EngineModel.ProcessPackets(old(Model()))
    {
      PacketsKeep(Model());
      ProcessKeeps(Model());
      while queue != []
        invariant Valid()
        invariant EngineModel.ProcessPackets(Model()) == EngineModel.ProcessPackets(old(Model()))
        decreases |queue|
      {
        ghost var before := Model();
        var packet := queue[0];
        queue := queue[1..];
        HandlePacket(packet);
        assert Model() == EngineModel.HandlePacket(before.(queue := before.queue[1..]), before.queue[0]);
      }
    }

    // -------------------------------------------------------------- requests

    method DispatchScheduler(now: int)
      requires Valid()
      modifies this, scheduler
      ensures Valid()
      ensures Model() == Dispatch(old(Model()), now)
    {
      DispatchKeeps(Model(), now);
      if source.None? || source.value.state != Ready {
        return;
      }
      var request := scheduler.Next(now);
      if request.None? {
        return;
      }
      unanswered := unanswered + [Transmit(epoch, request.value)];
    }

    method FinishScan(lookupOk: bool, now: int)
      requires Sound(Model()) && settleAt.None?
      requires operation.Some? && (operation.value.kind == Scan || operation.value.kind == PostClearScan)
      modifies this
      ensures Valid()
      ensures Model() == EngineModel.FinishScan(old(Model()), lookupOk, now)
    {
      var op := if lookupOk then operation.value else Remembered(operation.value, LookupFailed);
      if op.kind == PostClearScan {
        if op.audit.Some? {
          op := op.(audit := Some(op.audit.value.(rescanned := true)));
        }
        operation := Some(op);
        FinishClear(op.error, now);
        return;
      }
      operation := None;
      Complete(op.ticket, op.error);
    }

    method FinishIdentification()
      requires Sound(Model()) && settleAt.None? && operation.Some? && operation.value.kind == Kind.Identify
      modifies this
      ensures Valid()
      ensures Model() == EngineModel.FinishIdentification(old(Model()))
    {
      var op := operation.value;
      metadata := op.metadata;
      operation := None;
      Complete(op.ticket, if op.metadata == [] then op.error else None);
    }

    /** Between the count and what follows from it an operation may wait for nothing. */
    method CountRequest(ok: bool)
      requires Valid() && operation.Some?
      modifies this`operation
      ensures Sound(Model()) && operation.Some?
      ensures operation.value.kind == Clear && operation.value.error.None? ==> operation.value.audit.value.transmitted
      ensures Model() == old(Model()).(operation := Some(Counted(old(operation).value, ok)))
    {
      CountedKeeps(Model(), ok);
      var op := operation.value;
      if !ok && op.error.None? {
        op := op.(error := Some(TransmitFailed));
      }
      if op.kind == Clear && ok && op.audit.Some? {
        op := op.(audit := Some(op.audit.value.(transmitted := true)));
      }
      if op.outstanding > 0 {
        op := op.(outstanding := op.outstanding - 1);
      }
      operation := Some(op);
    }

    method FinishClearRequest(now: int)
      requires Sound(Model()) && operation.Some? && operation.value.kind == Clear && operation.value.outstanding == 0
      requires operation.value.error.None? ==> operation.value.audit.value.transmitted
      modifies this
      ensures Valid()
      ensures Model() == ClearCompleted(old(Model()), now + settlingDelay, now)
    {
      ClearCompletedKeeps(Model(), now + settlingDelay, now);
      var op := operation.value;
      if op.error.Some? {
        FinishClear(op.error, now);
      } else if !op.positiveReply {
        FinishClear(Some(MalformedResponse), now);
      } else {
        if op.audit.Some? {
          operation := Some(op.(audit := Some(op.audit.value.(positive := true))));
        }
        settleAt := Some(now + settlingDelay);
      }
    }

    method FinishDiagnosticRequest(r: Request, ok: bool, lookupOk: bool, now: int)
      requires Valid()
      modifies this, scheduler
      ensures Valid()
      ensures Model() == FinishRequest(old(Model()), r, ok, lookupOk, now + settlingDelay, now)
    {
      if operation.None? || operation.value.epoch != epoch || !Belongs(operation.value.kind, r) {
        return;
      }
      CountRequest(ok);
      var op := operation.value;
      if op.outstanding != 0 {
        return;
      }
      if op.kind == Clear {
        FinishClearRequest(now);
        return;
      }
      if op.kind == Scan || op.kind == PostClearScan {
        if op.freezeFrameCode.None? && op.codes != [] {
          operation := Some(op.(freezeFrameCode := Some(op.codes[0]), outstanding := 1));
          Enqueue([FREEZE_FRAME]);
          return;
        }
        FinishScan(lookupOk, now);
        return;
      }
      FinishIdentification();
    }

    /** An answer of this epoch: the packets that came before it are processed first. */
    method AcceptAnswer(r: Request, ok: bool, roundTrip: int, lookupOk: bool, now: int)
      requires Valid()
      modifies this, scheduler
      ensures Valid()
      ensures var u := EngineModel.ProcessPackets(old(Model()));
              Model() == FinishRequest(u.(scheduler := Scheduler.Completed(u.scheduler, roundTrip, !ok)), r, ok, lookupOk, now + settlingDelay, now)
    {
      ProcessPackets();
      scheduler.Complete(roundTrip, !ok);
      FinishDiagnosticRequest(r, ok, lookupOk, now);
    }

    method Forget(i: nat)
      requires Valid() && i < |unanswered|
      modifies this`unanswered
      ensures Valid()
      ensures Model() == old(Model()).(unanswered := old(unanswered)[..i] + old(unanswered)[i + 1..])
    {
      unanswered := unanswered[..i] + unanswered[i + 1..];
    }

    /** The continuation of the unanswered transmit `i`. */
    method TransmitCompleted(i: nat, ok: bool, roundTrip: int, lookupOk: bool, now: int)
      requires Valid() && i < |unanswered|
      modifies this, scheduler
      ensures Valid() && MovesCompletions(old(Model()), Model()) && started == old(started)
      ensures Model() == TransmitDone(old(Model()), i, ok, roundTrip, lookupOk, now + settlingDelay, now)
    {
      var done := unanswered[i];
      Forget(i);
      if done.epoch == epoch {
        AcceptAnswer(done.request, ok, roundTrip, lookupOk, now);
      }
      TransmitMoves(old(Model()), TransmitDoneEvent(i, ok, roundTrip, lookupOk, now + settlingDelay, now));
    }

    method SettleAfterClear(now: int)
      requires Valid()
      modifies this, scheduler
      ensures Valid()
      ensures Model() == Settle(old(Model()), now)
    {
      SettleKeeps(Model(), now);
      if settleAt.None? || now < settleAt.value {
        return;
      }
      settleAt := None;
      if operation.Some? && operation.value.kind == Clear {
        operation := Some(operation.value.(kind := PostClearScan, outstanding := 2, codes := []));
        Enqueue([STORED_CODES, PENDING_CODES]);
      }
    }

    method SetSupportedPids(pids: seq<Byte>)
      requires Valid()
      modifies scheduler
      ensures Valid()
      ensures Model() == Listed(old(Model()), pids)
    {
      StepKeeps(Model(), SupportedPidsEvent(pids));
      scheduler.SetSupportedPids(pids);
    }
  }
}
