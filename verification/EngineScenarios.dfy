/** Runs of the engine that show what clearing can come to. */
module EngineScenarios {
  import opened Wrappers
  import opened Telemetry
  import opened Sources
  import opened EngineModel
  import Scheduler

  // ---------------------------------------------------------------- a clear confirmed

  const SERIAL: Config := Config(SerialElm327, "")
  const STANDING: Sample := Sample(VEHICLE_SPEED, 0.0, Quality.Valid, 0)

  /** Ready to clear: nothing active, the source ready and the vehicle standing. */
  predicate Standing(s: State) {
    && s.source == Some(Source(SerialElm327, Ready)) && s.connection == Ready && s.config == Some(SERIAL)
    && s.operation.None? && s.token.None? && s.settleAt.None? && s.held == [Held(s.epoch, STANDING)] && s.queue == []
    && Scheduler.WellFormed(s.scheduler)
  }

  function Confirmed(s: State): State {
    ConfirmClear(PrepareClear(s, 0), s.prepared, 0)
  }

  function ClearOperation(epoch: nat, ticket: nat): Operation {
    Operation(Clear, epoch, 1, [], [], None, false, None, ticket,
              Some(Audit(0, 0, SerialElm327, epoch, {}, false, false, false, None)))
  }

  lemma ConfirmedWaits(s: State)
    requires Standing(s) && Identity(s.metadata) == {}
    ensures Confirmed(s) == s.(
              issued := s.issued + 1, prepared := s.prepared + 1, started := s.started + [s.prepared],
              operation := Some(ClearOperation(s.epoch, s.issued)),
              scheduler := s.scheduler.(diagnostics := s.scheduler.diagnostics + [CLEAR_CODES]))
  {
    assert Latest(s.held, VEHICLE_SPEED) == Some(Held(s.epoch, STANDING));
    assert Stationary(Held(s.epoch, STANDING), 0);
    var prepared := PrepareClear(s, 0);
    assert prepared.token.Some? && prepared.token.value.id == s.prepared;
    var u := prepared.(issued := s.issued + 1, token := None);
    assert Binds(u, prepared.token.value) && SafetyError(u, 0).None?;
  }

  /** A source connected and the vehicle seen at rest. */
  function Arrived(): State {
    var ready := Connect(SwapSource(INITIAL, Some(Source(SerialElm327, Ready)), 0), SERIAL);
    ProcessPackets(Push(ready, Packet(2, LiveData(Some([STANDING])))))
  }

  function ConfirmedClear(): (s: State)
    ensures Scheduler.WellFormed(s.scheduler)
  {
    ArrivedStands();
    ConfirmedWaits(Arrived());
    Confirmed(Arrived())
  }

  lemma ArrivedStands()
    ensures var s := Arrived();
            && Standing(s) && s.epoch == 2 && Identity(s.metadata) == {} && s.unanswered == []
            && s.scheduler == Scheduler.INITIAL && s.audits == [] && s.issued == s.prepared == 0
  {
    var ready := Connect(SwapSource(INITIAL, Some(Source(SerialElm327, Ready)), 0), SERIAL);
    var p := Packet(2, LiveData(Some([STANDING])));
    var pushed := Push(ready, p);
    assert ready.epoch == 2 && ready.queue == [] && pushed.queue == [p];
    var handled := HandlePacket(pushed.(queue := pushed.queue[1..]), p);
    assert handled.held == [] + Tagged(2, [STANDING]) == [Held(2, STANDING)];
    assert handled.queue == [] && ProcessPackets(handled) == handled;
    assert ProcessPackets(pushed) == ProcessPackets(handled);
  }

  // ---------------------------------------------------------------- a fault before the request is out

  /** The source fails and comes back, in the same epoch. */
  function Recovered(s: State): State {
    var faulted := SourceChanged(SourceMoves(s, Faulted), Faulted, None, 0);
    SourceChanged(SourceMoves(faulted, Ready), Ready, None, 0)
  }

  lemma RecoveredStands(s: State, ticket: nat)
    requires s.source == Some(Source(SerialElm327, Ready)) && s.config == Some(SERIAL) && s.token.None?
    requires s.operation == Some(ClearOperation(s.epoch, ticket))
    requires s.held == [Held(s.epoch, STANDING)] && s.queue == [] && Scheduler.WellFormed(s.scheduler)
    ensures var t := Recovered(s);
            && Standing(t) && t.epoch == s.epoch && t.scheduler == s.scheduler && t.unanswered == s.unanswered
            && t.metadata == s.metadata && t.issued == s.issued && t.prepared == s.prepared
            && |t.audits| == |s.audits| + 1 && !t.audits[|s.audits|].transmitted && t.audits[|s.audits|].error.Some?
  {
  }

  /** A fault before the request is out audits the clear as failed and not transmitted, but leaves the
      request queued: it goes out, with no clear active, as soon as the source is ready again. */
  lemma FaultLeavesClearQueued()
    ensures var again := Recovered(ConfirmedClear());
            && Scheduler.WellFormed(again.scheduler)
            && again.operation.None? && |again.audits| == 1 && !again.audits[0].transmitted && again.audits[0].error.Some?
            && Dispatch(again, 0).unanswered == again.unanswered + [Transmit(again.epoch, CLEAR_CODES)]
  {
    ArrivedStands();
    ConfirmedWaits(Arrived());
    RecoveredStands(ConfirmedClear(), 0);
    assert [] + [CLEAR_CODES] == [CLEAR_CODES];
  }

  // ---------------------------------------------------------------- a fault after the request is out

  /** The request of a first clear is out when the source fails and recovers; then a second clear is
      confirmed. */
  function SecondClear(): State {
    Confirmed(Recovered(Dispatch(ConfirmedClear(), 0)))
  }

  lemma SecondClearWaits()
    ensures var s := SecondClear();
            && s.operation == Some(ClearOperation(2, 1)) && s.epoch == 2 && s.settleAt.None? && s.queue == []
            && s.unanswered == [Transmit(2, CLEAR_CODES)] && s.scheduler.diagnostics == [CLEAR_CODES]
  {
    ArrivedStands();
    ConfirmedWaits(Arrived());
    var first := ConfirmedClear();
    assert [] + [CLEAR_CODES] == [CLEAR_CODES] && [CLEAR_CODES][1..] == [];
    var sent := Dispatch(first, 0);
    assert sent.unanswered == [Transmit(2, CLEAR_CODES)] && sent.scheduler.diagnostics == [];
    RecoveredStands(sent, 0);
    ConfirmedWaits(Recovered(sent));
  }

  lemma ReplyIsNoted(s: State, op: Operation)
    requires s.operation == Some(op) && op.kind == Clear && op.epoch == s.epoch
    requires s.queue == [Packet(s.epoch, ClearReply(true))]
    ensures ProcessPackets(s) == s.(queue := [], operation := Some(op.(positiveReply := true)))
  {
    var handled := HandlePacket(s.(queue := s.queue[1..]), s.queue[0]);
    assert handled.queue == [] && ProcessPackets(s) == ProcessPackets(handled) == handled;
  }

  /** The answer to the first clear's request marks the second clear transmitted and positive and lets
      it settle, while the second clear's own request is still queued and nothing is unanswered. */
  lemma OldAnswerMarksNewAudit()
    ensures var s := SecondClear();
            var t := TransmitDone(Push(s, Packet(2, ClearReply(true))), 0, true, 1, true, 5, 0);
            && t.settleAt == Some(5) && t.operation.Some? && t.operation.value.ticket == 1
            && t.operation.value.audit.Some? && t.operation.value.audit.value.transmitted && t.operation.value.audit.value.positive
            && t.scheduler.diagnostics == [CLEAR_CODES] && t.unanswered == []
  {
    SecondClearWaits();
    var s := SecondClear();
    var pushed := Push(s, Packet(2, ClearReply(true)));
    assert pushed.unanswered[..0] + pushed.unanswered[1..] == [];
    ReplyIsNoted(pushed.(unanswered := []), ClearOperation(2, 1));
  }

  // ---------------------------------------------------------------- a clear that succeeds

  /** The active operation has one request of its own queued and nothing else is under way. */
  predicate OneQueued(s: State, kind: Kind, requests: seq<Request>) {
    && s.operation.Some? && s.operation.value.kind == kind && s.operation.value.epoch == s.epoch
    && s.operation.value.error.None? && s.operation.value.codes == [] && s.operation.value.audit.Some?
    && s.operation.value.outstanding == |requests| && s.scheduler.diagnostics == requests
    && !s.scheduler.inFlight && SourceReady(s) && s.unanswered == [] && s.queue == []
    && Scheduler.WellFormed(s.scheduler)
  }

  /** Sends the next request and has it answered well, after `reply` if there is one. */
  function Exchanged(s: State, reply: seq<Packet>, settleAt: int, now: int): State
    requires Scheduler.WellFormed(s.scheduler)
  {
    var sent := Dispatch(s, now);
    TransmitDone(sent.(queue := reply), 0, true, 1, true, settleAt, now)
  }

  lemma ConfirmedClearWaits()
    ensures OneQueued(ConfirmedClear(), Clear, [CLEAR_CODES])
  {
    ArrivedStands();
    ConfirmedWaits(Arrived());
    assert [] + [CLEAR_CODES] == [CLEAR_CODES];
  }

  lemma ClearIsAccepted(s: State, now: int)
    requires OneQueued(s, Clear, [CLEAR_CODES])
    ensures var t := Exchanged(s, [Packet(s.epoch, ClearReply(true))], now, now);
            && t.settleAt == Some(now) && t.audits == s.audits && t.operation.Some? && t.operation.value.ticket == s.operation.value.ticket
            && OneQueued(Settle(t, now), PostClearScan, [STORED_CODES, PENDING_CODES])
            && Settle(t, now).audits == s.audits
  {
    var reply := Packet(s.epoch, ClearReply(true));
    var sent := Dispatch(s, now).(queue := [reply]);
    assert [CLEAR_CODES][1..] == [];
    assert sent.unanswered == [Transmit(s.epoch, CLEAR_CODES)];
    assert sent.unanswered[..0] + sent.unanswered[1..] == [];
    ReplyIsNoted(sent.(unanswered := []), s.operation.value);
    assert [] + [STORED_CODES, PENDING_CODES] == [STORED_CODES, PENDING_CODES];
  }

  lemma CodesAreRead(s: State, now: int)
    requires OneQueued(s, PostClearScan, [STORED_CODES, PENDING_CODES])
    ensures var t := Exchanged(Exchanged(s, [], now, now), [], now, now);
            t.audits == s.audits + [s.operation.value.audit.value.(rescanned := true, completedAt := now, error := None)]
  {
    ReadOne(s, STORED_CODES, [PENDING_CODES], now);
    var t := Exchanged(s, [], now, now);
    var sent := Dispatch(t, now);
    assert [PENDING_CODES][1..] == [];
    assert sent.unanswered == [Transmit(t.epoch, PENDING_CODES)];
    assert sent.unanswered[..0] + sent.unanswered[1..] == [];
  }

  lemma ReadOne(s: State, r: Request, rest: seq<Request>, now: int)
    requires OneQueued(s, PostClearScan, [r] + rest) && rest != [] && Belongs(PostClearScan, r)
    ensures var t := Exchanged(s, [], now, now);
            OneQueued(t, PostClearScan, rest) && t.audits == s.audits && t.operation.value.audit == s.operation.value.audit
  {
    var sent := Dispatch(s, now);
    assert ([r] + rest)[1..] == rest && ([r] + rest)[0] == r;
    assert sent.unanswered == [Transmit(s.epoch, r)];
    assert sent.unanswered[..0] + sent.unanswered[1..] == [];
  }

  /** Right after its confirmation a clear waits alone, and if the vehicle acknowledges its request and
      then answers both code requests it is audited without an error. */
  lemma ClearCanSucceed(now: int)
    ensures var s := ConfirmedClear();
            && OneQueued(s, Clear, [CLEAR_CODES])
            && (var scanning := Settle(Exchanged(s, [Packet(s.epoch, ClearReply(true))], now, now), now);
                && OneQueued(scanning, PostClearScan, [STORED_CODES, PENDING_CODES])
                && (var t := Exchanged(Exchanged(scanning, [], now, now), [], now, now);
                    && |t.audits| == |s.audits| + 1
                    && t.audits[|s.audits|].error.None? && t.audits[|s.audits|].rescanned))
  {
    ConfirmedClearWaits();
    ClearIsAccepted(ConfirmedClear(), now);
    CodesAreRead(Settle(Exchanged(ConfirmedClear(), [Packet(ConfirmedClear().epoch, ClearReply(true))], now, now), now), now);
  }
}
