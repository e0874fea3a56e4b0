/** The engine worker as a state machine: commands, packets, completions, source states and settling. */
module EngineModel {
  import opened Wrappers
  import opened Telemetry
  import opened Sources
  import Scheduler

  type Request = Scheduler.Request

  const QUEUE_CAPACITY: nat := 1024
  const TOKEN_LIFETIME: int := 30 * NS_PER_SECOND

  datatype Error =
    | Cancelled | InvalidState | OperationInProgress | TokenInvalid | TokenExpired | SafetyRejected
    | NegativeResponse | MalformedResponse | TransmitFailed | SourceFailed | LookupFailed

  datatype EcuMetadata = EcuMetadata(ecu: Option<EcuAddress>, vin: string)

  datatype Source = Source(sourceType: SourceType, state: ConnectionState)

  /** What a message means once its payload is decoded; None stands for a payload that does not decode. */
  datatype Message =
    | NegativeReply(service: Option<Byte>)
    | Codes(codes: Option<seq<nat>>)
    | FreezeFrame(decodes: bool)
    | Identification(item: Option<EcuMetadata>)
    | ClearReply(wellFormed: bool)
    | LiveData(samples: Option<seq<Sample>>)
    | OtherMessage

  /** A message as the source pushed it, with the epoch its subscription was bound to. */
  datatype Packet = Packet(epoch: nat, message: Message)

  /** A sample in the telemetry store, aggregator and evaluator, with the epoch of its packet. */
  datatype Held = Held(epoch: nat, sample: Sample)

  datatype Transmit = Transmit(epoch: nat, request: Request)

  /** A call of a scan, identify or clear completion; the tickets number these commands. */
  datatype Answer = Answer(ticket: nat, error: Option<Error>)

  datatype Audit = Audit(
    preparedAt: int, completedAt: int, sourceType: SourceType, epoch: nat, identity: set<string>,
    transmitted: bool, positive: bool, rescanned: bool, error: Option<Error>)

  datatype Kind = Scan | Identify | Clear | PostClearScan

  datatype Operation = Operation(
    kind: Kind, epoch: nat, outstanding: nat, codes: seq<nat>, metadata: seq<EcuMetadata>,
    freezeFrameCode: Option<nat>, positiveReply: bool, error: Option<Error>, ticket: nat, audit: Option<Audit>)

  datatype Token = Token(
    id: nat, preparedAt: int, expiresAt: int, epoch: nat, identity: set<string>, sourceType: SourceType, config: Config)

  /** `issued` counts the tickets and `prepared` the tokens; `started` lists the tokens that began a clear. */
  datatype State = State(
    epoch: nat,
    source: Option<Source>,
    boundEpoch: Option<nat>,
    connection: ConnectionState,
    config: Option<Config>,
    metadata: seq<EcuMetadata>,
    token: Option<Token>,
    operation: Option<Operation>,
    settleAt: Option<int>,
    scheduler: Scheduler.State,
    unanswered: seq<Transmit>,
    queue: seq<Packet>,
    held: seq<Held>,
    audits: seq<Audit>,
    answers: seq<Answer>,
    issued: nat,
    prepared: nat,
    started: seq<nat>)

  const INITIAL: State := State(
    1, None, None, Disconnected, None, [], None, None, None, Scheduler.INITIAL, [], [], [], [], [], 0, 0, [])

  // ---------------------------------------------------------------- completions and cancellation

  function Answered(s: State, ticket: nat, error: Option<Error>): State {
    s.(answers := s.answers + [Answer(ticket, error)])
  }

  function FinishClear(s: State, error: Option<Error>, now: int): State {
    if s.operation.None? || s.operation.value.audit.None? then s
    else
      var op := s.operation.value;
      Answered(
        s.(audits := s.audits + [op.audit.value.(completedAt := now, error := error)], operation := None, settleAt := None),
        op.ticket, error)
  }

  predicate IsClear(op: Operation) {
    op.kind == Clear || op.kind == PostClearScan
  }

  function CancelOperation(s: State, error: Error, now: int): State {
    if s.operation.None? then s
    else if IsClear(s.operation.value) && s.operation.value.audit.Some? then FinishClear(s, Some(error), now)
    else Answered(s.(operation := None), s.operation.value.ticket, Some(error))
  }

  // ---------------------------------------------------------------- sources and epochs

  function Bound(s: State): State {
    if s.source.None? then s
    else s.(boundEpoch := Some(s.epoch), connection := s.source.value.state)
  }

  function NewEpoch(s: State, now: int): State {
    var t := CancelOperation(s.(token := None), Cancelled, now);
    Bound(t.(settleAt := None, scheduler := Scheduler.INITIAL, epoch := t.epoch + 1, queue := [], held := []))
  }

  function SwapSource(s: State, source: Option<Source>, now: int): State {
    NewEpoch(s.(source := source, config := None), now)
  }

  /** A source that is not disconnected is disconnected first; the swap follows when that completes. */
  function SetSource(s: State, source: Option<Source>, now: int): State {
    var t := s.(token := None);
    if t.source.Some? && t.source.value.state != Disconnected then t else SwapSource(t, source, now)
  }

  function Connect(s: State, config: Config): State {
    if s.source.None? || s.source.value.sourceType != config.sourceType then s
    else s.(token := None, config := Some(config))
  }

  function Connected(s: State, ok: bool): State {
    if ok then s.(connection := Ready) else s
  }

  function Disconnect(s: State, now: int): State {
    CancelOperation(s.(token := None), Cancelled, now).(scheduler := Scheduler.INITIAL)
  }

  function DisconnectDone(s: State, ok: bool): State {
    s.(connection := if ok then Disconnected else Faulted)
  }

  predicate Unavailable(state: ConnectionState) {
    state == Faulted || state == Disconnected
  }

  function SourceChanged(s: State, state: ConnectionState, error: Option<Error>, now: int): State {
    var t := if state != Ready then s.(token := None) else s;
    var u := if Unavailable(state) then CancelOperation(t, if error.Some? then error.value else Cancelled, now) else t;
    u.(connection := state)
  }

  // ---------------------------------------------------------------- starting operations

  predicate SourceReady(s: State) {
    s.source.Some? && s.source.value.state == Ready
  }

  function Enqueued(s: State, requests: seq<Request>): State {
    s.(scheduler := s.scheduler.(diagnostics := s.scheduler.diagnostics + requests))
  }

  const STORED_CODES: Request := Scheduler.Request(0x03, 0)
  const FREEZE_FRAME: Request := Scheduler.Request(0x02, 0x0C)
  const CLEAR_CODES: Request := Scheduler.Request(0x04, 0)
  const PENDING_CODES: Request := Scheduler.Request(0x07, 0)
  const IDENTIFICATION: seq<Request> := [Scheduler.Request(0x09, 2), Scheduler.Request(0x09, 4), Scheduler.Request(0x09, 6)]

  function NewOperation(s: State, kind: Kind, outstanding: nat, ticket: nat): Operation {
    Operation(kind, s.epoch, outstanding, [], [], None, false, None, ticket, None)
  }

  function BeginScan(s: State): State {
    var t := s.(token := None, issued := s.issued + 1);
    if t.operation.Some? then Answered(t, s.issued, Some(OperationInProgress))
    else if !SourceReady(t) then Answered(t, s.issued, Some(InvalidState))
    else Enqueued(t.(operation := Some(NewOperation(t, Scan, 2, s.issued))), [STORED_CODES, PENDING_CODES])
  }

  function BeginIdentify(s: State): State {
    var t := s.(token := None, issued := s.issued + 1);
    if t.operation.Some? then Answered(t, s.issued, Some(OperationInProgress))
    else if !SourceReady(t) then Answered(t, s.issued, Some(InvalidState))
    else Enqueued(t.(operation := Some(NewOperation(t, Identify, 3, s.issued))), IDENTIFICATION)
  }

  // ---------------------------------------------------------------- clearing

  /** The distinct VINs of the vehicle's ECUs; none of them if the vehicle is unknown. */
  function Identity(metadata: seq<EcuMetadata>): set<string> {
    set m | m in metadata && m.vin != "" :: m.vin
  }

  function Latest(held: seq<Held>, metric: nat): Option<Held> {
    if held == [] then None
    else if held[|held| - 1].sample.metric == metric then Some(held[|held| - 1])
    else Latest(held[..|held| - 1], metric)
  }

  predicate Stationary(h: Held, now: int) {
    && h.sample.quality == Valid
    && h.sample.at <= now <= h.sample.at + StaleAfter(VEHICLE_SPEED)
    && h.sample.value <= 0.5
  }

  function SafetyError(s: State, now: int): Option<Error> {
    if s.source.None? || s.config.None? then Some(InvalidState)
    else if s.source.value.sourceType != SerialElm327 && s.source.value.sourceType != SocketCan then Some(SafetyRejected)
    else if s.source.value.state != Ready || s.connection != Ready then Some(SafetyRejected)
    else if s.operation.Some? then Some(OperationInProgress)
    else
      var speed := Latest(s.held, VEHICLE_SPEED);
      if speed.None? || !Stationary(speed.value, now) then Some(SafetyRejected) else None
  }

  function PrepareClear(s: State, now: int): State {
    var t := s.(token := None);
    if SafetyError(t, now).Some? then t
    else t.(
      prepared := t.prepared + 1,
      token := Some(Token(t.prepared, now, now + TOKEN_LIFETIME, t.epoch, Identity(t.metadata),
                          t.source.value.sourceType, t.config.value)))
  }

  /** Everything a token was prepared for is still as it was. */
  predicate Binds(s: State, token: Token) {
    && token.epoch == s.epoch && s.source.Some? && s.config.Some?
    && token.sourceType == s.source.value.sourceType
    && token.config == s.config.value
    && token.identity == Identity(s.metadata)
  }

  function BeginClear(s: State, token: Token, ticket: nat, now: int): State {
    var audit := Audit(token.preparedAt, now, token.sourceType, s.epoch, token.identity, false, false, false, None);
    Enqueued(
      s.(operation := Some(NewOperation(s, Clear, 1, ticket).(audit := Some(audit))), started := s.started + [token.id]),
      [CLEAR_CODES])
  }

  function ConfirmClear(s: State, id: nat, now: int): State {
    var t := s.(issued := s.issued + 1);
    if t.token.None? || t.token.value.id != id then Answered(t, s.issued, Some(TokenInvalid))
    else if now >= t.token.value.expiresAt then Answered(t.(token := None), s.issued, Some(TokenExpired))
    else
      var u := t.(token := None);
      if !Binds(u, t.token.value) then Answered(u, s.issued, Some(TokenInvalid))
      else if SafetyError(u, now).Some? then Answered(u, s.issued, SafetyError(u, now))
      else BeginClear(u, t.token.value, s.issued, now)
  }

  // ---------------------------------------------------------------- packets

  function Remembered(op: Operation, error: Error): Operation {
    if op.error.None? then op.(error := Some(error)) else op
  }

  function IndexOf(metadata: seq<EcuMetadata>, ecu: Option<EcuAddress>): (k: nat)
    ensures k <= |metadata|
  {
    if metadata == [] || metadata[0].ecu == ecu then 0 else 1 + IndexOf(metadata[1..], ecu)
  }

  /** The first entry of the same ECU takes the VIN, unless it has another one. */
  function Merged(op: Operation, item: EcuMetadata): Operation {
    var k := IndexOf(op.metadata, item.ecu);
    if k == |op.metadata| then op.(metadata := op.metadata + [item])
    else if item.vin == "" then op
    else if op.metadata[k].vin != "" && op.metadata[k].vin != item.vin then Remembered(op, MalformedResponse)
    else op.(metadata := op.metadata[k := op.metadata[k].(vin := item.vin)])
  }

  function Noted(op: Operation, m: Message): Operation {
    match m
    case NegativeReply(service) =>
      if op.kind == Clear && service == Some(0x04) then op.(error := Some(NegativeResponse)) else op
    case Codes(codes) =>
      if codes.None? then Remembered(op, MalformedResponse) else op.(codes := op.codes + codes.value)
    case FreezeFrame(decodes) =>
      if op.freezeFrameCode.Some? && !decodes then Remembered(op, MalformedResponse) else op
    case Identification(item) =>
      if item.None? then Remembered(op, MalformedResponse) else Merged(op, item.value)
    case ClearReply(wellFormed) =>
      if op.kind != Clear then op
      else if wellFormed then op.(positiveReply := true)
      else Remembered(op, MalformedResponse)
    case _ => op
  }

  function Tagged(epoch: nat, samples: seq<Sample>): seq<Held> {
    if samples == [] then [] else [Held(epoch, samples[0])] + Tagged(epoch, samples[1..])
  }

  /** A packet of another epoch is dropped. */
  function HandlePacket(s: State, p: Packet): State {
    if p.epoch != s.epoch then s
    else
      var t := if s.operation.None? || s.operation.value.epoch != s.epoch then s
               else s.(operation := Some(Noted(s.operation.value, p.message)));
      if p.message.LiveData? && p.message.samples.Some? then
        t.(held := t.held + Tagged(p.epoch, p.message.samples.value))
      else t
  }

  function ProcessPackets(s: State): State
    decreases |s.queue|
  {
    if s.queue == [] then s else ProcessPackets(HandlePacket(s.(queue := s.queue[1..]), s.queue[0]))
  }

  function Push(s: State, p: Packet): State {
    if |s.queue| < QUEUE_CAPACITY then s.(queue := s.queue + [p]) else s
  }

  // ---------------------------------------------------------------- requests

  function Dispatch(s: State, now: int): State
    requires Scheduler.WellFormed(s.scheduler)
  {
    if !SourceReady(s) then s
    else
      var next := Scheduler.NextRequest(s.scheduler, now);
      if next.1.None? then s
      else s.(scheduler := next.0, unanswered := s.unanswered + [Transmit(s.epoch, next.1.value)])
  }

  predicate Belongs(kind: Kind, r: Request) {
    match kind
    case Identify => r.mode == 0x09
    case Clear => r.mode == 0x04
    case _ => r.mode == 0x02 || r.mode == 0x03 || r.mode == 0x07
  }

  /** `lookupOk`: the code database, if there is one, answers for every code found. */
  function FinishScan(s: State, lookupOk: bool, now: int): State
    requires s.operation.Some?
  {
    var op := if lookupOk then s.operation.value else Remembered(s.operation.value, LookupFailed);
    if op.kind == PostClearScan then
      var rescanned := if op.audit.Some? then op.(audit := Some(op.audit.value.(rescanned := true))) else op;
      FinishClear(s.(operation := Some(rescanned)), op.error, now)
    else Answered(s.(operation := None), op.ticket, op.error)
  }

  function FinishIdentification(s: State): State
    requires s.operation.Some?
  {
    var op := s.operation.value;
    Answered(s.(metadata := op.metadata, operation := None), op.ticket, if op.metadata == [] then op.error else None)
  }

  /** What a completed request leaves of the operation it belongs to. */
  function Counted(op: Operation, ok: bool): Operation {
    var noted := if ok then op else Remembered(op, TransmitFailed);
    var transmitted := if op.kind == Clear && ok && op.audit.Some?
                       then noted.(audit := Some(op.audit.value.(transmitted := true))) else noted;
    transmitted.(outstanding := if op.outstanding > 0 then op.outstanding - 1 else 0)
  }

  /** The clear request of an operation has completed: it failed, or it settles before the rescan. */
  function ClearCompleted(s: State, settleAt: int, now: int): State
    requires s.operation.Some?
  {
    var op := s.operation.value;
    if op.error.Some? then FinishClear(s, op.error, now)
    else if !op.positiveReply then FinishClear(s, Some(MalformedResponse), now)
    else
      var positive := if op.audit.Some? then op.(audit := Some(op.audit.value.(positive := true))) else op;
      s.(operation := Some(positive), settleAt := Some(settleAt))
  }

  function LastCompleted(s: State, lookupOk: bool, settleAt: int, now: int): State
    requires s.operation.Some?
  {
    var op := s.operation.value;
    match op.kind
    case Clear => ClearCompleted(s, settleAt, now)
    case Identify => FinishIdentification(s)
    case _ =>
      if op.freezeFrameCode.None? && op.codes != [] then
        Enqueued(s.(operation := Some(op.(freezeFrameCode := Some(op.codes[0]), outstanding := 1))), [FREEZE_FRAME])
      else FinishScan(s, lookupOk, now)
  }

  function FinishRequest(s: State, r: Request, ok: bool, lookupOk: bool, settleAt: int, now: int): State {
    if s.operation.None? || s.operation.value.epoch != s.epoch || !Belongs(s.operation.value.kind, r) then s
    else
      var t := s.(operation := Some(Counted(s.operation.value, ok)));
      if t.operation.value.outstanding > 0 then t else LastCompleted(t, lookupOk, settleAt, now)
  }

  /** The source answers a transmit; an answer to another epoch's transmit is ignored. */
  function TransmitDone(s: State, i: nat, ok: bool, roundTrip: int, lookupOk: bool, settleAt: int, now: int): State {
    if i >= |s.unanswered| then s
    else
      var done := s.unanswered[i];
      var t := s.(unanswered := s.unanswered[..i] + s.unanswered[i + 1..]);
      if done.epoch != s.epoch then t
      else
        var u := ProcessPackets(t);
        FinishRequest(u.(scheduler := Scheduler.Completed(u.scheduler, roundTrip, !ok)), done.request, ok, lookupOk, settleAt, now)
  }

  function Settle(s: State, now: int): State {
    if s.settleAt.None? || now < s.settleAt.value then s
    else
      var t := s.(settleAt := None);
      if t.operation.None? || t.operation.value.kind != Clear then t
      else Enqueued(
        t.(operation := Some(t.operation.value.(kind := PostClearScan, outstanding := 2, codes := []))),
        [STORED_CODES, PENDING_CODES])
  }

  // ---------------------------------------------------------------- runs

  /** One command or continuation on the worker, or one move of the source's own thread. */
  datatype Event =
    | SetSourceEvent(source: Option<Source>, now: int)
    | SwapSourceEvent(source: Option<Source>, now: int)
    | ConnectEvent(config: Config)
    | ConnectedEvent(ok: bool)
    | DisconnectEvent(now: int)
    | DisconnectDoneEvent(ok: bool)
    | ScanEvent
    | IdentifyEvent
    | PrepareClearEvent(now: int)
    | ConfirmClearEvent(id: nat, now: int)
    | NewEpochEvent(now: int)
    | SupportedPidsEvent(pids: seq<Byte>)
    | SourceChangedEvent(state: ConnectionState, error: Option<Error>, now: int)
    | ProcessPacketsEvent
    | DispatchEvent(now: int)
    | TransmitDoneEvent(i: nat, ok: bool, roundTrip: int, lookupOk: bool, settleAt: int, now: int)
    | SettleEvent(now: int)
    | PushEvent(packet: Packet)
    | SourceMovesEvent(state: ConnectionState)

  /** Seeking in a playback and resetting a simulation begin a new epoch. */
  function Step(s: State, e: Event): State
    requires Scheduler.WellFormed(s.scheduler)
  {
    match e
    case SetSourceEvent(source, now) => SetSource(s, source, now)
    case SwapSourceEvent(source, now) => SwapSource(s, source, now)
    case ConnectEvent(config) => Connect(s, config)
    case ConnectedEvent(ok) => Connected(s, ok)
    case DisconnectEvent(now) => Disconnect(s, now)
    case DisconnectDoneEvent(ok) => DisconnectDone(s, ok)
    case ScanEvent => BeginScan(s)
    case IdentifyEvent => BeginIdentify(s)
    case PrepareClearEvent(now) => PrepareClear(s, now)
    case ConfirmClearEvent(id, now) => ConfirmClear(s, id, now)
    case NewEpochEvent(now) => NewEpoch(s, now)
    case SupportedPidsEvent(pids) => Listed(s, pids)
    case SourceChangedEvent(state, error, now) => SourceChanged(s, state, error, now)
    case ProcessPacketsEvent => ProcessPackets(s)
    case DispatchEvent(now) => Dispatch(s, now)
    case TransmitDoneEvent(i, ok, roundTrip, lookupOk, settleAt, now) => TransmitDone(s, i, ok, roundTrip, lookupOk, settleAt, now)
    case SettleEvent(now) => Settle(s, now)
    case PushEvent(packet) => Push(s, packet)
    case SourceMovesEvent(state) => SourceMoves(s, state)
  }

  function Listed(s: State, pids: seq<Byte>): State {
    s.(scheduler := Scheduler.Listed(s.scheduler, pids))
  }

  function SourceMoves(s: State, state: ConnectionState): State {
    if s.source.None? then s else s.(source := Some(s.source.value.(state := state)))
  }
}
