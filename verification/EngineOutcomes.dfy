/** When a scan, an identification or a clear ends without an error, and what it leaves behind. */
module EngineOutcomes {
  import opened Wrappers
  import opened Sources
  import opened EngineModel
  import opened EngineSafety
  import opened EngineAccounting
  import opened EngineClearing
  import opened EngineHeard
  import Scheduler

  // ---------------------------------------------------------------- mishaps

  /** A message that an active operation takes as an error. */
  predicate Complains(op: Operation, m: Message) {
    match m
    case NegativeReply(service) => op.kind == Clear && service == Some(0x04)
    case Codes(codes) => codes.None?
    case FreezeFrame(decodes) => op.freezeFrameCode.Some? && !decodes
    case Identification(None) => true
    case Identification(Some(item)) => Contradicts(op.metadata, item)
    case ClearReply(wellFormed) => op.kind == Clear && !wellFormed
    case _ => false
  }

  /** The first entry of the same ECU has another VIN. */
  predicate Contradicts(metadata: seq<EcuMetadata>, item: EcuMetadata) {
    metadata != [] && item.vin != "" &&
    if metadata[0].ecu == item.ecu then metadata[0].vin != "" && metadata[0].vin != item.vin
    else Contradicts(metadata[1..], item)
  }

  lemma {:induction false} ContradictsAtIndex(metadata: seq<EcuMetadata>, item: EcuMetadata)
    ensures var k := IndexOf(metadata, item.ecu);
            Contradicts(metadata, item) <==>
              k < |metadata| && item.vin != "" && metadata[k].vin != "" && metadata[k].vin != item.vin
  {
    if metadata != [] && metadata[0].ecu != item.ecu {
      ContradictsAtIndex(metadata[1..], item);
    }
  }

  lemma NotedErrsExactly(op: Operation, m: Message)
    ensures Noted(op, m).error.None? <==> op.error.None? && !Complains(op, m)
  {
    if m.Identification? && m.item.Some? {
      ContradictsAtIndex(op.metadata, m.item.value);
    }
  }

  /** One of the packets waiting to be processed makes the operation complain. */
  predicate QueueComplains(s: State)
    requires s.operation.Some?
    decreases |s.queue|
  {
    s.queue != [] &&
    var t := s.(queue := s.queue[1..]);
    || (s.queue[0].epoch == s.epoch && s.operation.value.epoch == s.epoch && Complains(s.operation.value, s.queue[0].message))
    || QueueComplains(HandlePacket(t, s.queue[0]))
  }

  lemma {:induction false} ProcessErrsExactly(s: State)
    requires s.operation.Some?
    ensures ProcessPackets(s).operation.Some?
    ensures ProcessPackets(s).operation.value.error.None? <==> s.operation.value.error.None? && !QueueComplains(s)
    decreases |s.queue|
  {
    if s.queue != [] {
      NotedErrsExactly(s.operation.value, s.queue[0].message);
      ProcessErrsExactly(HandlePacket(s.(queue := s.queue[1..]), s.queue[0]));
    }
  }

  /** The last answer of a scan, or of a rescan, that asks for no freeze frame. */
  predicate EndsScan(op: Operation) {
    && (op.kind == Scan || op.kind == PostClearScan) && op.outstanding <= 1
    && (op.freezeFrameCode.Some? || op.codes == [])
  }

  function Processed(s: State): Operation
    requires s.operation.Some?
  {
    ProcessErrsExactly(s);
    ProcessPackets(s).operation.value
  }

  /** The answer comes without a positive reply, or the codes it completes cannot be looked up. */
  predicate FallsShort(op: Operation, lookupOk: bool) {
    (op.kind == Clear && !op.positiveReply) || (EndsScan(op) && !lookupOk)
  }

  /** What spoils an active operation: cancelling it, a complaint among the packets processed, an answer of
      its own that fails or comes without a positive reply, codes that cannot be looked up. */
  predicate Mishap(s: State, e: Event)
    requires s.operation.Some?
  {
    match e
    case SetSourceEvent(_, _) => s.source.None? || s.source.value.state == Disconnected
    case SwapSourceEvent(_, _) => true
    case NewEpochEvent(_) => true
    case DisconnectEvent(_) => true
    case SourceChangedEvent(state, _, _) => Unavailable(state)
    case ProcessPacketsEvent => QueueComplains(s)
    case TransmitDoneEvent(i, ok, _, lookupOk, _, _) =>
      i < |s.unanswered| && s.unanswered[i].epoch == s.epoch &&
      (|| QueueComplains(s)
       || (Own(s, e) && (!ok || FallsShort(Processed(s), lookupOk))))
    case _ => false
  }

  /** The operation active in `s` goes on in `t` without an error, or has been answered without one. */
  predicate IsClean(s: State, t: State)
    requires s.operation.Some?
  {
    if t.operation.Some? then t.operation.value.error.None?
    else t.answers == s.answers + [Answer(s.operation.value.ticket, None)]
  }

  // ---------------------------------------------------------------- steps

  /** Removing a transmit does not change what the packets do. */
  lemma {:induction false} PacketsIgnoreTransmits(s: State, unanswered: seq<Transmit>)
    requires s.operation.Some?
    ensures ProcessPackets(s.(unanswered := unanswered)) == ProcessPackets(s).(unanswered := unanswered)
    ensures QueueComplains(s.(unanswered := unanswered)) == QueueComplains(s)
    decreases |s.queue|
  {
    if s.queue != [] {
      var u := HandlePacket(s.(queue := s.queue[1..]), s.queue[0]);
      PacketsIgnoreTransmits(u, unanswered);
      assert HandlePacket(s.(unanswered := unanswered, queue := s.queue[1..]), s.queue[0]) == u.(unanswered := unanswered);
    }
  }

  lemma FinishRequestIsClean(s: State, r: Request, ok: bool, lookupOk: bool, settleAt: int, now: int)
    requires s.operation.Some? && OperationIsSound(s.operation.value, s.epoch)
    requires s.operation.value.kind == Identify && Belongs(Identify, r) ==> s.operation.value.outstanding > 1
    ensures var op := s.operation.value;
            IsClean(s, FinishRequest(s, r, ok, lookupOk, settleAt, now)) <==>
              op.error.None? && (Belongs(op.kind, r) ==> ok && !FallsShort(op, lookupOk))
  {
    if Belongs(s.operation.value.kind, r) {
      var t := s.(operation := Some(Counted(s.operation.value, ok)));
      if t.operation.value.outstanding == 0 {
        LastCompletedIsClean(t, lookupOk, settleAt, now);
      }
    }
  }

  lemma LastCompletedIsClean(s: State, lookupOk: bool, settleAt: int, now: int)
    requires s.operation.Some? && s.operation.value.kind != Identify && OperationIsSound(s.operation.value, s.epoch)
    requires s.operation.value.outstanding == 0
    ensures IsClean(s, LastCompleted(s, lookupOk, settleAt, now)) <==>
            s.operation.value.error.None? && !FallsShort(s.operation.value, lookupOk)
  {
    DifferentAnswers(s.answers, s.operation.value.ticket);
  }

  lemma DifferentAnswers(answers: seq<Answer>, ticket: nat)
    ensures forall error: Option<Error> :: error.Some? ==> answers + [Answer(ticket, error)] != answers + [Answer(ticket, None)]
  {
    forall error: Option<Error> | error.Some?
      ensures answers + [Answer(ticket, error)] != answers + [Answer(ticket, None)]
    {
      assert (answers + [Answer(ticket, error)])[|answers|] != (answers + [Answer(ticket, None)])[|answers|];
    }
  }

  /** The last of its own answers ends an identification. */
  predicate EndsIdentification(s: State, e: Event) {
    Own(s, e) && s.operation.value.kind == Identify && s.operation.value.outstanding == 1
  }

  lemma TransmitIsClean(s: State, e: Event)
    requires Invariant(s) && s.operation.Some? && e.TransmitDoneEvent? && !EndsIdentification(s, e)
    ensures IsClean(s, Step(s, e)) <==> s.operation.value.error.None? && !Mishap(s, e)
  {
    if e.i < |s.unanswered| && s.unanswered[e.i].epoch == s.epoch {
      var rest := s.unanswered[..e.i] + s.unanswered[e.i + 1..];
      PacketsIgnoreTransmits(s, rest);
      ProcessErrsExactly(s);
      PacketsKeep(s);
      var u := ProcessPackets(s.(unanswered := rest));
      var v := u.(scheduler := Scheduler.Completed(u.scheduler, e.roundTrip, !e.ok));
      FinishRequestIsClean(v, s.unanswered[e.i].request, e.ok, e.lookupOk, e.settleAt, e.now);
    }
  }

  lemma CancelIsNotClean(s: State, e: Event)
    requires Invariant(s) && s.operation.Some? && Cancels(e)
    ensures IsClean(s, Step(s, e)) <==> s.operation.value.error.None? && !Mishap(s, e)
  {
    DifferentAnswers(s.answers, s.operation.value.ticket);
  }

  /** A step leaves an operation without an error, or answers it without one, if and only if it had
      none and the step is no mishap; only the end of an identification is another matter. */
  lemma StepIsCleanExactly(s: State, e: Event)
    requires Invariant(s) && s.operation.Some? && !EndsIdentification(s, e)
    ensures IsClean(s, Step(s, e)) <==> s.operation.value.error.None? && !Mishap(s, e)
  {
    match e
    case TransmitDoneEvent(_, _, _, _, _, _) => TransmitIsClean(s, e);
    case ProcessPacketsEvent => ProcessErrsExactly(s); PacketsKeep(s);
    case _ => if Cancels(e) { CancelIsNotClean(s, e); }
  }

  // ---------------------------------------------------------------- runs

  /** An operation is active before each event of the run, and none of them is a mishap for it. */
  ghost predicate WithoutMishap(s: State, events: seq<Event>)
    requires Invariant(s)
    decreases |events|
  {
    events != [] ==>
      var init := events[..|events| - 1];
      && WithoutMishap(s, init)
      && Run(s, init).operation.Some? && !Mishap(Run(s, init), events[|events| - 1])
  }

  lemma {:induction false} IssuedGrows(s: State, events: seq<Event>)
    requires Invariant(s)
    ensures Run(s, events).issued >= s.issued
    decreases |events|
  {
    if events != [] {
      var init := events[..|events| - 1];
      IssuedGrows(s, init);
      StepMovesCompletions(Run(s, init), events[|events| - 1]);
    }
  }

  /** An operation that is still active was active before the step. */
  lemma WasActive(s: State, e: Event, ticket: nat)
    requires Invariant(s) && ticket < s.issued && Active(Step(s, e), ticket)
    ensures Active(s, ticket) && !EndsIdentification(s, e)
  {
    StepMovesCompletions(s, e);
    if EndsIdentification(s, e) {
      IdentificationEnds(s, e);
    }
  }

  /** While an operation is active it has no error if and only if it began without one and no event
      since was a mishap. */
  lemma {:induction false} ActiveIsCleanExactly(s: State, events: seq<Event>, ticket: nat)
    requires Invariant(s) && Active(s, ticket) && s.operation.value.error.None?
    requires Active(Run(s, events), ticket)
    ensures Run(s, events).operation.value.error.None? <==> WithoutMishap(s, events)
    decreases |events|
  {
    if events != [] {
      var init, e := events[..|events| - 1], events[|events| - 1];
      IssuedGrows(s, init);
      WasActive(Run(s, init), e, ticket);
      ActiveIsCleanExactly(s, init, ticket);
      StepIsCleanExactly(Run(s, init), e);
    }
  }

  lemma Begins(s: State, begin: Event)
    requires Invariant(s) && (begin.ScanEvent? || begin.IdentifyEvent? || begin.ConfirmClearEvent?)
    requires s.operation.None?
    ensures var t := Step(s, begin);
            t.operation.Some? ==>
              && Active(t, s.issued) && s.issued < t.issued && t.operation.value.error.None? && t.operation.value.metadata == []
              && t.operation.value.codes == [] && t.operation.value.freezeFrameCode.None? && !t.operation.value.positiveReply
              && t.operation.value.kind == if begin.ScanEvent? then Scan else if begin.IdentifyEvent? then Identify else Clear
  {
  }

  /** Over all runs: a scan is answered, and a confirmed clear answered and audited, without an error
      if and only if nothing from its beginning to its end was a mishap. */
  lemma SucceedsExactly(s: State, begin: Event, events: seq<Event>, e: Event)
    requires Invariant(s) && s.operation.None? && (begin.ScanEvent? || begin.ConfirmClearEvent?)
    requires Step(s, begin).operation.Some? && Invariant(Step(s, begin))
    requires Active(Run(Step(s, begin), events), s.issued)
    requires Step(Run(Step(s, begin), events), e).operation.None?
    ensures var before := Run(Step(s, begin), events);
            var t := Step(before, e);
            var succeeds := WithoutMishap(Step(s, begin), events) && !Mishap(before, e);
            && |t.answers| == |before.answers| + 1 && t.answers[|before.answers|].ticket == s.issued
            && (t.answers[|before.answers|].error.None? <==> succeeds)
            && (begin.ConfirmClearEvent? ==>
                  |t.audits| == |before.audits| + 1 && (t.audits[|before.audits|].error.None? <==> succeeds))
  {
    var begun := Step(s, begin);
    Begins(s, begin);
    KindStays(begun, events, s.issued);
    ActiveIsCleanExactly(begun, events, s.issued);
    EndIsCleanExactly(Run(begun, events), e);
  }

  /** The step that ends a scan or a clear answers it once, and files the audit of a clear. */
  lemma EndIsCleanExactly(s: State, e: Event)
    requires Invariant(s) && s.operation.Some? && s.operation.value.kind != Identify && Step(s, e).operation.None?
    ensures var t := Step(s, e);
            var succeeds := s.operation.value.error.None? && !Mishap(s, e);
            && |t.answers| == |s.answers| + 1 && t.answers[|s.answers|].ticket == s.operation.value.ticket
            && (t.answers[|s.answers|].error.None? <==> succeeds)
            && (IsClear(s.operation.value) ==>
                  |t.audits| == |s.audits| + 1 && (t.audits[|s.audits|].error.None? <==> succeeds))
  {
    StepIsCleanExactly(s, e);
    StepMovesCompletions(s, e);
    DifferentAnswers(s.answers, s.operation.value.ticket);
    var t := Step(s, e);
    assert t.answers == s.answers + [t.answers[|s.answers|]];
    if IsClear(s.operation.value) {
      EndFilesAudit(s, e);
      AuditsAreAnswered(s, e);
    }
  }

  predicate SameFamily(a: Kind, b: Kind) {
    a == b || (a == Clear && b == PostClearScan)
  }

  lemma {:induction false} KindStays(s: State, events: seq<Event>, ticket: nat)
    requires Invariant(s) && Active(s, ticket)
    requires Active(Run(s, events), ticket)
    ensures SameFamily(s.operation.value.kind, Run(s, events).operation.value.kind)
    decreases |events|
  {
    if events != [] {
      var init, e := events[..|events| - 1], events[|events| - 1];
      var before := Run(s, init);
      IssuedGrows(s, init);
      StepMovesCompletions(before, e);
      KindStays(s, init, ticket);
      KindStaysOnce(before, e);
    }
  }

  predicate KeepsFamily(s: State, t: State) {
    s.operation.Some? && t.operation.Some? ==> SameFamily(s.operation.value.kind, t.operation.value.kind)
  }

  lemma FinishRequestKeepsFamily(s: State, r: Request, ok: bool, lookupOk: bool, settleAt: int, now: int)
    ensures KeepsFamily(s, FinishRequest(s, r, ok, lookupOk, settleAt, now))
  {
    if s.operation.Some? {
      FinishRequestKeepsNotes(s, r, ok, lookupOk, settleAt, now);
    }
  }

  lemma TransmitKeepsFamily(s: State, e: Event)
    requires Invariant(s) && e.TransmitDoneEvent?
    ensures KeepsFamily(s, Step(s, e))
  {
    if e.i < |s.unanswered| {
      var t := s.(unanswered := s.unanswered[..e.i] + s.unanswered[e.i + 1..]);
      PacketsKeep(t);
      var u := ProcessPackets(t);
      FinishRequestKeepsFamily(u.(scheduler := Scheduler.Completed(u.scheduler, e.roundTrip, !e.ok)), s.unanswered[e.i].request, e.ok, e.lookupOk, e.settleAt, e.now);
    }
  }

  lemma KindStaysOnce(s: State, e: Event)
    requires Invariant(s)
    ensures KeepsFamily(s, Step(s, e))
  {
    match e
    case TransmitDoneEvent(_, _, _, _, _, _) => TransmitKeepsFamily(s, e);
    case ProcessPacketsEvent => PacketsKeep(s);
    case _ => if Cancels(e) { CancelsOrKeeps(s, e); }
  }

  lemma EndFilesAudit(s: State, e: Event)
    requires Invariant(s) && s.operation.Some? && IsClear(s.operation.value) && Step(s, e).operation.None?
    ensures |Step(s, e).audits| == |s.audits| + 1
  {
    StepMovesCompletions(s, e);
    StepKeeps(s, e);
    StartedChanges(s, e);
  }

  // ---------------------------------------------------------------- what an identification publishes

  lemma FinishRequestIdentifies(s: State, r: Request, ok: bool, lookupOk: bool, settleAt: int, now: int)
    requires s.operation.Some? && OperationIsSound(s.operation.value, s.epoch)
    ensures var t := FinishRequest(s, r, ok, lookupOk, settleAt, now);
            var op := s.operation.value;
            if op.kind == Identify && Belongs(Identify, r) && op.outstanding <= 1 then
              && t.operation.None? && t.metadata == op.metadata
              && |t.answers| == |s.answers| + 1 && t.answers[..|s.answers|] == s.answers
              && t.answers[|s.answers|].ticket == op.ticket
              && (t.answers[|s.answers|].error.Some? <==> op.metadata == [] && (op.error.Some? || !ok))
            else t.metadata == s.metadata
  {
  }

  /** What the last own answer of an identification leaves: the metadata noted by then, answered with
      an error if and only if there is none and an error was noted or the answer itself failed. */
  lemma IdentificationEnds(s: State, e: Event)
    requires Invariant(s) && EndsIdentification(s, e)
    ensures var t := Step(s, e);
            && t.operation.None? && t.metadata == Processed(s).metadata
            && |t.answers| == |s.answers| + 1 && t.answers[..|s.answers|] == s.answers
            && t.answers[|s.answers|].ticket == s.operation.value.ticket
            && (t.answers[|s.answers|].error.Some? <==>
                t.metadata == [] && (s.operation.value.error.Some? || Mishap(s, e)))
  {
    var rest := s.unanswered[..e.i] + s.unanswered[e.i + 1..];
    PacketsIgnoreTransmits(s, rest);
    ProcessErrsExactly(s);
    PacketsKeep(s);
    var u := ProcessPackets(s.(unanswered := rest));
    var v := u.(scheduler := Scheduler.Completed(u.scheduler, e.roundTrip, !e.ok));
    FinishRequestIdentifies(v, s.unanswered[e.i].request, e.ok, e.lookupOk, e.settleAt, e.now);
  }

  /** No step but the last own answer of an identification changes the published metadata. */
  lemma OnlyIdentificationPublishes(s: State, e: Event)
    requires Invariant(s)
    ensures Step(s, e).metadata != s.metadata ==> EndsIdentification(s, e)
  {
    match e
    case TransmitDoneEvent(i, ok, roundTrip, lookupOk, settleAt, now) =>
      if i < |s.unanswered| {
        var rest := s.unanswered[..i] + s.unanswered[i + 1..];
        var t := s.(unanswered := rest);
        PacketsKeep(t);
        var u := ProcessPackets(t);
        if s.operation.Some? && s.unanswered[i].epoch == s.epoch {
          FinishRequestIdentifies(u.(scheduler := Scheduler.Completed(u.scheduler, roundTrip, !ok)), s.unanswered[i].request, ok, lookupOk, settleAt, now);
        }
      }
    case ProcessPacketsEvent => PacketsKeep(s);
    case _ => if Cancels(e) { CancelKeepsMetadata(s, e); }
  }

  lemma CancelKeepsMetadata(s: State, e: Event)
    requires Invariant(s) && Cancels(e)
    ensures Step(s, e).metadata == s.metadata
  {
  }

  /** While a scan or an identification is active it has noted exactly what was heard since it began:
      the entries per ECU of the identification items, and the codes. */
  lemma {:induction false} ActiveHasNoted(s: State, events: seq<Event>, ticket: nat)
    requires Invariant(s) && Active(s, ticket) && s.operation.value.metadata == [] && s.operation.value.codes == []
    requires s.operation.value.kind == Scan || s.operation.value.kind == Identify
    requires Active(Run(s, events), ticket)
    ensures var op := Run(s, events).operation.value;
            && op.kind == s.operation.value.kind
            && op.metadata == PerEcu(ItemsOf(Heard(s, events))) && op.codes == CodesOf(Heard(s, events))
    decreases |events|
  {
    if events != [] {
      var init, e := events[..|events| - 1], events[|events| - 1];
      var before := Run(s, init);
      IssuedGrows(s, init);
      WasActive(before, e, ticket);
      ActiveHasNoted(s, init, ticket);
      StepNotes(before, e);
      var more := if Processes(before, e) then MessagesOf(before.queue, before.epoch) else [];
      Regroup([], Heard(s, init), more);
      NotesMore(before.operation.value, Heard(s, init), more);
    }
  }

  lemma NotesMore(op: Operation, heard: seq<Message>, more: seq<Message>)
    requires op.metadata == PerEcu(ItemsOf(heard)) && op.codes == CodesOf(heard)
    ensures NotedAll(op, more).metadata == PerEcu(ItemsOf(heard + more))
    ensures NotedAll(op, more).codes == CodesOf(heard + more)
  {
    MetadataNoted(op, ItemsOf(heard), more);
    CodesNoted(op, more);
    ItemsAppend(heard, more);
    CodesAppend(heard, more);
  }

  predicate SameNotes(s: State, t: State)
    requires s.operation.Some?
  {
    t.operation.Some? ==>
      && t.operation.value.metadata == s.operation.value.metadata && t.operation.value.codes == s.operation.value.codes
      && t.operation.value.kind == s.operation.value.kind
  }

  lemma LastCompletedKeepsNotes(s: State, lookupOk: bool, settleAt: int, now: int)
    requires s.operation.Some?
    ensures SameNotes(s, LastCompleted(s, lookupOk, settleAt, now))
  {
  }

  lemma FinishRequestKeepsNotes(s: State, r: Request, ok: bool, lookupOk: bool, settleAt: int, now: int)
    requires s.operation.Some?
    ensures SameNotes(s, FinishRequest(s, r, ok, lookupOk, settleAt, now))
  {
    var t := s.(operation := Some(Counted(s.operation.value, ok)));
    LastCompletedKeepsNotes(t, lookupOk, settleAt, now);
  }

  /** What a step adds to the notes of the operation it leaves active. */
  predicate AddsNotes(s: State, e: Event)
    requires Invariant(s) && s.operation.Some?
  {
    var noted := NotedAll(s.operation.value, if Processes(s, e) then MessagesOf(s.queue, s.epoch) else []);
    var t := Step(s, e);
    t.operation.Some? ==>
      && t.operation.value.metadata == noted.metadata && t.operation.value.codes == noted.codes
      && t.operation.value.kind == s.operation.value.kind
  }

  lemma {:induction false} NotesKeepKind(op: Operation, messages: seq<Message>)
    ensures NotedAll(op, messages).kind == op.kind
    decreases |messages|
  {
    ReplyNoted(op, messages);
  }

  lemma TransmitNotes(s: State, e: Event)
    requires Invariant(s) && s.operation.Some? && e.TransmitDoneEvent?
    ensures AddsNotes(s, e)
  {
    if e.i < |s.unanswered| && s.unanswered[e.i].epoch == s.epoch {
      var rest := s.unanswered[..e.i] + s.unanswered[e.i + 1..];
      PacketsIgnoreTransmits(s, rest);
      ProcessNotes(s);
      NotesKeepKind(s.operation.value, MessagesOf(s.queue, s.epoch));
      var u := ProcessPackets(s.(unanswered := rest));
      PacketsKeep(s);
      var v := u.(scheduler := Scheduler.Completed(u.scheduler, e.roundTrip, !e.ok));
      FinishRequestKeepsNotes(v, s.unanswered[e.i].request, e.ok, e.lookupOk, e.settleAt, e.now);
    }
  }

  lemma StepNotes(s: State, e: Event)
    requires Invariant(s) && s.operation.Some?
    requires s.operation.value.kind == Scan || s.operation.value.kind == Identify
    ensures AddsNotes(s, e)
  {
    match e
    case TransmitDoneEvent(_, _, _, _, _, _) => TransmitNotes(s, e);
    case ProcessPacketsEvent =>
      ProcessNotes(s);
      NotesKeepKind(s.operation.value, MessagesOf(s.queue, s.epoch));
    case _ => if Cancels(e) { CancelsOrKeeps(s, e); }
  }

  /** Over all runs: the last own answer of an identification publishes exactly one entry for each ECU
      that reported something since it began, with the first VIN it reported, and answers an error if
      and only if none did and something went wrong. */
  lemma IdentificationPublishes(s: State, events: seq<Event>, e: Event)
    requires Invariant(s) && s.operation.None?
    requires Step(s, IdentifyEvent).operation.Some? && Invariant(Step(s, IdentifyEvent))
    requires Active(Run(Step(s, IdentifyEvent), events), s.issued)
    requires EndsIdentification(Run(Step(s, IdentifyEvent), events), e)
    ensures var begun := Step(s, IdentifyEvent);
            var before := Run(begun, events);
            var t := Step(before, e);
            && t.operation.None?
            && t.metadata == PerEcu(ItemsOf(Heard(begun, events) + MessagesOf(before.queue, before.epoch)))
            && |t.answers| == |before.answers| + 1 && t.answers[|before.answers|].ticket == s.issued
            && (t.answers[|before.answers|].error.Some? <==> t.metadata == [] && !(WithoutMishap(begun, events) && !Mishap(before, e)))
  {
    var begun := Step(s, IdentifyEvent);
    Begins(s, IdentifyEvent);
    var before := Run(begun, events);
    ActiveIsCleanExactly(begun, events, s.issued);
    ActiveHasNoted(begun, events, s.issued);
    IdentificationEnds(before, e);
    ProcessNotes(before);
    NotesMore(before.operation.value, Heard(begun, events), MessagesOf(before.queue, before.epoch));
  }

  // ---------------------------------------------------------------- freeze frames and settling

  lemma FinishRequestAsks(s: State, r: Request, ok: bool, lookupOk: bool, settleAt: int, now: int)
    requires s.operation.Some? && OperationIsSound(s.operation.value, s.epoch) && s.operation.value.outstanding == 1
    requires s.operation.value.kind == Scan || s.operation.value.kind == PostClearScan
    requires Belongs(s.operation.value.kind, r)
    ensures var t := FinishRequest(s, r, ok, lookupOk, settleAt, now);
            var op := s.operation.value;
            if op.freezeFrameCode.None? && op.codes != [] then
              && t.operation.Some? && t.operation.value.freezeFrameCode == Some(op.codes[0]) && t.operation.value.outstanding == 1
              && t.scheduler.diagnostics == s.scheduler.diagnostics + [Scheduler.Request(0x02, 0x0C)]
            else t.operation.None? && t.scheduler == s.scheduler
  {
  }

  /** The last answer of a scan, or of a rescan, asks for the freeze frame of the first code noted, once,
      if and only if a code was noted; otherwise it ends the operation. */
  lemma FrameIsAskedExactly(s: State, e: Event)
    requires Invariant(s) && Own(s, e) && s.operation.value.outstanding == 1
    requires s.operation.value.kind == Scan || s.operation.value.kind == PostClearScan
    ensures var t := Step(s, e);
            var op := Processed(s);
            if s.operation.value.freezeFrameCode.None? && op.codes != [] then
              && t.operation.Some? && t.operation.value.freezeFrameCode == Some(op.codes[0]) && t.operation.value.outstanding == 1
              && t.scheduler.diagnostics == s.scheduler.diagnostics + [Scheduler.Request(0x02, 0x0C)]
            else t.operation.None? && t.scheduler.diagnostics == s.scheduler.diagnostics
    ensures Processed(s).codes == s.operation.value.codes + CodesOf(MessagesOf(s.queue, s.epoch))
  {
    var rest := s.unanswered[..e.i] + s.unanswered[e.i + 1..];
    PacketsIgnoreTransmits(s, rest);
    PacketsKeep(s);
    ProcessNotes(s);
    CodesNoted(s.operation.value, MessagesOf(s.queue, s.epoch));
    var u := ProcessPackets(s.(unanswered := rest));
    var v := u.(scheduler := Scheduler.Completed(u.scheduler, e.roundTrip, !e.ok));
    FinishRequestAsks(v, s.unanswered[e.i].request, e.ok, e.lookupOk, e.settleAt, e.now);
  }

  lemma FinishRequestSettlesExactly(s: State, r: Request, ok: bool, lookupOk: bool, settleAt: int, now: int)
    requires s.operation.Some? && OperationIsSound(s.operation.value, s.epoch) && s.operation.value.kind == Clear && s.settleAt.None?
    ensures FinishRequest(s, r, ok, lookupOk, settleAt, now).settleAt.Some? <==>
            Belongs(Clear, r) && ok && s.operation.value.error.None? && s.operation.value.positiveReply
  {
  }

  /** A clear begins to settle if and only if an answer of its own is good, no error was noted, and a
      well-formed positive reply was noted or is among the packets processed with the answer. */
  lemma SettlesExactly(s: State, e: Event)
    requires Invariant(s) && s.operation.Some? && s.operation.value.kind == Clear && s.settleAt.None?
    ensures Step(s, e).settleAt.Some? <==>
            && Own(s, e) && e.ok && s.operation.value.error.None? && !QueueComplains(s)
            && (s.operation.value.positiveReply || ClearReply(true) in MessagesOf(s.queue, s.epoch))
  {
    match e
    case TransmitDoneEvent(_, _, _, _, _, _) => TransmitSettlesExactly(s, e);
    case ProcessPacketsEvent => PacketsKeep(s);
    case _ => if Cancels(e) { CancelsOrKeeps(s, e); }
  }

  lemma TransmitSettlesExactly(s: State, e: Event)
    requires Invariant(s) && s.operation.Some? && s.operation.value.kind == Clear && s.settleAt.None? && e.TransmitDoneEvent?
    ensures Step(s, e).settleAt.Some? <==>
            && Own(s, e) && e.ok && s.operation.value.error.None? && !QueueComplains(s)
            && (s.operation.value.positiveReply || ClearReply(true) in MessagesOf(s.queue, s.epoch))
  {
    if e.i < |s.unanswered| && s.unanswered[e.i].epoch == s.epoch {
      var rest := s.unanswered[..e.i] + s.unanswered[e.i + 1..];
      PacketsIgnoreTransmits(s, rest);
      ProcessErrsExactly(s);
      ProcessNotes(s);
      ReplyNoted(s.operation.value, MessagesOf(s.queue, s.epoch));
      PacketsKeep(s);
      var u := ProcessPackets(s.(unanswered := rest));
      FinishRequestSettlesExactly(u.(scheduler := Scheduler.Completed(u.scheduler, e.roundTrip, !e.ok)), s.unanswered[e.i].request, e.ok, e.lookupOk, e.settleAt, e.now);
    }
  }
}
