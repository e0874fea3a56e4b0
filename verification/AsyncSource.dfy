/** The asynchronous source lifecycle: a table of pending operations, late and repeated driver
    completions, cancellation and shutdown. */
module AsyncSource {
  import opened Wrappers
  import opened Sources

  datatype Kind = ConnectOperation | DisconnectOperation | TransmitOperation

  /** A pending operation and the number of the call whose callback it holds, if it had one. */
  datatype Operation = Operation(kind: Kind, callback: Option<nat>)

  datatype Reply = Success | DriverError | Cancelled | NotConnected | InvalidState

  datatype Delivery = Delivery(call: nat, reply: Reply)

  type Table = map<nat, Operation>

  datatype State = State(
    connection: ConnectionState,
    stopping: bool,
    config: Option<Config>,
    nextId: nat,
    pending: Table,
    calls: nat,
    issued: set<nat>,
    delivered: multiset<Delivery>)

  const INITIAL: State := State(Disconnected, false, None, 0, map[], 0, {}, multiset{})

  // ---------------------------------------------------------------- steps

  datatype Event =
    | Connect(config: Config, hasCallback: bool)
    | Disconnect(hasCallback: bool)
    | Reconnect(hasCallback: bool)
    | Transmit(hasCallback: bool)
    | Complete(id: nat, ok: bool)
    | BeginStop
    | Shutdown

  /** Every API call is numbered; the numbers of calls with a callback are the callbacks issued. */
  function Issued(s: State, hasCallback: bool): State {
    s.(calls := s.calls + 1, issued := if hasCallback then s.issued + {s.calls} else s.issued)
  }

  function Callback(s: State, hasCallback: bool): Option<nat> {
    if hasCallback then Some(s.calls) else None
  }

  function Deliver(delivered: multiset<Delivery>, callback: Option<nat>, reply: Reply): multiset<Delivery> {
    if callback.Some? then delivered + multiset{Delivery(callback.value, reply)} else delivered
  }

  function Answered(s: State, hasCallback: bool, reply: Reply): State {
    Issued(s, hasCallback).(delivered := Deliver(s.delivered, Callback(s, hasCallback), reply))
  }

  function Started(s: State, hasCallback: bool, kind: Kind): State {
    Issued(s, hasCallback).(
      nextId := s.nextId + 1,
      pending := s.pending[s.nextId + 1 := Operation(kind, Callback(s, hasCallback))])
  }

  function Cancellations(pending: Table): set<Delivery> {
    set id | id in pending && pending[id].callback.Some? :: Delivery(pending[id].callback.value, Cancelled)
  }

  function CancelAll(s: State): State {
    s.(pending := map[], delivered := s.delivered + multiset(Cancellations(s.pending)))
  }

  function Completed(s: State, id: nat, ok: bool): State {
    if id !in s.pending then s
    else
      var operation := s.pending[id];
      var connection :=
        match operation.kind
        case ConnectOperation => if ok then Ready else Faulted
        case DisconnectOperation => if ok then Disconnected else Faulted
        case TransmitOperation => s.connection;
      s.(connection := connection,
         pending := s.pending - {id},
         delivered := Deliver(s.delivered, operation.callback, if ok then Success else DriverError))
  }

  function Step(sourceType: SourceType, s: State, e: Event): State {
    match e
    case Connect(config, has) =>
      if s.stopping then Answered(s, has, Cancelled)
      else if config.sourceType != sourceType then Answered(s, has, InvalidState)
      else Started(s, has, ConnectOperation).(connection := Connecting, config := Some(config))
    case Disconnect(has) =>
      if s.stopping then Answered(s, has, Cancelled)
      else if s.connection == Disconnected then Answered(s, has, Success)
      else Started(CancelAll(s), has, DisconnectOperation).(connection := Disconnecting)
    case Reconnect(has) =>
      if s.stopping then Answered(s, has, Cancelled)
      else if s.config.None? then Answered(s, has, InvalidState)
      else Started(s, has, ConnectOperation).(connection := Reconnecting)
    case Transmit(has) =>
      if s.stopping then Answered(s, has, Cancelled)
      else if s.connection != Ready then Answered(s, has, NotConnected)
      else Started(s, has, TransmitOperation)
    case Complete(id, ok) => Completed(s, id, ok)
    case BeginStop => s.(stopping := true)
    case Shutdown => if s.stopping then CancelAll(s).(connection := Disconnected) else s
  }

  function Run(sourceType: SourceType, s: State, events: seq<Event>): State {
    if events == [] then s
    else Step(sourceType, Run(sourceType, s, events[..|events| - 1]), events[|events| - 1])
  }

  // ---------------------------------------------------------------- conservation

  function Waiting(pending: Table): set<nat> {
    set id | id in pending && pending[id].callback.Some? :: pending[id].callback.value
  }

  predicate OwnCallbacks(pending: Table) {
    forall i, j | i in pending && j in pending && i != j && pending[i].callback.Some? ::
      pending[i].callback != pending[j].callback
  }

  /** No callback was invoked twice. */
  predicate OnceEach(delivered: multiset<Delivery>) {
    && (forall d | d in delivered :: delivered[d] == 1)
    && (forall d, e | d in delivered && e in delivered && d.call == e.call :: d == e)
  }

  predicate Delivered(delivered: multiset<Delivery>, call: nat) {
    exists d | d in delivered :: d.call == call
  }

  /** The callbacks issued are split into those invoked exactly once and those still pending. */
  predicate Conserved(s: State) {
    && (forall c | c in s.issued :: c < s.calls)
    && (forall id | id in s.pending :: 1 <= id <= s.nextId)
    && OwnCallbacks(s.pending)
    && OnceEach(s.delivered)
    && (forall c | c in Waiting(s.pending) :: c in s.issued && !Delivered(s.delivered, c))
    && (forall d | d in s.delivered :: d.call in s.issued)
    && (forall c | c in s.issued :: c in Waiting(s.pending) || Delivered(s.delivered, c))
  }

  lemma AnsweredConserves(s: State, has: bool, reply: Reply)
    requires Conserved(s)
    ensures Conserved(Answered(s, has, reply))
  {
    var after := Answered(s, has, reply);
    assert !Delivered(s.delivered, s.calls);
    if has {
      assert Delivery(s.calls, reply) in after.delivered;
    }
    DeliveredGrows(s.delivered, after.delivered);
  }

  lemma DeliveredGrows(before: multiset<Delivery>, after: multiset<Delivery>)
    requires before <= after
    ensures forall c | Delivered(before, c) :: Delivered(after, c)
  {
    forall c | Delivered(before, c)
      ensures Delivered(after, c)
    {
      var d :| d in before && d.call == c;
      assert d in after;
    }
  }

  lemma WaitingAfterPend(pending: Table, id: nat, operation: Operation)
    requires id !in pending
    ensures Waiting(pending[id := operation]) ==
            Waiting(pending) + (if operation.callback.Some? then {operation.callback.value} else {})
  {
    var after := pending[id := operation];
    forall c | c in Waiting(pending)
      ensures c in Waiting(after)
    {
      var i :| i in pending && pending[i].callback == Some(c);
      assert i in after && after[i].callback == Some(c);
    }
    assert after[id].callback == operation.callback;
  }

  lemma StartedConserves(s: State, has: bool, kind: Kind)
    requires Conserved(s)
    ensures Conserved(Started(s, has, kind))
  {
    WaitingAfterPend(s.pending, s.nextId + 1, Operation(kind, Callback(s, has)));
    assert !Delivered(s.delivered, s.calls);
    assert forall i | i in s.pending && s.pending[i].callback.Some? :: s.pending[i].callback.value in Waiting(s.pending);
  }

  lemma CancelAllConserves(s: State)
    requires Conserved(s)
    ensures Conserved(CancelAll(s)) && CancelAll(s).pending == map[]
  {
    var after := CancelAll(s);
    forall d | d in Cancellations(s.pending)
      ensures d.call in Waiting(s.pending) && d in after.delivered && d !in s.delivered
    {
      var id :| id in s.pending && s.pending[id].callback == Some(d.call);
      assert d.call in Waiting(s.pending);
    }
    forall c | c in Waiting(s.pending)
      ensures Delivered(after.delivered, c)
    {
      assert Delivery(c, Cancelled) in Cancellations(s.pending);
    }
    DeliveredGrows(s.delivered, after.delivered);
    assert OnceEach(after.delivered);
  }

  lemma CompletedConserves(s: State, id: nat, ok: bool)
    requires Conserved(s)
    ensures Conserved(Completed(s, id, ok))
  {
    if id in s.pending {
      var after := Completed(s, id, ok);
      var callback := s.pending[id].callback;
      DeliveredGrows(s.delivered, after.delivered);
      if callback.Some? {
        assert callback.value in Waiting(s.pending);
        assert Delivery(callback.value, if ok then Success else DriverError) in after.delivered;
      }
      forall c | c in Waiting(s.pending)
        ensures Some(c) == callback || c in Waiting(after.pending)
      {
        var other :| other in s.pending && s.pending[other].callback == Some(c);
        if other != id {
          assert other in after.pending && after.pending[other] == s.pending[other];
        }
      }
      forall c | c in Waiting(after.pending)
        ensures c in Waiting(s.pending) && Some(c) != callback
      {
        var other :| other in after.pending && after.pending[other].callback == Some(c);
        assert other in s.pending && s.pending[other].callback == Some(c);
      }
    }
  }

  /** Conservation does not depend on the connection state, the configuration or the stopping flag. */
  lemma ConservedElsewhere(s: State, t: State)
    requires Conserved(s)
    requires t.pending == s.pending && t.nextId == s.nextId && t.calls == s.calls
    requires t.issued == s.issued && t.delivered == s.delivered
    ensures Conserved(t)
  {
  }

  lemma StepConserves(sourceType: SourceType, s: State, e: Event)
    requires Conserved(s)
    ensures Conserved(Step(sourceType, s, e))
  {
    var after := Step(sourceType, s, e);
    match e
    case Complete(id, ok) => CompletedConserves(s, id, ok);
    case BeginStop => ConservedElsewhere(s, after);
    case Shutdown =>
      CancelAllConserves(s);
      ConservedElsewhere(if s.stopping then CancelAll(s) else s, after);
    case _ =>
      var has := e.hasCallback;
      var kind := if e.Disconnect? then DisconnectOperation else if e.Transmit? then TransmitOperation else ConnectOperation;
      if after.nextId == s.nextId {
        var reply := if s.stopping then Cancelled else if e.Disconnect? then Success else if e.Transmit? then NotConnected else InvalidState;
        assert after == Answered(s, has, reply);
        AnsweredConserves(s, has, reply);
      } else {
        CallConserves(s, has, kind, if e.Disconnect? then CancelAll(s) else s, after);
      }
  }

  lemma CallConserves(s: State, has: bool, kind: Kind, base: State, after: State)
    requires Conserved(s) && (base == s || base == CancelAll(s))
    requires after == Started(base, has, kind).(connection := after.connection, config := after.config)
    ensures Conserved(after)
  {
    if base != s {
      CancelAllConserves(s);
    }
    StartedConserves(base, has, kind);
    ConservedElsewhere(Started(base, has, kind), after);
  }

  /** In every run, whatever the interleaving of calls, late or repeated completions and
      destruction, the callbacks issued are split into invoked-once and still pending. */
  lemma {:induction false} RunConserves(sourceType: SourceType, events: seq<Event>)
    ensures Conserved(Run(sourceType, INITIAL, events))
  {
    if events != [] {
      RunConserves(sourceType, events[..|events| - 1]);
      StepConserves(sourceType, Run(sourceType, INITIAL, events[..|events| - 1]), events[|events| - 1]);
    }
  }

  lemma {:induction false} StaysShut(sourceType: SourceType, s: State, events: seq<Event>)
    requires s.stopping && s.pending == map[] && s.connection == Disconnected
    ensures var t := Run(sourceType, s, events); t.stopping && t.pending == map[] && t.connection == Disconnected
  {
    if events != [] {
      StaysShut(sourceType, s, events[..|events| - 1]);
      assert Cancellations(map[]) == {};
    }
  }

  lemma {:induction false} RunConcat(sourceType: SourceType, s: State, a: seq<Event>, b: seq<Event>)
    ensures Run(sourceType, s, a + b) == Run(sourceType, Run(sourceType, s, a), b)
  {
    if b == [] {
      assert a + b == a;
    } else {
      assert (a + b)[..|a + b| - 1] == a + b[..|b| - 1];
      RunConcat(sourceType, s, a, b[..|b| - 1]);
    }
  }

  lemma NonePendingAllDelivered(s: State)
    requires Conserved(s) && s.pending == map[]
    ensures OnceEach(s.delivered)
    ensures forall c :: c in s.issued <==> Delivered(s.delivered, c)
  {
    forall c
      ensures c in s.issued <==> Delivered(s.delivered, c)
    {
      if Delivered(s.delivered, c) {
        var d :| d in s.delivered && d.call == c;
      }
    }
  }

  /** Once the shutdown handler has run, nothing is ever pending again: every callback issued before
      or after it has been invoked exactly once. */
  lemma NothingPendingAfterShutdown(sourceType: SourceType, before: seq<Event>, after: seq<Event>)
    requires Run(sourceType, INITIAL, before).stopping
    ensures var s := Run(sourceType, INITIAL, before + [Shutdown] + after);
            && s.pending == map[] && s.connection == Disconnected
            && OnceEach(s.delivered)
            && forall c :: c in s.issued <==> Delivered(s.delivered, c)
  {
    var down := before + [Shutdown];
    assert down[..|before|] == before;
    RunConcat(sourceType, INITIAL, down, after);
    StaysShut(sourceType, Run(sourceType, INITIAL, down), after);
    RunConserves(sourceType, down + after);
    NonePendingAllDelivered(Run(sourceType, INITIAL, down + after));
  }

  // ---------------------------------------------------------------- stale completions

  lemma {:induction false} RetiredStays(sourceType: SourceType, s: State, events: seq<Event>, id: nat)
    requires id <= s.nextId && id !in s.pending
    ensures var after := Run(sourceType, s, events); id <= after.nextId && id !in after.pending
  {
    if events != [] {
      RetiredStays(sourceType, s, events[..|events| - 1], id);
      StepRetires(sourceType, Run(sourceType, s, events[..|events| - 1]), events[|events| - 1], id);
    }
  }

  lemma StepRetires(sourceType: SourceType, s: State, e: Event, id: nat)
    requires id <= s.nextId && id !in s.pending
    ensures var after := Step(sourceType, s, e); id <= after.nextId && id !in after.pending
  {
  }

  /** Once a disconnect has started, no operation pending at that moment can later change the
      connection state, or anything else: its completion finds nothing, however late it comes. */
  lemma DisconnectRetiresPending(sourceType: SourceType, before: seq<Event>, has: bool, after: seq<Event>, id: nat, ok: bool)
    requires var s := Run(sourceType, INITIAL, before);
             !s.stopping && s.connection != Disconnected && id in s.pending
    ensures var s := Run(sourceType, Step(sourceType, Run(sourceType, INITIAL, before), Disconnect(has)), after);
            Step(sourceType, s, Complete(id, ok)) == s
  {
    RunConserves(sourceType, before);
    var s := Run(sourceType, INITIAL, before);
    RetiredStays(sourceType, Step(sourceType, s, Disconnect(has)), after, id);
  }

  /** A completion takes effect at most once. */
  lemma RepeatedCompletionIsIgnored(sourceType: SourceType, before: seq<Event>, after: seq<Event>, id: nat, ok: bool, again: bool)
    requires id in Run(sourceType, INITIAL, before).pending
    ensures var s := Run(sourceType, Completed(Run(sourceType, INITIAL, before), id, ok), after);
            Step(sourceType, s, Complete(id, again)) == s
  {
    RunConserves(sourceType, before);
    RetiredStays(sourceType, Completed(Run(sourceType, INITIAL, before), id, ok), after, id);
  }

  // ---------------------------------------------------------------- disconnected and quiet

  /** A disconnected source has nothing pending. */
  predicate Quiet(s: State) {
    s.connection == Disconnected ==> s.pending == map[]
  }

  /** A disconnect completes well while other operations, begun after it, are pending. */
  predicate Disturbs(s: State, e: Event) {
    && e.Complete? && e.ok && e.id in s.pending
    && s.pending[e.id].kind == DisconnectOperation && |s.pending| > 1
  }

  lemma WithoutIsEmptyExactly(pending: Table, id: nat)
    requires id in pending
    ensures pending - {id} == map[] <==> |pending| == 1
  {
    var rest := pending - {id};
    assert pending.Keys == rest.Keys + {id};
    assert |pending.Keys| == |rest.Keys| + 1;
    assert rest == map[] <==> rest.Keys == {};
  }

  /** Of all steps exactly such a completion leaves a disconnected source with something pending. */
  lemma StepQuietExactly(sourceType: SourceType, s: State, e: Event)
    requires Conserved(s) && Quiet(s)
    ensures Quiet(Step(sourceType, s, e)) <==> !Disturbs(s, e)
  {
    if e.Complete? && e.id in s.pending {
      WithoutIsEmptyExactly(s.pending, e.id);
    }
  }

  /** After every part of the run a disconnected source has nothing pending. */
  ghost predicate QuietThroughout(sourceType: SourceType, events: seq<Event>) {
    && Quiet(Run(sourceType, INITIAL, events))
    && (events != [] ==> QuietThroughout(sourceType, events[..|events| - 1]))
  }

  ghost predicate Undisturbed(sourceType: SourceType, events: seq<Event>) {
    events != [] ==>
      var init := events[..|events| - 1];
      Undisturbed(sourceType, init) && !Disturbs(Run(sourceType, INITIAL, init), events[|events| - 1])
  }

  /** In a run a disconnected source never has anything pending if and only if no disconnect of it
      completes well while operations begun after it are pending. */
  lemma {:induction false} RunQuietExactly(sourceType: SourceType, events: seq<Event>)
    ensures QuietThroughout(sourceType, events) <==> Undisturbed(sourceType, events)
  {
    if events != [] {
      var init := events[..|events| - 1];
      RunQuietExactly(sourceType, init);
      RunConserves(sourceType, init);
      if QuietThroughout(sourceType, init) {
        StepQuietExactly(sourceType, Run(sourceType, INITIAL, init), events[|events| - 1]);
      }
    }
  }

  /** Connecting is allowed while a disconnect is pending, so a Disconnected source may still have
      operations pending. */
  lemma DisconnectedWithPending(sourceType: SourceType)
    ensures var c := Connect(Config(sourceType, ""), true);
            var reconnected := Step(sourceType, Step(sourceType, Step(sourceType, INITIAL, c), Disconnect(true)), c);
            var s := Step(sourceType, reconnected, Complete(2, true));
            s.connection == Disconnected && s.pending.Keys == {3}
  {
  }

  // ---------------------------------------------------------------- where a connection state comes from

  /** The call that began an operation and its number among the calls. */
  datatype Origin = Origin(event: Event, call: nat)

  ghost function OriginOf(sourceType: SourceType, events: seq<Event>, id: nat): Option<Origin> {
    if events == [] then None
    else
      var init, e := events[..|events| - 1], events[|events| - 1];
      var before := Run(sourceType, INITIAL, init);
      if before.nextId < id <= Step(sourceType, before, e).nextId then Some(Origin(e, before.calls))
      else OriginOf(sourceType, init, id)
  }

  predicate IsCall(e: Event) {
    e.Connect? || e.Disconnect? || e.Reconnect? || e.Transmit?
  }

  /** An operation is of the kind of the call that began it and holds that call's callback. */
  predicate HasOrigin(operation: Operation, origin: Option<Origin>) {
    && origin.Some? && IsCall(origin.value.event)
    && operation.callback == (if origin.value.event.hasCallback then Some(origin.value.call) else None)
    && (operation.kind == ConnectOperation <==> origin.value.event.Connect? || origin.value.event.Reconnect?)
    && (operation.kind == DisconnectOperation <==> origin.value.event.Disconnect?)
  }

  lemma StepPends(sourceType: SourceType, s: State, e: Event, id: nat)
    requires id in Step(sourceType, s, e).pending
    ensures var t := Step(sourceType, s, e);
            && t.nextId >= s.nextId
            && if id == s.nextId + 1 == t.nextId then HasOrigin(t.pending[id], Some(Origin(e, s.calls)))
               else id in s.pending && t.pending[id] == s.pending[id]
  {
  }

  lemma PendingIdsAreKnown(s: State, id: nat)
    requires Conserved(s) && id in s.pending
    ensures id <= s.nextId
  {
  }

  lemma {:induction false} PendingHasOrigin(sourceType: SourceType, events: seq<Event>, id: nat)
    requires id in Run(sourceType, INITIAL, events).pending
    ensures HasOrigin(Run(sourceType, INITIAL, events).pending[id], OriginOf(sourceType, events, id))
  {
    var init, e := events[..|events| - 1], events[|events| - 1];
    var before := Run(sourceType, INITIAL, init);
    StepPends(sourceType, before, e, id);
    if id != before.nextId + 1 || id != Step(sourceType, before, e).nextId {
      RunConserves(sourceType, init);
      PendingIdsAreKnown(before, id);
      PendingHasOrigin(sourceType, init, id);
    }
  }

  /** The k-th event changes the connection state. */
  ghost predicate Changes(sourceType: SourceType, events: seq<Event>, k: nat)
    requires k < |events|
  {
    Run(sourceType, INITIAL, events[..k + 1]).connection != Run(sourceType, INITIAL, events[..k]).connection
  }

  /** The k-th event completes, well or not, a pending operation that a connect or reconnect began, or
      that a disconnect did. */
  ghost predicate Completes(sourceType: SourceType, events: seq<Event>, k: nat, ok: bool, disconnecting: bool)
    requires k < |events|
  {
    && events[k].Complete? && events[k].ok == ok && events[k].id in Run(sourceType, INITIAL, events[..k]).pending
    && var origin := OriginOf(sourceType, events[..k], events[k].id);
       origin.Some? && if disconnecting then origin.value.event.Disconnect? else origin.value.event.Connect? || origin.value.event.Reconnect?
  }

  /** The k-th event is one that leads to a connection state. */
  ghost predicate Leads(sourceType: SourceType, events: seq<Event>, k: nat, to: ConnectionState)
    requires k < |events|
  {
    match to
    case Ready => Completes(sourceType, events, k, true, false)
    case Faulted => Completes(sourceType, events, k, false, false) || Completes(sourceType, events, k, false, true)
    case Disconnected => Completes(sourceType, events, k, true, true) || events[k].Shutdown?
    case Connecting => events[k].Connect?
    case Reconnecting => events[k].Reconnect?
    case Disconnecting => events[k].Disconnect?
    case Initializing => false
  }

  /** The last event of a run that changed the connection state. */
  ghost predicate IsLastChange(sourceType: SourceType, events: seq<Event>, k: nat) {
    && k < |events| && Changes(sourceType, events, k)
    && forall j | k < j < |events| :: !Changes(sourceType, events, j)
  }

  lemma LastStepLeads(sourceType: SourceType, events: seq<Event>)
    requires events != [] && Changes(sourceType, events, |events| - 1)
    ensures Leads(sourceType, events, |events| - 1, Run(sourceType, INITIAL, events).connection)
  {
    var k := |events| - 1;
    assert events[..k + 1] == events;
    var e := events[k];
    if e.Complete? && e.id in Run(sourceType, INITIAL, events[..k]).pending {
      PendingHasOrigin(sourceType, events[..k], e.id);
    }
  }

  /** What an event does does not depend on what comes later. */
  lemma PrefixDecides(sourceType: SourceType, events: seq<Event>, n: nat, j: nat, to: ConnectionState)
    requires j < n <= |events|
    ensures Changes(sourceType, events[..n], j) == Changes(sourceType, events, j)
    ensures Leads(sourceType, events[..n], j, to) == Leads(sourceType, events, j, to)
  {
    assert events[..n][..j] == events[..j] && events[..n][..j + 1] == events[..j + 1] && events[..n][j] == events[j];
  }

  /** As long as no event changes the state it stays what it was after the first `n` events. */
  lemma {:induction false} StaysSince(sourceType: SourceType, events: seq<Event>, n: nat)
    requires n <= |events| && forall j | n <= j < |events| :: !Changes(sourceType, events, j)
    ensures Run(sourceType, INITIAL, events).connection == Run(sourceType, INITIAL, events[..n]).connection
  {
    if n == |events| {
      assert events[..n] == events;
    } else {
      var last := |events| - 1;
      forall j | n <= j < last
        ensures !Changes(sourceType, events[..last], j)
      {
        PrefixDecides(sourceType, events, last, j, Ready);
      }
      StaysSince(sourceType, events[..last], n);
      assert events[..last][..n] == events[..n] && events[..last + 1] == events;
      assert !Changes(sourceType, events, last);
    }
  }

  lemma QuietMeansInitial(sourceType: SourceType, events: seq<Event>)
    requires forall j | 0 <= j < |events| :: !Changes(sourceType, events, j)
    ensures Run(sourceType, INITIAL, events).connection == Disconnected
  {
    StaysSince(sourceType, events, 0);
    assert events[..0] == [];
  }

  lemma ConnectionSince(sourceType: SourceType, events: seq<Event>, k: nat)
    requires IsLastChange(sourceType, events, k)
    ensures Leads(sourceType, events, k, Run(sourceType, INITIAL, events).connection)
  {
    var state := Run(sourceType, INITIAL, events).connection;
    StaysSince(sourceType, events, k + 1);
    PrefixDecides(sourceType, events, k + 1, k, state);
    LastStepLeads(sourceType, events[..k + 1]);
  }

  /** Over all runs, if the k-th event was the last to change the state: the source is Ready exactly if
      that was the good completion of a pending connect or reconnect, Faulted exactly if it was the failed
      completion of a pending connect, reconnect or disconnect, and likewise for the other states. A
      source whose state never changed is Disconnected. */
  lemma ConnectionIsExplained(sourceType: SourceType, events: seq<Event>, k: nat, state: ConnectionState)
    ensures IsLastChange(sourceType, events, k) ==>
              (Run(sourceType, INITIAL, events).connection == state <==> Leads(sourceType, events, k, state))
    ensures (forall j | 0 <= j < |events| :: !Changes(sourceType, events, j)) ==>
              Run(sourceType, INITIAL, events).connection == Disconnected
  {
    if IsLastChange(sourceType, events, k) {
      ConnectionSince(sourceType, events, k);
    }
    if forall j | 0 <= j < |events| :: !Changes(sourceType, events, j) {
      QuietMeansInitial(sourceType, events);
    }
  }

  /** The configuration is that of the last connect accepted, and reconnecting uses it. */
  ghost function LastAccepted(sourceType: SourceType, events: seq<Event>): Option<Config> {
    if events == [] then None
    else
      var init, e := events[..|events| - 1], events[|events| - 1];
      if e.Connect? && e.config.sourceType == sourceType && !Run(sourceType, INITIAL, init).stopping then Some(e.config)
      else LastAccepted(sourceType, init)
  }

  lemma {:induction false} ConfigIsLastAccepted(sourceType: SourceType, events: seq<Event>)
    ensures Run(sourceType, INITIAL, events).config == LastAccepted(sourceType, events)
  {
    if events != [] {
      ConfigIsLastAccepted(sourceType, events[..|events| - 1]);
    }
  }

  // ---------------------------------------------------------------- why a callback was invoked

  /** The step invokes a callback with a reply. */
  predicate Delivers(sourceType: SourceType, s: State, e: Event, d: Delivery) {
    d in Step(sourceType, s, e).delivered && d !in s.delivered
  }

  predicate CompletesOwn(s: State, e: Event, call: nat, ok: bool) {
    e.Complete? && e.ok == ok && e.id in s.pending && s.pending[e.id].callback == Some(call)
  }

  /** Why a call is answered as it is. */
  predicate Explains(sourceType: SourceType, s: State, e: Event, d: Delivery) {
    var own := IsCall(e) && e.hasCallback && d.call == s.calls;
    match d.reply
    case Success => CompletesOwn(s, e, d.call, true) || (own && e.Disconnect? && !s.stopping && s.connection == Disconnected)
    case DriverError => CompletesOwn(s, e, d.call, false)
    case Cancelled =>
      || (own && s.stopping)
      || (d.call in Waiting(s.pending) && ((e.Disconnect? && !s.stopping && s.connection != Disconnected) || (e.Shutdown? && s.stopping)))
    case NotConnected => own && e.Transmit? && !s.stopping && s.connection != Ready
    case InvalidState =>
      own && !s.stopping && ((e.Connect? && e.config.sourceType != sourceType) || (e.Reconnect? && s.config.None?))
  }

  lemma DeliveryIsExplained(sourceType: SourceType, s: State, e: Event, d: Delivery)
    requires Conserved(s) && Delivers(sourceType, s, e, d)
    ensures Explains(sourceType, s, e, d)
  {
  }

  /** No step explains two replies to the same call. */
  lemma ExplanationIsUnique(sourceType: SourceType, s: State, e: Event, d: Delivery, reply: Reply)
    requires Conserved(s) && Explains(sourceType, s, e, d) && Explains(sourceType, s, e, Delivery(d.call, reply))
    ensures reply == d.reply
  {
  }

  /** Over all runs every reply delivered has its step, and the reply is the one that the step explains:
      success exactly for a good completion of the call's own operation or a disconnect of an already
      disconnected source, a driver error exactly for a failed completion, and otherwise the refusal or
      cancellation that applies. */
  lemma {:induction false} RepliesAreExplained(sourceType: SourceType, events: seq<Event>, d: Delivery) returns (k: nat)
    requires d in Run(sourceType, INITIAL, events).delivered
    ensures k < |events|
    ensures var s := Run(sourceType, INITIAL, events[..k]);
            && Delivers(sourceType, s, events[k], d)
            && forall reply :: Explains(sourceType, s, events[k], Delivery(d.call, reply)) <==> reply == d.reply
  {
    k := |events| - 1;
    var s := Run(sourceType, INITIAL, events[..k]);
    if d in s.delivered {
      var init := events[..k];
      k := RepliesAreExplained(sourceType, init, d);
      assert init[..k] == events[..k] && init[k] == events[k];
    } else {
      RunConserves(sourceType, events[..k]);
      DeliveryIsExplained(sourceType, s, events[k], d);
      forall reply | Explains(sourceType, s, events[k], Delivery(d.call, reply))
        ensures reply == d.reply
      {
        ExplanationIsUnique(sourceType, s, events[k], d, reply);
      }
    }
  }

  // ---------------------------------------------------------------- the source object

  class AsyncDataSource {
    const sourceType: SourceType
    var connection: ConnectionState
    var stopping: bool
    var config: Option<Config>
    var nextId: nat
    var pending: Table
    var calls: nat
    ghost var issued: set<nat>
    var delivered: multiset<Delivery>

    ghost function Model(): State
      reads this
    {
      State(connection, stopping, config, nextId, pending, calls, issued, delivered)
    }

    /** The callbacks issued are split into invoked once and still pending. */
    ghost predicate Valid()
      reads this
    {
      Conserved(Model())
    }

    constructor (sourceType: SourceType)
      ensures Valid()
      ensures this.sourceType == sourceType && Model() == INITIAL
    {
      this.sourceType := sourceType;
      connection, stopping, config := Disconnected, false, None;
      nextId, pending, calls := 0, map[], 0;
      issued, delivered := {}, multiset{};
    }

    // The methods down to StartDisconnect are parts of a step: between two of them a callback that was
    // issued may be in no table yet.

    /** Numbers an API call and hands its callback, if any, to the caller of this method. */
    method Issue(hasCallback: bool) returns (callback: Option<nat>)
      modifies this`calls, this`issued
      ensures callback == Callback(old(Model()), hasCallback)
      ensures Model() == Issued(old(Model()), hasCallback)
    {
      callback := if hasCallback then Some(calls) else None;
      if hasCallback {
        issued := issued + {calls};
      }
      calls := calls + 1;
    }

    method Invoke(callback: Option<nat>, reply: Reply)
      modifies this`delivered
      ensures Model() == old(Model()).(delivered := Deliver(old(delivered), callback, reply))
    {
      if callback.Some? {
        delivered := delivered + multiset{Delivery(callback.value, reply)};
      }
    }

    /** Invokes the callbacks of a detached table with a cancellation, in whatever order. */
    method InvokeAllCancelled(table: Table)
      requires OwnCallbacks(table)
      modifies this`delivered
      ensures Model() == old(Model()).(delivered := old(delivered) + multiset(Cancellations(table)))
    {
      var rest := table;
      while rest != map[]
        invariant OwnCallbacks(rest)
        invariant delivered + multiset(Cancellations(rest)) == old(delivered) + multiset(Cancellations(table))
        decreases |rest|
      {
        var id :| id in rest;
        var next := rest - {id};
        CancelOne(rest, id);
        Invoke(rest[id].callback, Cancelled);
        rest := next;
      }
      assert Cancellations(rest) == {};
    }

    method Pend(kind: Kind, callback: Option<nat>)
      modifies this`nextId, this`pending
      ensures Model() == old(Model()).(nextId := old(nextId) + 1, pending := old(pending)[old(nextId) + 1 := Operation(kind, callback)])
    {
      nextId := nextId + 1;
      pending := pending[nextId := Operation(kind, callback)];
    }

    method Reject(hasCallback: bool, reply: Reply)
      modifies this`calls, this`issued, this`delivered
      ensures Model() == Answered(old(Model()), hasCallback, reply)
    {
      var callback := Issue(hasCallback);
      Invoke(callback, reply);
    }

    method Start(kind: Kind, hasCallback: bool)
      modifies this`calls, this`issued, this`nextId, this`pending
      ensures Model() == Started(old(Model()), hasCallback, kind)
    {
      var callback := Issue(hasCallback);
      Pend(kind, callback);
    }

    /** Detaches the table, pends the disconnect and only then invokes the detached callbacks. */
    method StartDisconnect(hasCallback: bool)
      requires OwnCallbacks(pending)
      modifies this
      ensures Model() == Started(CancelAll(old(Model())), hasCallback, DisconnectOperation).(connection := Disconnecting)
    {
      connection := Disconnecting;
      var detached := pending;
      pending := map[];
      Start(DisconnectOperation, hasCallback);
      InvokeAllCancelled(detached);
    }

    method Connect(c: Config, hasCallback: bool)
      requires Valid()
      modifies this
      ensures Valid() && Model() == Step(sourceType, old(Model()), Event.Connect(c, hasCallback))
    {
      if stopping {
        Reject(hasCallback, Cancelled);
      } else if c.sourceType != sourceType {
        Reject(hasCallback, InvalidState);
      } else {
        connection := Connecting;
        config := Some(c);
        Start(ConnectOperation, hasCallback);
      }
      StepConserves(sourceType, old(Model()), Event.Connect(c, hasCallback));
    }

    method Disconnect(hasCallback: bool)
      requires Valid()
      modifies this
      ensures Valid() && Model() == Step(sourceType, old(Model()), Event.Disconnect(hasCallback))
    {
      if stopping {
        Reject(hasCallback, Cancelled);
      } else if connection == Disconnected {
        Reject(hasCallback, Success);
      } else {
        StartDisconnect(hasCallback);
      }
      StepConserves(sourceType, old(Model()), Event.Disconnect(hasCallback));
    }

    method Reconnect(hasCallback: bool)
      requires Valid()
      modifies this
      ensures Valid() && Model() == Step(sourceType, old(Model()), Event.Reconnect(hasCallback))
    {
      if stopping {
        Reject(hasCallback, Cancelled);
      } else if config.None? {
        Reject(hasCallback, InvalidState);
      } else {
        connection := Reconnecting;
        Start(ConnectOperation, hasCallback);
      }
      StepConserves(sourceType, old(Model()), Event.Reconnect(hasCallback));
    }

    method Transmit(hasCallback: bool)
      requires Valid()
      modifies this
      ensures Valid() && Model() == Step(sourceType, old(Model()), Event.Transmit(hasCallback))
    {
      if stopping {
        Reject(hasCallback, Cancelled);
      } else if connection != Ready {
        Reject(hasCallback, NotConnected);
      } else {
        Start(TransmitOperation, hasCallback);
      }
      StepConserves(sourceType, old(Model()), Event.Transmit(hasCallback));
    }

    /** A driver's completion of an operation, which may be late or repeated. */
    method Complete(id: nat, ok: bool)
      requires Valid()
      modifies this
      ensures Valid() && Model() == Step(sourceType, old(Model()), Event.Complete(id, ok))
    {
      StepConserves(sourceType, Model(), Event.Complete(id, ok));
      if id !in pending {
        return;
      }
      var operation := pending[id];
      pending := pending - {id};
      if operation.kind == ConnectOperation {
        connection := if ok then Ready else Faulted;
      } else if operation.kind == DisconnectOperation {
        connection := if ok then Disconnected else Faulted;
      }
      Invoke(operation.callback, if ok then Success else DriverError);
    }

    method BeginStop()
      requires Valid()
      modifies this
      ensures Valid() && Model() == Step(sourceType, old(Model()), Event.BeginStop)
    {
      StepConserves(sourceType, Model(), Event.BeginStop);
      stopping := true;
    }

    /** The handler the destructor posts after raising the stopping flag. */
    method Shutdown()
      requires stopping && Valid()
      modifies this
      ensures Valid() && Model() == Step(sourceType, old(Model()), Event.Shutdown)
    {
      StepConserves(sourceType, Model(), Event.Shutdown);
      var detached := pending;
      pending := map[];
      connection := Disconnected;
      InvokeAllCancelled(detached);
    }
  }

  lemma CancelOne(table: Table, id: nat)
    requires OwnCallbacks(table) && id in table
    ensures OwnCallbacks(table - {id})
    ensures multiset(Cancellations(table)) ==
            Deliver(multiset(Cancellations(table - {id})), table[id].callback, Cancelled)
  {
    var rest := table - {id};
    var one := if table[id].callback.Some? then {Delivery(table[id].callback.value, Cancelled)} else {};
    forall d
      ensures d in Cancellations(table) <==> d in Cancellations(rest) || d in one
      ensures !(d in Cancellations(rest) && d in one)
    {
      if d in Cancellations(table) {
        var i :| i in table && table[i].callback == Some(d.call);
        assert i == id || (i in rest && rest[i].callback == Some(d.call));
      }
      if d in Cancellations(rest) {
        var i :| i in rest && rest[i].callback == Some(d.call);
        assert i in table && table[i].callback == Some(d.call);
      }
      if d in one {
        assert id in table && table[id].callback == Some(d.call);
      }
    }
    assert Cancellations(table) == Cancellations(rest) + one;
  }
}
