/** What the engine keeps of the packets it has processed: the samples held, and what an operation noted. */
module EngineHeard {
  import opened Wrappers
  import opened Telemetry
  import opened Sources
  import opened EngineModel
  import opened EngineSafety
  import Scheduler

  lemma Regroup<T>(a: seq<T>, b: seq<T>, c: seq<T>)
    ensures a + (b + c) == (a + b) + c
  {
  }

  // ---------------------------------------------------------------- packets

  /** The live samples of an epoch's packets, in order. */
  function LiveOf(packets: seq<Packet>, epoch: nat): seq<Held> {
    if packets == [] then []
    else
      var p := packets[0];
      (if p.epoch == epoch && p.message.LiveData? && p.message.samples.Some?
       then seq(|p.message.samples.value|, i requires 0 <= i < |p.message.samples.value| => Held(epoch, p.message.samples.value[i]))
       else [])
      + LiveOf(packets[1..], epoch)
  }

  function MessagesOf(packets: seq<Packet>, epoch: nat): seq<Message> {
    if packets == [] then []
    else (if packets[0].epoch == epoch then [packets[0].message] else []) + MessagesOf(packets[1..], epoch)
  }

  lemma {:induction false} LiveAppends(a: seq<Packet>, b: seq<Packet>, epoch: nat)
    ensures LiveOf(a + b, epoch) == LiveOf(a, epoch) + LiveOf(b, epoch)
  {
    if a == [] {
      assert a + b == b;
    } else {
      assert (a + b)[1..] == a[1..] + b;
      LiveAppends(a[1..], b, epoch);
    }
  }

  lemma {:induction false} ProcessHolds(s: State)
    ensures ProcessPackets(s).held == s.held + LiveOf(s.queue, s.epoch)
    decreases |s.queue|
  {
    if s.queue != [] {
      var p, t := s.queue[0], s.(queue := s.queue[1..]);
      var u := HandlePacket(t, p);
      if p.message.LiveData? && p.message.samples.Some? {
        TaggedEpoch(p.epoch, p.message.samples.value);
      }
      ProcessHolds(u);
      assert s.held + LiveOf(s.queue, s.epoch) == u.held + LiveOf(s.queue[1..], s.epoch);
    }
  }

  /** The steps that process the packets waiting: a pass of the worker, and an answer of this epoch. */
  predicate Processes(s: State, e: Event) {
    || e.ProcessPacketsEvent?
    || (e.TransmitDoneEvent? && e.i < |s.unanswered| && s.unanswered[e.i].epoch == s.epoch)
  }

  /** The steps that begin an epoch: a swap, a set of a source that needs no disconnecting, and a
      request for one. */
  predicate BeginsEpoch(s: State, e: Event) {
    || e.SwapSourceEvent? || e.NewEpochEvent?
    || (e.SetSourceEvent? && (s.source.None? || s.source.value.state == Disconnected))
  }

  lemma StepHolds(s: State, e: Event)
    requires Invariant(s)
    ensures var t := Step(s, e);
            if BeginsEpoch(s, e) then t.epoch == s.epoch + 1 && t.held == [] && t.queue == []
            else
              && t.epoch == s.epoch
              && t.held == (if Processes(s, e) then s.held + LiveOf(s.queue, s.epoch) else s.held)
              && t.queue == if Processes(s, e) then []
                            else if e.PushEvent? && |s.queue| < 1024 then s.queue + [e.packet] else s.queue
  {
    match e
    case ProcessPacketsEvent => ProcessHolds(s); PacketsKeep(s);
    case TransmitDoneEvent(i, _, _, _, _, _) =>
      if i < |s.unanswered| {
        TransmitHolds(s, e);
      }
    case _ => if Cancels(e) { CancelHolds(s, e); }
  }

  lemma CancelHolds(s: State, e: Event)
    requires Invariant(s) && Cancels(e)
    ensures var t := Step(s, e);
            && t.epoch == (if BeginsEpoch(s, e) then s.epoch + 1 else s.epoch)
            && t.held == (if BeginsEpoch(s, e) then [] else s.held)
            && t.queue == (if BeginsEpoch(s, e) then [] else s.queue)
  {
  }

  lemma TransmitHolds(s: State, e: Event)
    requires Invariant(s) && e.TransmitDoneEvent? && e.i < |s.unanswered|
    ensures var t := Step(s, e);
            && t.epoch == s.epoch
            && t.held == (if Processes(s, e) then s.held + LiveOf(s.queue, s.epoch) else s.held)
            && t.queue == (if Processes(s, e) then [] else s.queue)
  {
    var t := s.(unanswered := s.unanswered[..e.i] + s.unanswered[e.i + 1..]);
    assert Invariant(t);
    ProcessKeeps(t);
    PacketsKeep(t);
    ProcessHolds(t);
    var u := ProcessPackets(t);
    var v := u.(scheduler := Scheduler.Completed(u.scheduler, e.roundTrip, !e.ok));
    FinishRequestMoves(v, s.unanswered[e.i].request, e.ok, e.lookupOk, e.settleAt, e.now);
    FinishRequestStays(v, s.unanswered[e.i].request, e.ok, e.lookupOk, e.settleAt, e.now);
  }

  lemma FinishRequestStays(s: State, r: Request, ok: bool, lookupOk: bool, settleAt: int, now: int)
    ensures FinishRequest(s, r, ok, lookupOk, settleAt, now).epoch == s.epoch
  {
  }

  // ---------------------------------------------------------------- samples held

  /** The packets the queue has accepted since the epoch began, in order of arrival. */
  ghost function Accepted(s: State, events: seq<Event>): seq<Packet>
    requires Invariant(s)
    decreases |events|
  {
    if events == [] then []
    else
      var init, e := events[..|events| - 1], events[|events| - 1];
      var before := Run(s, init);
      if BeginsEpoch(before, e) then []
      else if e.PushEvent? && |before.queue| < 1024 then Accepted(s, init) + [e.packet]
      else Accepted(s, init)
  }

  /** After a run the samples held, followed by those of the packets still waiting, are the live
      samples of the packets accepted since the epoch began, in order of arrival: none is lost,
      repeated, reordered or of another epoch. */
  lemma {:induction false} HeldAreTheArrivals(s: State, events: seq<Event>)
    requires Invariant(s) && s.held == [] && s.queue == []
    ensures var t := Run(s, events);
            t.held + LiveOf(t.queue, t.epoch) == LiveOf(Accepted(s, events), t.epoch)
    decreases |events|
  {
    if events != [] {
      var init, e := events[..|events| - 1], events[|events| - 1];
      var before := Run(s, init);
      HeldAreTheArrivals(s, init);
      StepHolds(before, e);
      if !BeginsEpoch(before, e) && e.PushEvent? && |before.queue| < 1024 {
        LiveAppends(before.queue, [e.packet], before.epoch);
        LiveAppends(Accepted(s, init), [e.packet], before.epoch);
        Regroup(before.held, LiveOf(before.queue, before.epoch), LiveOf([e.packet], before.epoch));
      } else if Processes(before, e) {
        assert Run(s, events).held + [] == Run(s, events).held;
      }
    }
  }

  // ---------------------------------------------------------------- messages noted

  /** The messages of its epoch that were processed during a run, in order. */
  ghost function Heard(s: State, events: seq<Event>): seq<Message>
    requires Invariant(s)
    decreases |events|
  {
    if events == [] then []
    else
      var init, e := events[..|events| - 1], events[|events| - 1];
      var before := Run(s, init);
      Heard(s, init) + if Processes(before, e) then MessagesOf(before.queue, before.epoch) else []
  }

  function NotedAll(op: Operation, messages: seq<Message>): Operation
    decreases |messages|
  {
    if messages == [] then op else NotedAll(Noted(op, messages[0]), messages[1..])
  }

  lemma {:induction false} ProcessNotes(s: State)
    requires s.operation.Some? && s.operation.value.epoch == s.epoch
    ensures ProcessPackets(s).operation == Some(NotedAll(s.operation.value, MessagesOf(s.queue, s.epoch)))
    decreases |s.queue|
  {
    if s.queue != [] {
      var p, t := s.queue[0], s.(queue := s.queue[1..]);
      var u := HandlePacket(t, p);
      var rest := MessagesOf(s.queue[1..], s.epoch);
      assert MessagesOf(s.queue, s.epoch) == (if p.epoch == s.epoch then [p.message] else []) + rest;
      if p.epoch == s.epoch {
        assert u.operation == Some(Noted(s.operation.value, p.message));
        assert ([p.message] + rest)[1..] == rest;
      } else {
        assert [] + rest == rest;
      }
      ProcessNotes(u);
    }
  }

  function ItemsOf(messages: seq<Message>): seq<EcuMetadata> {
    if messages == [] then []
    else
      (if messages[0].Identification? && messages[0].item.Some? then [messages[0].item.value] else []) + ItemsOf(messages[1..])
  }

  function CodesOf(messages: seq<Message>): seq<nat> {
    if messages == [] then []
    else (if messages[0].Codes? && messages[0].codes.Some? then messages[0].codes.value else []) + CodesOf(messages[1..])
  }

  lemma {:induction false} ItemsAppend(a: seq<Message>, b: seq<Message>)
    ensures ItemsOf(a + b) == ItemsOf(a) + ItemsOf(b)
  {
    if a == [] {
      assert a + b == b;
    } else {
      assert (a + b)[1..] == a[1..] + b;
      ItemsAppend(a[1..], b);
      Regroup(if a[0].Identification? && a[0].item.Some? then [a[0].item.value] else [], ItemsOf(a[1..]), ItemsOf(b));
    }
  }

  lemma {:induction false} CodesAppend(a: seq<Message>, b: seq<Message>)
    ensures CodesOf(a + b) == CodesOf(a) + CodesOf(b)
  {
    if a == [] {
      assert a + b == b;
    } else {
      assert (a + b)[1..] == a[1..] + b;
      CodesAppend(a[1..], b);
      Regroup(if a[0].Codes? && a[0].codes.Some? then a[0].codes.value else [], CodesOf(a[1..]), CodesOf(b));
    }
  }

  /** The ECUs of some items, in order of first appearance. */
  function Ecus(items: seq<EcuMetadata>): seq<Option<EcuAddress>> {
    if items == [] then []
    else
      var before, last := Ecus(items[..|items| - 1]), items[|items| - 1].ecu;
      if last in before then before else before + [last]
  }

  /** The first VIN that an ECU reported, if it reported one. */
  function VinOf(items: seq<EcuMetadata>, ecu: Option<EcuAddress>): string {
    if items == [] then ""
    else
      var before, last := VinOf(items[..|items| - 1], ecu), items[|items| - 1];
      if before == "" && last.ecu == ecu then last.vin else before
  }

  /** One entry for each ECU, with its first VIN. */
  function PerEcu(items: seq<EcuMetadata>): (r: seq<EcuMetadata>)
    ensures |r| == |Ecus(items)|
    ensures forall i | 0 <= i < |r| :: r[i] == EcuMetadata(Ecus(items)[i], VinOf(items, Ecus(items)[i]))
  {
    seq(|Ecus(items)|, i requires 0 <= i < |Ecus(items)| => EcuMetadata(Ecus(items)[i], VinOf(items, Ecus(items)[i])))
  }

  lemma {:induction false} EcusAreDistinct(items: seq<EcuMetadata>)
    ensures forall i, j | 0 <= i < j < |Ecus(items)| :: Ecus(items)[i] != Ecus(items)[j]
    ensures forall ecu :: ecu !in Ecus(items) ==> VinOf(items, ecu) == ""
    ensures Ecus(items) == [] <==> items == []
  {
    if items != [] {
      EcusAreDistinct(items[..|items| - 1]);
    }
  }

  lemma {:induction false} IndexOfEcu(metadata: seq<EcuMetadata>, ecu: Option<EcuAddress>)
    ensures var k := IndexOf(metadata, ecu);
            && (k < |metadata| ==> metadata[k].ecu == ecu)
            && forall i | 0 <= i < k :: metadata[i].ecu != ecu
  {
    if metadata != [] && metadata[0].ecu != ecu {
      IndexOfEcu(metadata[1..], ecu);
      var k := IndexOf(metadata[1..], ecu);
      assert forall i | 0 < i < k + 1 :: metadata[i] == metadata[1..][i - 1];
    }
  }

  lemma MergedIsPerEcu(op: Operation, items: seq<EcuMetadata>, item: EcuMetadata)
    requires op.metadata == PerEcu(items)
    ensures Merged(op, item).metadata == PerEcu(items + [item])
  {
    var all := items + [item];
    assert all[..|items|] == items;
    EcusAreDistinct(items);
    IndexOfEcu(op.metadata, item.ecu);
    var k := IndexOf(op.metadata, item.ecu);
    forall ecu | ecu != item.ecu
      ensures VinOf(all, ecu) == VinOf(items, ecu)
    {
    }
    if k < |op.metadata| {
      assert Ecus(items)[k] == item.ecu && Ecus(all) == Ecus(items);
      assert forall i | 0 <= i < |op.metadata| && i != k :: op.metadata[i] == PerEcu(all)[i];
    } else {
      assert item.ecu !in Ecus(items) by {
        assert forall i | 0 <= i < |Ecus(items)| :: op.metadata[i].ecu == Ecus(items)[i];
      }
      assert VinOf(all, item.ecu) == item.vin;
    }
  }

  /** The metadata an operation has noted are the entries per ECU of the items it was told. */
  lemma {:induction false} MetadataNoted(op: Operation, items: seq<EcuMetadata>, messages: seq<Message>)
    requires op.metadata == PerEcu(items)
    ensures NotedAll(op, messages).metadata == PerEcu(items + ItemsOf(messages))
    decreases |messages|
  {
    if messages == [] {
      assert items + [] == items;
    } else {
      var m, rest := messages[0], messages[1..];
      if m.Identification? && m.item.Some? {
        MergedIsPerEcu(op, items, m.item.value);
        MetadataNoted(Noted(op, m), items + [m.item.value], rest);
        Regroup(items, [m.item.value], ItemsOf(rest));
      } else {
        MetadataNoted(Noted(op, m), items, rest);
        assert [] + ItemsOf(rest) == ItemsOf(rest);
      }
    }
  }

  /** The codes an operation is told are appended, and nothing else is. */
  lemma {:induction false} CodesNoted(op: Operation, messages: seq<Message>)
    ensures NotedAll(op, messages).codes == op.codes + CodesOf(messages)
    decreases |messages|
  {
    if messages == [] {
      assert op.codes + [] == op.codes;
    } else {
      var m, rest := messages[0], messages[1..];
      CodesNoted(Noted(op, m), rest);
      if m.Codes? && m.codes.Some? {
        Regroup(op.codes, m.codes.value, CodesOf(rest));
      } else {
        assert [] + CodesOf(rest) == CodesOf(rest);
      }
    }
  }

  /** A clear has noted a positive reply if and only if it was told one. */
  lemma {:induction false} ReplyNoted(op: Operation, messages: seq<Message>)
    ensures var noted := NotedAll(op, messages);
            noted.kind == op.kind &&
            (noted.positiveReply <==> op.positiveReply || (op.kind == Clear && ClearReply(true) in messages))
    decreases |messages|
  {
    if messages != [] {
      ReplyNoted(Noted(op, messages[0]), messages[1..]);
      assert messages == [messages[0]] + messages[1..];
    }
  }
}
