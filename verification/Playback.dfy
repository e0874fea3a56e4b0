/** The replay of an indexed session: seek by checkpoint, one-record look-ahead, scaled due times. */
module Playback {
  import opened Wrappers
  import opened Session

  datatype Replayed = Replayed(elapsed: nat, sequence: nat, ecu: Option<EcuAddress>, payload: seq<Byte>)

  datatype PlaybackState = Stopped | Paused | Playing

  datatype Speed = Half | One | Two | Five

  function ParseSpeed(multiplier: real): Option<Speed> {
    if multiplier == 0.5 then Some(Half)
    else if multiplier == 1.0 then Some(One)
    else if multiplier == 2.0 then Some(Two)
    else if multiplier == 5.0 then Some(Five)
    else None
  }

  /** Playback time gone by in `wall` microseconds, and wall time needed for `delta` microseconds. */
  function Advanced(wall: int, speed: Speed): int {
    match speed
    case Half => TruncDiv(wall, 2)
    case One => wall
    case Two => wall * 2
    case Five => wall * 5
  }

  function Scaled(delta: int, speed: Speed): int {
    match speed
    case Half => delta * 2
    case One => delta
    case Two => TruncDiv(delta, 2)
    case Five => TruncDiv(delta, 5)
  }

  /** Exactly four multipliers are accepted, each as its own speed. */
  lemma SpeedsExactly(m: real)
    ensures ParseSpeed(m) == Some(Half) <==> m == 0.5
    ensures ParseSpeed(m) == Some(One) <==> m == 1.0
    ensures ParseSpeed(m) == Some(Two) <==> m == 2.0
    ensures ParseSpeed(m) == Some(Five) <==> m == 5.0
  {
  }

  /** For every multiplier accepted, wall time is playback time divided by it and playback time is wall
      time multiplied by it, rounded toward zero. */
  lemma ScaledMeaning(m: real, speed: Speed, t: int)
    requires ParseSpeed(m) == Some(speed)
    ensures Scaled(t, speed) == Truncated(t as real / m)
    ensures Advanced(t, speed) == Truncated(t as real * m)
  {
    match speed
    case Half =>
      assert t as real / m == (t * 2) as real;
      IntegersStay(t * 2);
      HalvesAreTruncated(t);
    case One =>
      IntegersStay(t);
    case Two =>
      assert t as real * m == (t * 2) as real;
      IntegersStay(t * 2);
      HalvesAreTruncated(t);
    case Five =>
      assert t as real * m == (t * 5) as real;
      IntegersStay(t * 5);
      FifthsAreTruncated(t);
  }

  lemma HalvesAreTruncated(t: int)
    ensures Truncated(t as real / 2.0) == Truncated(t as real * 0.5) == TruncDiv(t, 2)
  {
  }

  lemma FifthsAreTruncated(t: int)
    ensures Truncated(t as real / 5.0) == TruncDiv(t, 5)
  {
  }

  lemma IntegersStay(t: int)
    ensures Truncated(t as real) == t
  {
  }

  lemma ScaledIsMonotone(a: int, b: int, speed: Speed)
    requires a <= b
    ensures Scaled(a, speed) <= Scaled(b, speed)
  {
  }

  // ---------------------------------------------------------------- the records of a file

  predicate IsObd(line: Line) {
    line.Parsed? && line.record.ObdMessage?
  }

  function Decode(line: Line): Replayed
    requires IsObd(line)
  {
    var r := line.record;
    Replayed(r.elapsed, r.sequence, ParseAddress(r.ecu), if ValidUpperHex(r.payloadHex) then DecodeHex(r.payloadHex) else [])
  }

  /** The OBD records from line `k` on: what a full scan from there replays. */
  function ObdFrom(lines: seq<Line>, k: nat): seq<Replayed>
    decreases |lines| - k
  {
    if k >= |lines| then []
    else if IsObd(lines[k]) then [Decode(lines[k])] + ObdFrom(lines, k + 1)
    else ObdFrom(lines, k + 1)
  }

  /** Times do not go back and stay within the session. */
  predicate Timed(rs: seq<Replayed>, duration: int) {
    rs != [] ==>
      && rs[0].elapsed <= duration
      && (|rs| > 1 ==> rs[0].elapsed <= rs[1].elapsed)
      && Timed(rs[1..], duration)
  }

  lemma {:induction false} TimedFromFirst(rs: seq<Replayed>, duration: int, i: nat)
    requires Timed(rs, duration) && i < |rs|
    ensures rs[0].elapsed <= rs[i].elapsed
  {
    if i > 0 {
      TimedFromFirst(rs[1..], duration, i - 1);
    }
  }

  lemma {:induction false} TimedSuffix(a: seq<Replayed>, b: seq<Replayed>, duration: int)
    requires Timed(a + b, duration)
    ensures Timed(b, duration)
  {
    if a == [] {
      assert a + b == b;
    } else {
      assert (a + b)[1..] == a[1..] + b;
      TimedSuffix(a[1..], b, duration);
    }
  }

  lemma {:induction false} ObdIsTimed(lines: seq<Line>, k: nat)
    requires lines != [] && InTimeOrder(lines)
    ensures var rs := ObdFrom(lines, k);
            && Timed(rs, Elapsed(lines[|lines| - 1]))
            && (rs != [] ==> k < |lines| && Elapsed(lines[k]) <= rs[0].elapsed)
    decreases |lines| - k
  {
    if k < |lines| {
      ObdIsTimed(lines, k + 1);
      var rest := ObdFrom(lines, k + 1);
      if IsObd(lines[k]) {
        assert ObdFrom(lines, k)[1..] == rest;
      }
    }
  }

  /** Moving `out` from the front of what remains to the end of what is published. */
  lemma Move(published: seq<Replayed>, openedAt: nat, out: seq<Replayed>, rest: seq<Replayed>)
    requires openedAt <= |published|
    ensures (published + out)[openedAt..] + rest == published[openedAt..] + (out + rest)
  {
  }

  lemma SinceThen(published: seq<Replayed>, out: seq<Replayed>)
    ensures (published + out)[|published|..] == out
  {
  }

  lemma Regroup(a: seq<Replayed>, b: seq<Replayed>, c: seq<Replayed>)
    ensures a + (b + c) == (a + b) + c
  {
  }

  function Since(rs: seq<Replayed>, start: int): seq<Replayed> {
    if rs == [] then []
    else (if rs[0].elapsed >= start then [rs[0]] else []) + Since(rs[1..], start)
  }

  function Between(rs: seq<Replayed>, start: int, target: int): seq<Replayed> {
    if rs == [] then []
    else (if start <= rs[0].elapsed <= target then [rs[0]] else []) + Between(rs[1..], start, target)
  }

  lemma OneMore(r: Replayed, rs: seq<Replayed>, start: int, target: int)
    ensures Since([r] + rs, start) == if r.elapsed >= start then [r] + Since(rs, start) else Since(rs, start)
    ensures Between([r] + rs, start, target) ==
            if start <= r.elapsed <= target then [r] + Between(rs, start, target) else Between(rs, start, target)
  {
    assert ([r] + rs)[1..] == rs;
  }

  lemma {:induction false} EarlyLinesAreSkipped(lines: seq<Line>, k: nat, offset: nat, start: int)
    requires k <= offset <= |lines|
    requires forall i | k <= i < offset :: Elapsed(lines[i]) < start
    ensures Since(ObdFrom(lines, k), start) == Since(ObdFrom(lines, offset), start)
    decreases offset - k
  {
    if k < offset {
      EarlyLinesAreSkipped(lines, k + 1, offset, start);
      if IsObd(lines[k]) {
        assert ObdFrom(lines, k)[1..] == ObdFrom(lines, k + 1);
      }
    }
  }

  lemma {:induction false} SinceAll(rs: seq<Replayed>, start: int, duration: int)
    requires Timed(rs, duration) && (rs != [] ==> rs[0].elapsed >= start)
    ensures Since(rs, start) == rs
  {
    if rs != [] {
      SinceAll(rs[1..], start, duration);
    }
  }

  lemma {:induction false} SinceIsTimed(rs: seq<Replayed>, start: int, duration: int)
    requires Timed(rs, duration)
    ensures Timed(Since(rs, start), duration)
  {
    if rs != [] {
      if rs[0].elapsed >= start {
        SinceAll(rs, start, duration);
      } else {
        SinceIsTimed(rs[1..], start, duration);
        assert Since(rs, start) == Since(rs[1..], start);
      }
    }
  }

  lemma {:induction false} BetweenOfSince(rs: seq<Replayed>, start: int, target: int)
    ensures Between(rs, start, target) == Between(Since(rs, start), start, target)
  {
    if rs != [] {
      BetweenOfSince(rs[1..], start, target);
      var since := Since(rs, start);
      if rs[0].elapsed >= start {
        assert since[0] == rs[0] && since[1..] == Since(rs[1..], start);
      } else {
        assert since == Since(rs[1..], start);
      }
    }
  }

  lemma SameSinceSameBetween(a: seq<Replayed>, b: seq<Replayed>, start: int, target: int)
    requires Since(a, start) == Since(b, start)
    ensures Between(a, start, target) == Between(b, start, target)
  {
    BetweenOfSince(a, start, target);
    BetweenOfSince(b, start, target);
  }

  lemma {:induction false} NothingBetween(rs: seq<Replayed>, start: int, target: int, duration: int)
    requires Timed(rs, duration) && (rs != [] ==> rs[0].elapsed > target)
    ensures Between(rs, start, target) == []
  {
    if rs != [] {
      NothingBetween(rs[1..], start, target, duration);
    }
  }

  // ---------------------------------------------------------------- seeking

  /** The last checkpoint not after `start`; the first one if all are after it. */
  function SeekOffset(checkpoints: seq<Checkpoint>, start: int): nat {
    if checkpoints == [] then 0
    else if |checkpoints| == 1 || checkpoints[|checkpoints| - 1].elapsed <= start then checkpoints[|checkpoints| - 1].offset
    else SeekOffset(checkpoints[..|checkpoints| - 1], start)
  }

  lemma {:induction false} OffsetOfUpperBound(checkpoints: seq<Checkpoint>, start: int, k: nat)
    requires k <= |checkpoints|
    requires k > 0 ==> checkpoints[k - 1].elapsed <= start
    requires forall c | k <= c < |checkpoints| :: checkpoints[c].elapsed > start
    ensures SeekOffset(checkpoints, start) ==
            if checkpoints == [] then 0 else checkpoints[if k == 0 then 0 else k - 1].offset
  {
    if |checkpoints| > 1 && k < |checkpoints| {
      OffsetOfUpperBound(checkpoints[..|checkpoints| - 1], start, k);
    }
  }

  /** The seek starts at the last checkpoint not after `start`. */
  lemma SeekOffsetIsLast(checkpoints: seq<Checkpoint>, start: int, k: nat)
    requires forall c, d | 0 <= c < d < |checkpoints| :: checkpoints[c].elapsed < checkpoints[d].elapsed
    requires k < |checkpoints| && checkpoints[k].elapsed <= start
    requires k + 1 < |checkpoints| ==> checkpoints[k + 1].elapsed > start
    ensures SeekOffset(checkpoints, start) == checkpoints[k].offset
  {
    OffsetOfUpperBound(checkpoints, start, k + 1);
  }

  lemma {:induction false} SeekOffsetIsEarly(lines: seq<Line>, checkpoints: seq<Checkpoint>, start: int)
    requires start >= 0
    requires forall c | 0 <= c < |checkpoints| :: Separates(lines, checkpoints[c])
    requires checkpoints != [] ==> checkpoints[0].elapsed == 0
    ensures var offset := SeekOffset(checkpoints, start);
            offset <= |lines| && (lines != [] ==> offset < |lines|) && forall i | 0 <= i < offset :: Elapsed(lines[i]) < start
  {
    var last := |checkpoints| - 1;
    if checkpoints != [] {
      assert Separates(lines, checkpoints[last]);
      if |checkpoints| > 1 && checkpoints[last].elapsed > start {
        SeekOffsetIsEarly(lines, checkpoints[..last], start);
      }
    }
  }

  /** Starting at the chosen checkpoint loses nothing from `start` on: the records from there that
      are not earlier than `start` are those of the whole file. */
  lemma IndexedSeekIsFullScan(lines: seq<Line>, start: int)
    requires ValidSession(lines) && start >= 0
    ensures var offset := SeekOffset(Checkpoints(lines), start);
            offset < |lines| && Since(ObdFrom(lines, offset), start) == Since(ObdFrom(lines, 0), start)
  {
    CheckpointsAscend(lines);
    forall c | 0 <= c < |Checkpoints(lines)|
      ensures Separates(lines, Checkpoints(lines)[c])
    {
      CheckpointsSeparate(lines, c);
    }
    SeekOffsetIsEarly(lines, Checkpoints(lines), start);
    EarlyLinesAreSkipped(lines, 0, SeekOffset(Checkpoints(lines), start), start);
  }

  // ---------------------------------------------------------------- due times

  /** Playing on at `speed` from the position `us` at the wall-clock time `wall`. */
  datatype Anchor = Anchor(wall: int, us: int, speed: Speed)

  function DueAt(a: Anchor, r: Replayed): int {
    a.wall + Scaled(r.elapsed - a.us, a.speed) * NS_PER_US
  }

  /** A stretch of wall time at a speed, before rounding. */
  function Stretched(wall: int, speed: Speed): real {
    match speed
    case Half => wall as real * 0.5
    case One => wall as real
    case Two => wall as real * 2.0
    case Five => wall as real * 5.0
  }

  /** The playback time gone by since an anchor: whole microseconds of wall time times the multiplier,
      rounded toward zero. */
  function GoneBy(a: Anchor, now: int): int {
    Truncated(Stretched(TruncDiv(now - a.wall, NS_PER_US), a.speed))
  }

  lemma StretchedMeaning(m: real, speed: Speed, wall: int)
    requires ParseSpeed(m) == Some(speed)
    ensures Stretched(wall, speed) == wall as real * m
  {
  }

  lemma StretchedIsAdvanced(wall: int, speed: Speed)
    ensures Truncated(Stretched(wall, speed)) == Advanced(wall, speed)
  {
    match speed
    case Half => HalvesAreTruncated(wall);
    case One => IntegersStay(wall);
    case Two => IntegersStay(wall * 2);
    case Five => IntegersStay(wall * 5);
  }

  /** The position that playing on from an anchor has reached, within the session. */
  function PositionAt(a: Anchor, duration: int, now: int): int {
    Max(0, Min(duration, a.us + GoneBy(a, now)))
  }

  /** The grain of playback time: how much of it goes by in a microsecond of wall time, at least one. */
  function Grain(speed: Speed): int {
    match speed
    case Half => 1
    case One => 1
    case Two => 2
    case Five => 5
  }

  lemma WholeMicroseconds(us: int, ns: int)
    requires ns >= 0
    ensures us * NS_PER_US <= ns <==> us <= TruncDiv(ns, NS_PER_US)
  {
  }

  lemma ScaledMeetsAdvanced(delta: int, wall: int, speed: Speed)
    requires delta >= 0 && wall >= 0
    ensures Advanced(wall, speed) >= delta ==> Scaled(delta, speed) <= wall
    ensures Scaled(delta, speed) <= wall ==> Advanced(wall, speed) > delta - Grain(speed)
  {
  }

  /** A record not before the anchor is due once the virtual position has reached it, and the position
      is then short of it by less than a grain. */
  lemma DueMeetsPosition(a: Anchor, r: Replayed, now: int)
    requires r.elapsed >= a.us && now >= a.wall
    ensures var reached := a.us + Advanced(TruncDiv(now - a.wall, NS_PER_US), a.speed);
            && (reached >= r.elapsed ==> DueAt(a, r) <= now)
            && (DueAt(a, r) <= now ==> reached > r.elapsed - Grain(a.speed))
  {
    WholeMicroseconds(Scaled(r.elapsed - a.us, a.speed), now - a.wall);
    ScaledMeetsAdvanced(r.elapsed - a.us, TruncDiv(now - a.wall, NS_PER_US), a.speed);
  }

  /** When a record is due: at the anchor's time plus its distance divided by the multiplier. */
  lemma DueAtMeaning(a: Anchor, r: Replayed, m: real)
    requires ParseSpeed(m) == Some(a.speed)
    ensures DueAt(a, r) == a.wall + Truncated((r.elapsed - a.us) as real / m) * 1000
  {
    ScaledMeaning(m, a.speed, r.elapsed - a.us);
  }

  predicate AllDue(a: Anchor, rs: seq<Replayed>, now: int) {
    forall i | 0 <= i < |rs| :: DueAt(a, rs[i]) <= now
  }

  predicate NoneDue(a: Anchor, rs: seq<Replayed>, now: int) {
    forall i | 0 <= i < |rs| :: DueAt(a, rs[i]) > now
  }

  lemma {:induction false} LaterRecordsAreDueLater(a: Anchor, rs: seq<Replayed>, now: int, duration: int)
    requires Timed(rs, duration) && rs != [] && DueAt(a, rs[0]) > now
    ensures NoneDue(a, rs, now)
  {
    forall i | 0 <= i < |rs|
      ensures DueAt(a, rs[i]) > now
    {
      TimedFromFirst(rs, duration, i);
      ScaledIsMonotone(rs[0].elapsed - a.us, rs[i].elapsed - a.us, a.speed);
    }
  }

  /** The position after some records were published, from a position before them. */
  function StandsAt(out: seq<Replayed>, before: int): int {
    if out == [] then before else out[|out| - 1].elapsed
  }

  lemma StandsAtLast(out: seq<Replayed>, r: Replayed, before: int)
    ensures StandsAt(out + [r], before) == r.elapsed
  {
  }

  lemma AppendDue(a: Anchor, rs: seq<Replayed>, r: Replayed, now: int)
    requires AllDue(a, rs, now) && DueAt(a, r) <= now
    ensures AllDue(a, rs + [r], now)
  {
  }

  // ---------------------------------------------------------------- the player

  function Look(next: Option<Replayed>): seq<Replayed> {
    if next.Some? then [next.value] else []
  }

  /** A connected playback source with looping off. Wall-clock times are in nanoseconds. */
  class Player {
    const lines: seq<Line>
    const checkpoints: seq<Checkpoint>
    const duration: nat
    var position: int
    var state: PlaybackState
    var speed: Speed
    var playAnchor: int
    var playAnchorUs: int
    var next: Option<Replayed>
    var cursor: nat
    var generation: nat
    var published: seq<Replayed>
    /** The records due since the file was last opened at a point, and how many were published before. */
    ghost var owed: seq<Replayed>
    ghost var since: int
    ghost var openedAt: nat

    function Remaining(): seq<Replayed>
      reads this`next, this`cursor
    {
      Look(next) + ObdFrom(lines, cursor)
    }

    lemma OwedIsTimed()
      requires Valid()
      ensures Timed(owed, duration)
    {
      ObdIsTimed(lines, 0);
      SinceIsTimed(ObdFrom(lines, 0), since, duration);
    }

    lemma RemainingIsTimed()
      requires Valid()
      ensures Timed(Remaining(), duration) && (Remaining() != [] ==> Remaining()[0].elapsed <= duration)
    {
      OwedIsTimed();
      TimedSuffix(published[openedAt..], Remaining(), duration);
    }

    /** Published, looked ahead and unread together are what was owed: nothing lost, repeated or reordered. */
    ghost predicate Valid()
      reads this
    {
      && ValidSession(lines) && checkpoints == Checkpoints(lines) && duration == Elapsed(lines[|lines| - 1])
      && openedAt <= |published|
      && published[openedAt..] + Remaining() == owed
      && owed == Since(ObdFrom(lines, 0), since)
      && 0 <= position <= duration
    }

    constructor (lines: seq<Line>, index: Index, speed: Speed)
      requires ValidSession(lines)
      requires index == Index(Checkpoints(lines), Elapsed(lines[|lines| - 1]))
      ensures Valid() && fresh(this)
      ensures this.lines == lines && state == Paused && position == 0 && published == []
      ensures owed == Remaining() == ObdFrom(lines, 0) && openedAt == 0 && this.speed == speed
    {
      this.lines, checkpoints, duration := lines, index.checkpoints, index.duration;
      position, state, this.speed := 0, Paused, speed;
      playAnchor, playAnchorUs, next, cursor, generation, published := 0, 0, None, 0, 1, [];
      owed, since, openedAt := ObdFrom(lines, 0), 0, 0;
      new;
      ObdIsTimed(lines, 0);
      SinceAll(owed, 0, duration);
      assert [] + ObdFrom(lines, 0) == ObdFrom(lines, 0);
    }

    function Pace(): Anchor
      reads this`playAnchor, this`playAnchorUs, this`speed
    {
      Anchor(playAnchor, playAnchorUs, speed)
    }

    ghost predicate SameOpening(owed0: seq<Replayed>, openedAt0: nat)
      reads this
    {
      owed == owed0 && openedAt == openedAt0
    }

    function CurrentVirtualPosition(now: int): int
      reads this
    {
      if state != Playing then position
      else
        var wall := TruncDiv(now - playAnchor, NS_PER_US);
        Max(0, Min(duration, playAnchorUs + Advanced(wall, speed)))
    }

    lemma VirtualPositionIsReached(now: int)
      ensures CurrentVirtualPosition(now) == if state == Playing then PositionAt(Pace(), duration, now) else position
    {
      StretchedIsAdvanced(TruncDiv(now - playAnchor, NS_PER_US), speed);
    }

    method ReadNextObd() returns (r: Option<Replayed>)
      modifies this`cursor
      ensures r.None? ==> ObdFrom(lines, old(cursor)) == [] && ObdFrom(lines, cursor) == []
      ensures r.Some? ==> ObdFrom(lines, old(cursor)) == [r.value] + ObdFrom(lines, cursor)
      ensures cursor >= old(cursor) && (r.Some? ==> old(cursor) < cursor <= |lines|)
    {
      while cursor < |lines|
        invariant old(cursor) <= cursor
        invariant ObdFrom(lines, cursor) == ObdFrom(lines, old(cursor))
      {
        var line := lines[cursor];
        cursor := cursor + 1;
        if IsObd(line) {
          return Some(Decode(line));
        }
      }
      return None;
    }

    /** Publishes the look-ahead record. */
    method PublishNext()
      requires next.Some?
      modifies this`published, this`next, this`position
      ensures published == old(published) + [old(next).value] && next == None && position == old(next).value.elapsed
      ensures old(Remaining()) == [old(next).value] + Remaining()
    {
      position := next.value.elapsed;
      published := published + [next.value];
      next := None;
    }

    /** Fills the look-ahead if it is empty and a record is left. */
    method FillNext() returns (found: bool)
      modifies this`cursor, this`next
      ensures Remaining() == old(Remaining()) && cursor >= old(cursor)
      ensures found <==> next.Some?
      ensures !found ==> Remaining() == []
      ensures old(next).None? && found ==> old(cursor) < cursor <= |lines|
      ensures old(next).Some? ==> next == old(next) && cursor == old(cursor)
    {
      if next.None? {
        next := ReadNextObd();
      }
      found := next.Some?;
    }

    /** Publishes the next remaining record if it is due. */
    method PublishIfDue(now: int) returns (r: Option<Replayed>)
      modifies this`published, this`next, this`position, this`cursor
      ensures r.Some? ==>
                && old(Remaining()) == [r.value] + Remaining() && DueAt(Pace(), r.value) <= now
                && published == old(published) + [r.value] && position == r.value.elapsed
      ensures r.None? ==>
                && Remaining() == old(Remaining()) && published == old(published) && position == old(position)
                && (next.None? <==> Remaining() == []) && (next.Some? ==> DueAt(Pace(), Remaining()[0]) > now)
    {
      var found := FillNext();
      if !found || now < DueAt(Pace(), next.value) {
        return None;
      }
      r := next;
      PublishNext();
    }

    /** Publishes exactly the remaining records due by now, in order; playing stops when none is left. */
    method PublishDue(now: int) returns (ghost out: seq<Replayed>)
      requires state == Playing && Timed(Remaining(), duration) && 0 <= position <= duration
      modifies this`published, this`next, this`position, this`cursor, this`state
      ensures published == old(published) + out && old(Remaining()) == out + Remaining()
      ensures AllDue(Pace(), out, now) && NoneDue(Pace(), Remaining(), now)
      ensures state == (if Remaining() == [] then Stopped else Playing)
      ensures 0 <= position <= duration
      ensures position == if state == Stopped then duration else StandsAt(out, old(position))
    {
      out := [];
      while true
        invariant state == Playing && 0 <= position <= duration
        invariant published == old(published) + out && old(Remaining()) == out + Remaining()
        invariant AllDue(Pace(), out, now)
        invariant position == StandsAt(out, old(position))
        decreases |Remaining()|
      {
        TimedSuffix(out, Remaining(), duration);
        ghost var before := Remaining();
        var r := PublishIfDue(now);
        if r.None? {
          if next.None? {
            position := duration;
            state := Stopped;
          } else {
            LaterRecordsAreDueLater(Pace(), before, now, duration);
          }
          return;
        }
        assert before[0] == r.value;
        Regroup(out, [r.value], Remaining());
        Regroup(old(published), out, [r.value]);
        AppendDue(Pace(), out, r.value, now);
        StandsAtLast(out, r.value, old(position));
        out := out + [r.value];
      }
    }

    /** Playing on has published exactly what is due and stands at the last record published, or where it
        stood if there was none; with nothing left it has stopped at the end. */
    ghost predicate PlayedOn(before: seq<Replayed>, position0: int, now: int)
      reads this`published, this`next, this`cursor, this`playAnchor, this`playAnchorUs, this`speed, this`state, this`position
    {
      && before <= published && AllDue(Pace(), published[|before|..], now) && NoneDue(Pace(), Remaining(), now)
      && state == (if Remaining() == [] then Stopped else Playing)
      && position == if Remaining() == [] then duration
                     else StandsAt(published[|before|..], position0)
    }

    /** A wake of an old generation, or one while not playing, does nothing. Otherwise exactly the
        remaining records due by now are published, in order; playing stops when none is left. */
    method ProcessDue(wake: nat, now: int)
      requires Valid()
      modifies this`published, this`next, this`position, this`cursor, this`state
      ensures Valid()
      ensures wake != generation || old(state) != Playing ==>
                published == old(published) && Remaining() == old(Remaining()) && state == old(state) && position == old(position)
      ensures wake == generation && old(state) == Playing ==>
                PlayedOn(old(published), old(position), now)
    {
      if wake != generation || state != Playing {
        return;
      }
      RemainingIsTimed();
      ghost var out := PublishDue(now);
      Move(old(published), openedAt, out, Remaining());
      SinceThen(old(published), out);
    }

    method Play(now: int, ready: bool) returns (ok: bool)
      requires Valid()
      modifies this
      ensures Valid() && SameOpening(old(owed), old(openedAt)) && ok == ready
      ensures !ready ==> unchanged(this)
      ensures ready ==>
                && playAnchor == now && playAnchorUs == old(position) && speed == old(speed)
                && PlayedOn(old(published), old(position), now)
    {
      if !ready {
        return false;
      }
      playAnchor, playAnchorUs := now, position;
      state := Playing;
      generation := generation + 1;
      ProcessDue(generation, now);
      return true;
    }

    method Pause(now: int)
      requires Valid()
      modifies this
      ensures Valid() && SameOpening(old(owed), old(openedAt))
      ensures published == old(published) && Remaining() == old(Remaining())
      ensures state == Paused && generation == old(generation) + 1
      ensures position == if old(state) == Playing then PositionAt(old(Pace()), duration, now) else old(position)
    {
      VirtualPositionIsReached(now);
      position := CurrentVirtualPosition(now);
      generation := generation + 1;
      state := Paused;
    }

    method PublishOne() returns (r: Option<Replayed>)
      modifies this`published, this`next, this`position, this`cursor
      ensures r.Some? ==>
                && old(Remaining()) == [r.value] + Remaining()
                && published == old(published) + [r.value] && position == r.value.elapsed
      ensures r.None? ==>
                && Remaining() == [] && old(Remaining()) == []
                && published == old(published) && position == old(position)
    {
      var found := FillNext();
      if !found {
        return None;
      }
      r := next;
      PublishNext();
    }

    /** Publishes exactly the next remaining record, whether or not it is due. */
    method StepOnce()
      requires Valid()
      modifies this
      ensures Valid() && SameOpening(old(owed), old(openedAt))
      ensures state == Paused && generation == old(generation) + 1
      ensures if old(Remaining()) == [] then published == old(published) && Remaining() == []
              else published == old(published) + [old(Remaining())[0]] && Remaining() == old(Remaining())[1..]
      ensures position == if old(Remaining()) == [] then old(position) else old(Remaining())[0].elapsed
    {
      generation := generation + 1;
      state := Paused;
      ghost var before := Remaining();
      RemainingIsTimed();
      var r := PublishOne();
      if r.Some? {
        assert before[0] == r.value;
        Move(old(published), openedAt, [r.value], Remaining());
      }
    }

    /** Reopens the file at its start; everything is owed again. */
    method Stop()
      requires Valid()
      modifies this
      ensures Valid() && published == old(published) && openedAt == |published|
      ensures owed == Remaining() == ObdFrom(lines, 0)
      ensures state == Stopped && position == 0 && generation == old(generation) + 1
    {
      generation := generation + 1;
      state := Stopped;
      cursor, next := 0, None;
      position := 0;
      owed, since, openedAt := ObdFrom(lines, 0), 0, |published|;
      ObdIsTimed(lines, 0);
      SinceAll(owed, 0, duration);
      assert published[openedAt..] == [] && [] + ObdFrom(lines, 0) == ObdFrom(lines, 0);
    }

    method SetSpeed(multiplier: real, now: int) returns (ok: bool)
      requires Valid()
      modifies this
      ensures Valid() && SameOpening(old(owed), old(openedAt))
      ensures ok <==> ParseSpeed(multiplier).Some?
      ensures !ok ==> unchanged(this)
      ensures ok ==> speed == ParseSpeed(multiplier).value && old(published) <= published
      ensures ok && old(state) != Playing ==>
                published == old(published) && Remaining() == old(Remaining()) && position == old(position)
      ensures ok && old(state) == Playing ==>
                && playAnchor == now && playAnchorUs == PositionAt(old(Pace()), duration, now)
                && PlayedOn(old(published), PositionAt(old(Pace()), duration, now), now)
    {
      var parsed := ParseSpeed(multiplier);
      if parsed.None? {
        return false;
      }
      if state == Playing {
        Reanchor(parsed.value, now);
      } else {
        speed := parsed.value;
      }
      return true;
    }

    /** Plays on from the virtual position at another speed. */
    method Reanchor(next: Speed, now: int)
      requires Valid() && state == Playing
      modifies this
      ensures Valid() && SameOpening(old(owed), old(openedAt)) && speed == next
      ensures playAnchor == now && playAnchorUs == PositionAt(old(Pace()), duration, now)
      ensures PlayedOn(old(published), PositionAt(old(Pace()), duration, now), now)
    {
      VirtualPositionIsReached(now);
      var virtualPosition := CurrentVirtualPosition(now);
      position := virtualPosition;
      playAnchor, playAnchorUs := now, virtualPosition;
      speed := next;
      generation := generation + 1;
      ProcessDue(generation, now);
    }

    /** The offset of the last checkpoint not after `start`. */
    method FindOffset(start: nat) returns (offset: nat)
      requires ValidSession(lines) && checkpoints == Checkpoints(lines)
      ensures offset == SeekOffset(checkpoints, start) && offset < |lines|
      ensures Since(ObdFrom(lines, offset), start) == Since(ObdFrom(lines, 0), start)
    {
      CheckpointsAscend(lines);
      var k := 0;
      while k < |checkpoints| && checkpoints[k].elapsed <= start
        invariant 0 <= k <= |checkpoints|
        invariant k > 0 ==> checkpoints[k - 1].elapsed <= start
      {
        k := k + 1;
      }
      OffsetOfUpperBound(checkpoints, start, k);
      var selected := if k == 0 then 0 else k - 1;
      offset := checkpoints[selected].offset;
      IndexedSeekIsFullScan(lines, start);
    }

    /** Publishes the unread records between `start` and `target`, up to the first one after it. */
    method PublishRange(start: int, target: int) returns (ghost out: seq<Replayed>)
      requires lines != [] && InTimeOrder(lines) && next == None
      modifies this`published, this`next, this`cursor
      ensures published == old(published) + out && out == Between(ObdFrom(lines, old(cursor)), start, target)
      ensures Since(ObdFrom(lines, old(cursor)), start) == out + Since(Remaining(), start)
      ensures Timed(Remaining(), Elapsed(lines[|lines| - 1]))
      ensures Remaining() != [] ==> next == Some(Remaining()[0]) && Remaining()[0].elapsed > target
    {
      out := [];
      while true
        invariant next == None && published == old(published) + out
        invariant Between(ObdFrom(lines, old(cursor)), start, target) == out + Between(ObdFrom(lines, cursor), start, target)
        invariant Since(ObdFrom(lines, old(cursor)), start) == out + Since(ObdFrom(lines, cursor), start)
        decreases |lines| - cursor
      {
        ghost var before := cursor;
        var record := ReadNextObd();
        if record.None? {
          return;
        }
        var r := record.value;
        if r.elapsed > target {
          next := record;
          ObdIsTimed(lines, before);
          assert Remaining() == ObdFrom(lines, before) && Remaining()[0] == r;
          NothingBetween(Remaining(), start, target, Elapsed(lines[|lines| - 1]));
          return;
        }
        OneMore(r, ObdFrom(lines, cursor), start, target);
        if r.elapsed >= start {
          Regroup(out, [r], Since(ObdFrom(lines, cursor), start));
          Regroup(out, [r], Between(ObdFrom(lines, cursor), start, target));
          Regroup(old(published), out, [r]);
          published := published + [r];
          out := out + [r];
        }
      }
    }

    /** Reopens the file at the checkpoint for `start` and replays up to `target`. */
    method ReplayTo(start: nat, target: int)
      requires ValidSession(lines) && checkpoints == Checkpoints(lines) && start <= target
      modifies this`published, this`next, this`cursor
      ensures published == old(published) + Between(ObdFrom(lines, 0), start, target)
      ensures Since(ObdFrom(lines, 0), start) == Between(ObdFrom(lines, 0), start, target) + Remaining()
      ensures Remaining() != [] ==> next == Some(Remaining()[0]) && Remaining()[0].elapsed > target
    {
      cursor := FindOffset(start);
      next := None;
      SameSinceSameBetween(ObdFrom(lines, 0), ObdFrom(lines, cursor), start, target);
      ghost var out := PublishRange(start, target);
      SinceAll(Remaining(), start, Elapsed(lines[|lines| - 1]));
    }

    /** Starts a new account of what is owed, from `start` on. */
    method Reposition(start: nat, target: int)
      requires Valid() && start <= target <= duration
      modifies this`published, this`next, this`cursor, this`owed, this`since, this`openedAt, this`position
      ensures Valid() && position == target && openedAt == |old(published)|
      ensures published == old(published) + Between(ObdFrom(lines, 0), start, target)
      ensures owed == Since(ObdFrom(lines, 0), start)
      ensures Remaining() != [] ==> next == Some(Remaining()[0]) && Remaining()[0].elapsed > target
    {
      owed, since, openedAt := Since(ObdFrom(lines, 0), start), start, |published|;
      ReplayTo(start, target);
      SinceThen(old(published), Between(ObdFrom(lines, 0), start, target));
      position := target;
    }

    /** Publishes exactly the records from the warm-up start to the target, in order, as a scan of the
        whole file would, and leaves the first later one as look-ahead. */
    method Seek(target: int, warmup: int)
      requires Valid()
      modifies this
      ensures Valid() && state == Paused && generation == old(generation) + 1
      ensures var t := Max(0, Min(duration, target));
              var start := Max(0, t - Max(0, warmup));
              && position == t
              && published == old(published) + Between(ObdFrom(lines, 0), start, t)
              && openedAt == |old(published)| && owed == Since(ObdFrom(lines, 0), start)
              && (Remaining() != [] ==> next == Some(Remaining()[0]) && next.value.elapsed > t)
    {
      generation := generation + 1;
      var t := Max(0, Min(duration, target));
      var start := Max(0, t - Max(0, warmup));
      Reposition(start, t);
      state := Paused;
    }

    /** A timer wake left over from before the last play, pause, step, stop, seek or speed change. */
    method StaleWake(wake: nat, now: int)
      requires Valid() && wake < generation
      modifies this
      ensures Valid() && SameOpening(old(owed), old(openedAt))
      ensures published == old(published) && Remaining() == old(Remaining()) && state == old(state) && position == old(position)
    {
      ProcessDue(wake, now);
    }

    method Poll(now: int)
      requires Valid()
      modifies this
      ensures Valid() && SameOpening(old(owed), old(openedAt)) && Pace() == old(Pace())
      ensures old(state) == Playing ==>
                PlayedOn(old(published), old(position), now)
      ensures old(state) != Playing ==>
                published == old(published) && Remaining() == old(Remaining()) && state == old(state)
    {
      ProcessDue(generation, now);
    }
  }
}
