/** From a finished recording to the messages that playing it publishes. */
module Replay {
  import opened Wrappers
  import opened Session
  import opened Playback
  import opened Recorder

  /** A recording that can be replayed: times in order, no empty payload, every value finite. */
  predicate Sane(entries: seq<Entry>, origin: int, finish: int) {
    && Recordable(entries, origin) && ElapsedUs(finish, origin) >= 0
    && InOrder(entries, origin, finish)
    && forall i | 0 <= i < |entries| :: Replayable(entries[i])
  }

  /** A player that was started once, at its beginning, has published all that is due by now. */
  ghost predicate PlayedUpTo(p: Player, owed: seq<Replayed>, start: Anchor, now: int)
    reads p
  {
    && p.SameOpening(owed, 0) && p.Pace() == start
    && p.state == (if p.Remaining() == [] then Stopped else Playing)
    && NoneDue(start, p.Remaining(), now)
  }

  method PollAll(p: Player, clock: seq<int>, ghost owed: seq<Replayed>, ghost start: Anchor)
    requires p.Valid() && clock != [] && PlayedUpTo(p, owed, start, clock[0])
    modifies p
    ensures p.Valid() && PlayedUpTo(p, owed, start, clock[|clock| - 1])
  {
    var k := 1;
    while k < |clock|
      invariant 1 <= k <= |clock|
      invariant p.Valid() && PlayedUpTo(p, owed, start, clock[k - 1])
    {
      p.Poll(clock[k]);
      k := k + 1;
    }
  }

  /** What has been published is the beginning of what is owed, all of it once playing has stopped,
      and playing has stopped by the scaled end of the session. */
  lemma PlayedIsPrefix(p: Player, owed: seq<Replayed>, start: Anchor, now: int)
    requires p.Valid() && PlayedUpTo(p, owed, start, now) && start.us == 0
    ensures p.published <= owed && (p.state == Stopped ==> p.published == owed)
    ensures now >= start.wall + Scaled(p.duration, start.speed) * NS_PER_US ==> p.state == Stopped
  {
    assert p.published[0..] == p.published && p.published + [] == p.published;
    if p.Remaining() != [] {
      p.RemainingIsTimed();
      ScaledIsMonotone(p.Remaining()[0].elapsed, p.duration, start.speed);
    }
  }

  /** Plays a session from its start, looking at the clock at the given times. */
  method PlayThrough(lines: seq<Line>, index: Index, speed: Speed, clock: seq<int>)
    returns (published: seq<Replayed>, stopped: bool)
    requires ValidSession(lines) && index == Index(Checkpoints(lines), Elapsed(lines[|lines| - 1])) && clock != []
    ensures published <= ObdFrom(lines, 0) && (stopped ==> published == ObdFrom(lines, 0))
    ensures clock[|clock| - 1] >= clock[0] + Scaled(index.duration, speed) * NS_PER_US ==> stopped
  {
    var player := new Player(lines, index, speed);
    ghost var owed, start := player.owed, Anchor(clock[0], 0, speed);
    var playing := player.Play(clock[0], true);
    PollAll(player, clock, owed, start);
    PlayedIsPrefix(player, owed, start, clock[|clock| - 1]);
    published, stopped := player.published, player.state == Stopped;
  }

  /** Validates a finished recording, connects a player to it and plays it, looking at the clock at the
      given times. Validation accepts the file; what is published is always the beginning of what was
      recorded; once playing has stopped it is all of it; and playing has stopped when the last look is
      not before the scaled end of the recording. */
  method ReplayFinished(uuid: string, entries: seq<Entry>, origin: int, finish: int, speed: Speed, clock: seq<int>)
    returns (accepted: bool, published: seq<Replayed>, stopped: bool)
    requires uuid != "" && Sane(entries, origin, finish) && clock != []
    ensures accepted
    ensures published <= Recorded(entries, origin)
    ensures stopped ==> published == Recorded(entries, origin)
    ensures clock[|clock| - 1] >= clock[0] + Scaled(ElapsedUs(finish, origin), speed) * NS_PER_US ==> stopped
  {
    var lines := Recording(uuid, entries, origin, finish);
    FinishedIsValidExactly(uuid, entries, origin, finish);
    ReplayIsWhatWasRecorded(uuid, entries, origin, finish);
    var index := ValidateAndIndex(lines);
    accepted := index.Ok?;
    published, stopped := PlayThrough(lines, index.value, speed, clock);
  }
}
