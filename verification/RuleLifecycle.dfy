/** The life of diagnostic findings: detection, stable clearing, resolution and reactivation. */
module RuleLifecycle {
  import opened Wrappers

  datatype Outcome = Inapplicable | Triggered | Clear

  datatype Finding = Finding(
    rule: nat,
    evidence: seq<string>,
    firstDetected: int,
    lastSeen: int,
    lastEvaluated: int,
    resolvedAt: Option<int>,
    active: bool)

  /** The rules in evaluation order: vacuum leak, catalyst efficiency, thermostat, charging voltage. */
  const RULE_COUNT: nat := 4
  const CATALYST: nat := 1

  // ---------------------------------------------------------------- one rule

  datatype RuleState = RuleState(finding: Option<Finding>, clearSince: Option<int>) {
    predicate Active() {
      finding.Some? && finding.value.active
    }
  }

  const UNSEEN: RuleState := RuleState(None, None)

  function Applied(s: RuleState, rule: nat, outcome: Outcome, now: int, evidence: seq<string>, window: int): (RuleState, bool) {
    match outcome
    case Inapplicable =>
      (RuleState(if s.finding.None? then None else Some(s.finding.value.(lastEvaluated := now)), None), false)
    case Triggered =>
      if s.finding.None? then (RuleState(Some(Finding(rule, evidence, now, now, now, None, true)), None), true)
      else
        var f := s.finding.value.(lastEvaluated := now, lastSeen := now, evidence := evidence, active := true, resolvedAt := None);
        (RuleState(Some(f), None), !s.finding.value.active)
    case Clear =>
      if !s.Active() then (s, false)
      else
        var f := s.finding.value.(lastEvaluated := now);
        var since := if s.clearSince.Some? then s.clearSince.value else now;
        if now - since < window then (RuleState(Some(f), Some(since)), false)
        else (RuleState(Some(f.(active := false, resolvedAt := Some(now))), None), true)
  }

  // ---------------------------------------------------------------- the evaluator

  function Find(findings: seq<Finding>, rule: nat): (r: Option<nat>)
    ensures r.Some? ==> r.value < |findings| && findings[r.value].rule == rule
    ensures r.None? ==> forall i | 0 <= i < |findings| :: findings[i].rule != rule
  {
    if findings == [] then None
    else if findings[|findings| - 1].rule == rule then Some(|findings| - 1)
    else Find(findings[..|findings| - 1], rule)
  }

  predicate OnePerRule(findings: seq<Finding>) {
    forall i, j | 0 <= i < j < |findings| :: findings[i].rule != findings[j].rule
  }

  function StateOf(findings: seq<Finding>, clearSince: seq<Option<int>>, rule: nat): RuleState
    requires rule < |clearSince|
  {
    var i := Find(findings, rule);
    RuleState(if i.None? then None else Some(findings[i.value]), clearSince[rule])
  }

  lemma FoundOnce(findings: seq<Finding>, i: nat)
    requires OnePerRule(findings) && i < |findings|
    ensures Find(findings, findings[i].rule) == Some(i)
  {
  }

  lemma UpdateOne(findings: seq<Finding>, i: nat, f: Finding, rule: nat)
    requires OnePerRule(findings) && i < |findings| && f.rule == findings[i].rule
    ensures OnePerRule(findings[i := f])
    ensures Find(findings[i := f], rule) == Find(findings, rule)
  {
    var updated := findings[i := f];
    assert forall k | 0 <= k < |findings| :: updated[k].rule == findings[k].rule;
    var found := Find(findings, rule);
    if found.Some? {
      FoundOnce(updated, found.value);
    }
  }

  class DiagnosticRuleEvaluator {
    const stableClearWindow: int
    var findings: seq<Finding>
    var clearSince: seq<Option<int>>
    var epoch: nat

    /** There is at most one finding per rule, and none of an unknown rule. */
    ghost predicate Valid()
      reads this
    {
      && |clearSince| == RULE_COUNT
      && OnePerRule(findings)
      && forall i | 0 <= i < |findings| :: findings[i].rule < RULE_COUNT
    }

    ghost function State(rule: nat): RuleState
      requires Valid() && rule < RULE_COUNT
      reads this
    {
      StateOf(findings, clearSince, rule)
    }

    constructor (window: int)
      ensures Valid() && stableClearWindow == window && epoch == 0
      ensures forall r | 0 <= r < RULE_COUNT :: State(r) == UNSEEN
    {
      stableClearWindow := window;
      findings, clearSince, epoch := [], seq(RULE_COUNT, _ => None), 0;
    }

    method Apply(rule: nat, outcome: Outcome, now: int, evidence: seq<string>) returns (changed: bool)
      requires Valid() && rule < RULE_COUNT
      modifies this
      ensures Valid() && epoch == old(epoch)
      ensures (State(rule), changed) == Applied(old(State(rule)), rule, outcome, now, evidence, stableClearWindow)
      ensures changed <==> State(rule).Active() != old(State(rule)).Active()
      ensures forall r | 0 <= r < RULE_COUNT && r != rule :: State(r) == old(State(r))
    {
      var existing := Find(findings, rule);
      forall r | 0 <= r < RULE_COUNT && existing.Some?
        ensures forall f: Finding | f.rule == rule ::
                  OnePerRule(findings[existing.value := f]) && Find(findings[existing.value := f], r) == Find(findings, r)
      {
        forall f: Finding | f.rule == rule
          ensures OnePerRule(findings[existing.value := f]) && Find(findings[existing.value := f], r) == Find(findings, r)
        {
          UpdateOne(findings, existing.value, f, r);
        }
      }
      assert existing.Some? ==> forall r | 0 <= r < RULE_COUNT && r != rule :: Find(findings, r) != existing;
      if outcome == Inapplicable {
        clearSince := clearSince[rule := None];
        if existing.Some? {
          findings := findings[existing.value := findings[existing.value].(lastEvaluated := now)];
        }
        return false;
      }
      if outcome == Triggered {
        clearSince := clearSince[rule := None];
        if existing.None? {
          findings := findings + [Finding(rule, evidence, now, now, now, None, true)];
          assert findings[..|findings| - 1] == old(findings);
          return true;
        }
        var found := findings[existing.value];
        var reactivated := !found.active;
        found := found.(lastEvaluated := now, lastSeen := now, evidence := evidence);
        found := found.(active := true, resolvedAt := None);
        findings := findings[existing.value := found];
        return reactivated;
      }
      if existing.None? || !findings[existing.value].active {
        return false;
      }
      var found := findings[existing.value].(lastEvaluated := now);
      if clearSince[rule].None? {
        clearSince := clearSince[rule := Some(now)];
      }
      if now - clearSince[rule].value < stableClearWindow {
        findings := findings[existing.value := found];
        return false;
      }
      found := found.(active := false, resolvedAt := Some(now));
      findings := findings[existing.value := found];
      clearSince := clearSince[rule := None];
      return true;
    }

    /** Applies one outcome to each rule; reports a change exactly when some rule's finding became
        active or stopped being active. */
    method Evaluate(now: int, outcomes: seq<Outcome>, evidence: seq<seq<string>>) returns (changed: bool)
      requires Valid() && |outcomes| == |evidence| == RULE_COUNT
      modifies this
      ensures Valid() && epoch == old(epoch)
      ensures forall r | 0 <= r < RULE_COUNT ::
                State(r) == Applied(old(State(r)), r, outcomes[r], now, evidence[r], stableClearWindow).0
      ensures changed <==> exists r | 0 <= r < RULE_COUNT :: State(r).Active() != old(State(r)).Active()
    {
      changed := Apply(0, outcomes[0], now, evidence[0]);
      var other := Apply(1, outcomes[1], now, evidence[1]);
      changed := other || changed;
      other := Apply(2, outcomes[2], now, evidence[2]);
      changed := other || changed;
      other := Apply(3, outcomes[3], now, evidence[3]);
      changed := other || changed;
    }

    /** A new sensor topology restarts the catalyst rule's clearing streak and nothing else. */
    method SetOxygenSensorTopology()
      requires Valid()
      modifies this
      ensures Valid() && epoch == old(epoch)
      ensures forall r | 0 <= r < RULE_COUNT ::
                State(r) == if r == CATALYST then old(State(r)).(clearSince := None) else old(State(r))
    {
      clearSince := clearSince[CATALYST := None];
    }

    method SetEpoch(e: nat)
      requires Valid()
      modifies this
      ensures Valid() && epoch == e
      ensures forall r | 0 <= r < RULE_COUNT :: State(r) == if e == old(epoch) then old(State(r)) else UNSEEN
    {
      if epoch == e {
        return;
      }
      epoch := e;
      clearSince := seq(RULE_COUNT, _ => None);
      findings := [];
    }
  }

  // ---------------------------------------------------------------- runs of one rule

  datatype Event = Evaluated(outcome: Outcome, now: int, evidence: seq<string>) | TopologyChanged

  function After(s: RuleState, rule: nat, e: Event, window: int): RuleState {
    match e
    case Evaluated(o, now, evidence) => Applied(s, rule, o, now, evidence, window).0
    case TopologyChanged => s.(clearSince := None)
  }

  function Run(rule: nat, events: seq<Event>, window: int): RuleState {
    if events == [] then UNSEEN
    else After(Run(rule, events[..|events| - 1], window), rule, events[|events| - 1], window)
  }

  /** The time at which the unbroken streak of Clear outcomes that ends the run began. */
  function ClearStart(events: seq<Event>): Option<int> {
    if events == [] then None
    else
      var last := events[|events| - 1];
      if last.TopologyChanged? || last.outcome != Clear then None
      else
        var before := ClearStart(events[..|events| - 1]);
        if before.Some? then before else Some(last.now)
  }

  function Latest(events: seq<Event>): Option<int> {
    if events == [] then None
    else if events[|events| - 1].Evaluated? then Some(events[|events| - 1].now)
    else Latest(events[..|events| - 1])
  }

  predicate NotBefore(time: int, latest: Option<int>) {
    latest.Some? ==> latest.value <= time
  }

  predicate TimesAscend(events: seq<Event>) {
    events == [] ||
    (var init, e := events[..|events| - 1], events[|events| - 1];
     TimesAscend(init) && (e.Evaluated? ==> NotBefore(e.now, Latest(init))))
  }

  /** A finding is active exactly when it has no resolution time; while active its streak is `streak`
      and began no earlier than it was last seen; once resolved, it was resolved at least a whole
      window after it was last seen. Nothing recorded lies after `latest`. */
  predicate Sound(s: RuleState, rule: nat, window: int, streak: Option<int>, latest: Option<int>) {
    && (s.finding.Some? ==>
          var f := s.finding.value;
          && f.rule == rule
          && (f.active <==> f.resolvedAt.None?)
          && f.firstDetected <= f.lastSeen <= f.lastEvaluated
          && latest.Some? && f.lastEvaluated <= latest.value
          && (f.resolvedAt.Some? ==> f.resolvedAt.value - f.lastSeen >= window))
    && (s.Active() ==> s.clearSince == streak)
    && (!s.Active() ==> s.clearSince == None)
    && (s.clearSince.Some? ==> s.finding.value.lastSeen <= s.clearSince.value <= latest.value)
  }

  function NextStreak(streak: Option<int>, e: Event): Option<int> {
    if e.TopologyChanged? || e.outcome != Clear then None
    else if streak.Some? then streak else Some(e.now)
  }

  lemma SoundStep(s: RuleState, rule: nat, e: Event, window: int, streak: Option<int>, latest: Option<int>)
    requires Sound(s, rule, window, streak, latest)
    requires e.Evaluated? ==> NotBefore(e.now, latest)
    ensures Sound(After(s, rule, e, window), rule, window, NextStreak(streak, e), if e.Evaluated? then Some(e.now) else latest)
  {
  }

  lemma {:induction false} LifecycleInvariant(rule: nat, events: seq<Event>, window: int)
    requires TimesAscend(events)
    ensures Sound(Run(rule, events, window), rule, window, ClearStart(events), Latest(events))
  {
    if events != [] {
      var init, e := events[..|events| - 1], events[|events| - 1];
      LifecycleInvariant(rule, init, window);
      SoundStep(Run(rule, init, window), rule, e, window, ClearStart(init), Latest(init));
    }
  }

  /** An active finding is resolved by exactly those evaluations that end an unbroken streak of Clear
      outcomes spanning the window; no other event makes it inactive. */
  lemma ResolvesExactlyAfterStableClear(rule: nat, events: seq<Event>, e: Event, window: int)
    requires TimesAscend(events + [e])
    requires Run(rule, events, window).Active()
    ensures var after := Run(rule, events + [e], window);
            !after.Active() <==>
              && e.Evaluated? && e.outcome == Clear
              && e.now - ClearStart(events + [e]).value >= window
  {
    assert (events + [e])[..|events|] == events;
    LifecycleInvariant(rule, events, window);
  }

  /** A finding becomes active by a Triggered outcome and by nothing else. */
  lemma ActivatesExactlyWhenTriggered(s: RuleState, rule: nat, e: Event, window: int)
    requires !s.Active()
    ensures After(s, rule, e, window).Active() <==> e.Evaluated? && e.outcome == Triggered
  {
  }

  // ---------------------------------------------------------------- findings as functions of the events

  function FirstTriggered(events: seq<Event>): (r: Option<Event>)
    ensures r.Some? ==> r.value.Evaluated? && r.value.outcome == Triggered
  {
    if events == [] then None
    else
      var first, e := FirstTriggered(events[..|events| - 1]), events[|events| - 1];
      if first.None? && e.Evaluated? && e.outcome == Triggered then Some(e) else first
  }

  function LastTriggered(events: seq<Event>): (r: Option<Event>)
    ensures r.Some? ==> r.value.Evaluated? && r.value.outcome == Triggered
  {
    if events == [] then None
    else
      var e := events[|events| - 1];
      if e.Evaluated? && e.outcome == Triggered then Some(e) else LastTriggered(events[..|events| - 1])
  }

  /** The last event is a Clear outcome that ends a streak of them spanning the window. */
  predicate EndsStableClear(events: seq<Event>, window: int) {
    && events != [] && events[|events| - 1].Evaluated? && events[|events| - 1].outcome == Clear
    && ClearStart(events).Some? && events[|events| - 1].now - ClearStart(events).value >= window
  }

  /** The rule has triggered and no stable clear has ended since. */
  predicate Standing(events: seq<Event>, window: int) {
    if events == [] then false
    else
      var e := events[|events| - 1];
      if e.Evaluated? && e.outcome == Triggered then true
      else Standing(events[..|events| - 1], window) && !EndsStableClear(events, window)
  }

  /** The time of the Clear outcome that ended the last standing, if none stands. */
  function ResolvedAt(events: seq<Event>, window: int): Option<int> {
    if events == [] || Standing(events, window) then None
    else if Standing(events[..|events| - 1], window) then Some(events[|events| - 1].now)
    else ResolvedAt(events[..|events| - 1], window)
  }

  /** The time of the last evaluation that concerned a finding: any but a Clear outcome with none
      standing, from the first trigger on. */
  function EvaluatedAt(events: seq<Event>, window: int): Option<int> {
    if events == [] then None
    else
      var init, e := events[..|events| - 1], events[|events| - 1];
      if e.Evaluated? && FirstTriggered(events).Some? && (e.outcome == Clear ==> Standing(init, window)) then Some(e.now)
      else EvaluatedAt(init, window)
  }

  /** The finding that the events call for. */
  function Called(rule: nat, events: seq<Event>, window: int): Option<Finding> {
    if FirstTriggered(events).None? || LastTriggered(events).None? || EvaluatedAt(events, window).None? then None
    else Some(Finding(rule, LastTriggered(events).value.evidence, FirstTriggered(events).value.now,
                      LastTriggered(events).value.now, EvaluatedAt(events, window).value, ResolvedAt(events, window),
                      Standing(events, window)))
  }

  lemma {:induction false} TriggersAreEvaluations(events: seq<Event>, window: int)
    ensures FirstTriggered(events).Some? <==> LastTriggered(events).Some?
    ensures FirstTriggered(events).Some? <==> EvaluatedAt(events, window).Some?
    ensures Standing(events, window) ==> FirstTriggered(events).Some?
  {
    if events != [] {
      TriggersAreEvaluations(events[..|events| - 1], window);
    }
  }

  /** After every run there is a finding exactly if the rule has triggered. It was first detected at the
      first trigger, and last seen, with the evidence given, at the last; it is active exactly if no
      stable clear has ended since, and otherwise was resolved by the one that first did; and it was last
      evaluated at the last event that concerned it. */
  lemma {:induction false} FindingIsOfItsEvents(rule: nat, events: seq<Event>, window: int)
    ensures Run(rule, events, window).finding == Called(rule, events, window)
    ensures Run(rule, events, window).clearSince == if Standing(events, window) then ClearStart(events) else None
  {
    TriggersAreEvaluations(events, window);
    if events != [] {
      var init := events[..|events| - 1];
      TriggersAreEvaluations(init, window);
      FindingIsOfItsEvents(rule, init, window);
    }
  }
}
