/** Exactly when a loop over a freshly registered matrix never lets an exception escape from a step
    (core_engine.py, lines 701-911; erythrocyte.py, lines 58-103). */
module LoopReadiness {
  import opened Prelude
  import opened TraceGap
  import opened CoreEngine
  import opened Erythrocyte
  import opened BearerLoop
  import opened LoopSafety

  predicate IsMutable(s: LoopState, name: string) {
    Has(s, name) && MayWrite(name, s.matrix.weights[name])
  }

  /** A misconfigured W0 weight: off its baseline, with a threshold that calls even stillness unstable. */
  predicate CriesWolf(w: WeightState) {
    w.isImmutable && w.varianceThreshold < 0.0 && Abs(w.value - w.baseline) > 0.0
  }

  /** What can be checked once, before the first step. */
  predicate Ready(s: LoopState) {
    && IsMutable(s, ADAPTABILITY)
    && Has(s, BEARER_INTEGRITY)
    && (s.erythrocyteEnabled ==> forall n <- s.matrix.weights :: !CriesWolf(s.matrix.weights[n]))
  }

  ghost predicate NeverRaises(s: LoopState, acts: seq<Act>) {
    forall i :: 0 <= i < |acts| && acts[i].StepAct? ==> Do(Run(s, acts[..i]), acts[i]).failure == None
  }

  // ---------------------------------------------------------------------------
  // Ready loops never raise
  // ---------------------------------------------------------------------------

  lemma ReadinessIsFixed(s: LoopState, t: LoopState)
    requires Ready(s) && KeepsFixtures(s.matrix, t.matrix) && t.erythrocyteEnabled == s.erythrocyteEnabled
    ensures Ready(t)
  {
    assert SameFixture(s.matrix.weights[ADAPTABILITY], t.matrix.weights[ADAPTABILITY]);
    forall n | n in t.matrix.weights && s.erythrocyteEnabled
      ensures !CriesWolf(t.matrix.weights[n])
    {
      assert SameFixture(s.matrix.weights[n], t.matrix.weights[n]) && !CriesWolf(s.matrix.weights[n]);
    }
  }

  /** The correction of an approved finding is always admissible. */
  lemma OscillatingMeansMutable(s: LoopState, name: string)
    requires Sound(s.matrix) && Ready(s) && s.erythrocyteEnabled && Has(s, name)
    requires Suspicious(s.matrix.weights[name]) && Classify(s.matrix.weights[name]) == Oscillating
    ensures MayWrite(name, s.matrix.weights[name])
  {
    var w := s.matrix.weights[name];
    assert Frozen(w) && !CriesWolf(w);
    if w.isImmutable {
      ImmutableNeverOscillates(w);
    }
  }

  ghost predicate Settleable(s: LoopState, findings: seq<Finding>) {
    forall f :: f in findings ==>
      Has(s, f.weight) && (f.distortion == Oscillating ==> MayWrite(f.weight, s.matrix.weights[f.weight]))
  }

  lemma RouteKeeps(s: LoopState, finding: Finding, ask: Channel)
    requires Sound(s.matrix)
    ensures var after := Route(s, finding, ask).state;
            Sound(after.matrix) && KeepsFixtures(s.matrix, after.matrix)
            && after.erythrocyteEnabled == s.erythrocyteEnabled
  {
    if Has(s, finding.weight) {
      WritesKeepFixtures(s.matrix, finding.weight, s.matrix.weights[finding.weight].baseline, CORRECTION, None);
    }
  }

  lemma {:induction false} RoutingSucceeds(s: LoopState, findings: seq<Finding>, ask: Channel)
    requires Sound(s.matrix) && Settleable(s, findings)
    ensures RouteAll(s, findings, ask).failure == None
    decreases |findings|
  {
    if findings != [] {
      assert findings[0] in findings;
      var first := Route(s, findings[0], ask);
      assert first.failure == None;
      RouteKeeps(s, findings[0], ask);
      assert Settleable(first.state, findings[1..]) by {
        forall f | f in findings[1..]
          ensures Has(first.state, f.weight)
          ensures f.distortion == Oscillating ==> MayWrite(f.weight, first.state.matrix.weights[f.weight])
        {
          assert f in findings;
          assert SameFixture(s.matrix.weights[f.weight], first.state.matrix.weights[f.weight]);
        }
      }
      RoutingSucceeds(first.state, findings[1..], ask);
    }
  }

  lemma ScanSucceeds(s: LoopState, ask: Channel)
    requires Sound(s.matrix) && Ready(s)
    ensures Scanned(s, ask).failure == None
  {
    if s.erythrocyteEnabled {
      ScanIsExact(s.matrix, s.matrix.order);
      forall f | f in ScanNames(s.matrix, s.matrix.order)
        ensures Has(s, f.weight)
        ensures f.distortion == Oscillating ==> MayWrite(f.weight, s.matrix.weights[f.weight])
      {
        if f.distortion == Oscillating {
          OscillatingMeansMutable(s, f.weight);
        }
      }
      RoutingSucceeds(s, ScanNames(s.matrix, s.matrix.order), ask);
    }
  }

  lemma ShockSucceeds(s: LoopState, error: real, actual: real, approved: bool)
    requires IsMutable(s, ADAPTABILITY) && Has(s, BEARER_INTEGRITY)
    ensures var resolved := Resolve(s, error, actual, approved);
            resolved.failure == None && TryOverride(resolved.state).failure == None
  {
    var resolved := Resolve(s, error, actual, approved).state;
    assert resolved.matrix.weights.Keys == s.matrix.weights.Keys;
  }

  lemma HandlingSucceeds(s: LoopState, error: real, actual: real, ask: Channel)
    requires Sound(s.matrix) && Ready(s)
    ensures var handled := Handled(s, error, actual, ask);
            handled.failure == None && Sound(handled.state.matrix) && Ready(handled.state)
  {
    if IsShock(s.strategy, error) {
      ShockSucceeds(s, error, actual, ask(ResetRequest(s.modelState, actual, error)));
    }
    HandlingKeeps(s, error, actual, ask);
    ReadinessIsFixed(s, Handled(s, error, actual, ask).state);
  }

  lemma HandlingKeeps(s: LoopState, error: real, actual: real, ask: Channel)
    requires Sound(s.matrix)
    ensures var after := Handled(s, error, actual, ask).state;
            Sound(after.matrix) && KeepsFixtures(s.matrix, after.matrix) && after.erythrocyteEnabled == s.erythrocyteEnabled
  {
    assert Replay(s.matrix, []) == s.matrix;
    var moves := HandledMoves(s, error, actual, ask, s.matrix, []);
    MovesKeep(s.matrix, moves);
    HandlingKeepsSwitch(s, error, actual, ask);
  }

  lemma HandlingKeepsSwitch(s: LoopState, error: real, actual: real, ask: Channel)
    ensures Handled(s, error, actual, ask).state.erythrocyteEnabled == s.erythrocyteEnabled
  {
    if IsShock(s.strategy, error) {
      var resolved := Resolve(s, error, actual, ask(ResetRequest(s.modelState, actual, error)));
      assert resolved.state.erythrocyteEnabled == s.erythrocyteEnabled;
    }
  }

  lemma StepSucceeds(s: LoopState, error: real, actual: real, ask: Channel)
    requires Sound(s.matrix) && Ready(s)
    ensures var stepped := Step(s, error, actual, ask);
            stepped.failure == None && Sound(stepped.state.matrix) && Ready(stepped.state)
  {
    ActKeeps(s, StepAct(error, actual, ask));
    StepKeepsSwitch(s, error, actual, ask);
    ReadinessIsFixed(s, Step(s, error, actual, ask).state);
    if s.strategy.IsCritical(error) {
      var counted := Counted(s.(errors := s.errors + [error]));
      RaiseMoves(counted, error);
      var raised := Raise(counted, error);
      assert raised.failure == None;
      MovesKeep(s.matrix, [RaiseBy(Excess(s.strategy, error))]);
      ReadinessIsFixed(s, raised.state);
      HandlingSucceeds(raised.state, error, actual, ask);
      ScanSucceeds(Handled(raised.state, error, actual, ask).state, ask);
    }
  }

  lemma {:induction false} RoutingKeepsSwitch(s: LoopState, findings: seq<Finding>, ask: Channel)
    ensures RouteAll(s, findings, ask).state.erythrocyteEnabled == s.erythrocyteEnabled
    decreases |findings|
  {
    if findings != [] && Route(s, findings[0], ask).failure.None? {
      RoutingKeepsSwitch(Route(s, findings[0], ask).state, findings[1..], ask);
    }
  }

  lemma StepKeepsSwitch(s: LoopState, error: real, actual: real, ask: Channel)
    ensures Step(s, error, actual, ask).state.erythrocyteEnabled == s.erythrocyteEnabled
  {
    if s.strategy.IsCritical(error) {
      var raised := Raise(Counted(s.(errors := s.errors + [error])), error).state;
      var handled := Handled(raised, error, actual, ask).state;
      assert raised.erythrocyteEnabled == s.erythrocyteEnabled;
      HandlingKeepsSwitch(raised, error, actual, ask);
      if s.erythrocyteEnabled && forall n <- handled.matrix.order :: n in handled.matrix.weights {
        RoutingKeepsSwitch(handled, ScanNames(handled.matrix, handled.matrix.order), ask);
      }
    }
  }

  lemma {:induction false} ReadyRuns(s: LoopState, acts: seq<Act>)
    requires Sound(s.matrix) && Ready(s)
    ensures NeverRaises(s, acts) && Sound(Run(s, acts).matrix) && Ready(Run(s, acts))
  {
    if acts != [] {
      var init, act := acts[..|acts| - 1], acts[|acts| - 1];
      ReadyRuns(s, init);
      var before := Run(s, init);
      ActKeeps(before, act);
      if act.StepAct? {
        StepSucceeds(before, act.error, act.actual, act.ask);
      } else {
        ReadinessIsFixed(before, Do(before, act).state);
      }
      forall i | 0 <= i < |acts| && acts[i].StepAct?
        ensures Do(Run(s, acts[..i]), acts[i]).failure == None
      {
        if i < |init| {
          assert init[..i] == acts[..i] && init[i] == acts[i];
        }
      }
    }
  }

  // ---------------------------------------------------------------------------
  // Loops that are not ready can be made to raise
  // ---------------------------------------------------------------------------

  function Always(request: Request): bool {
    true
  }

  /** An error that is a shock under any threshold. */
  function Jolt(strategy: Strategy): real {
    3.0 * Abs(strategy.Current()) + 20.0
  }

  function JoltAct(strategy: Strategy): Act {
    StepAct(Jolt(strategy), 0.0, Always)
  }

  lemma {:induction false} UnsettledFindingRaises(s: LoopState, findings: seq<Finding>, f: Finding)
    requires f in findings && f.distortion == Oscillating && Has(s, f.weight)
    requires s.matrix.weights[f.weight].isImmutable && (f.weight, Oscillating) !in s.flagged
    requires forall i, j :: 0 <= i < j < |findings| ==> findings[i].weight != findings[j].weight
    ensures RouteAll(s, findings, Always).failure.Some?
    decreases |findings|
  {
    var first := Route(s, findings[0], Always);
    if findings[0] != f && first.failure.None? {
      assert f in findings[1..];
      assert findings[0].weight != f.weight;
      UnsettledFindingRaises(first.state, findings[1..], f);
    }
  }

  /** A W0 weight that cries wolf is found oscillating, and its approved correction is refused. */
  lemma WolfRaises(s: LoopState, name: string)
    requires WellFormed(s.matrix) && s.erythrocyteEnabled && Has(s, name)
    requires s.matrix.weights[name].isImmutable && Suspicious(s.matrix.weights[name])
    requires Classify(s.matrix.weights[name]) == Oscillating && (name, Oscillating) !in s.flagged
    ensures Scanned(s, Always).failure.Some?
  {
    ScanIsExact(s.matrix, s.matrix.order);
    UnsettledFindingRaises(s, ScanNames(s.matrix, s.matrix.order), FindingOn(name, s.matrix.weights[name]));
  }

  lemma JoltReachesTheScan(s: LoopState, name: string)
    requires Sound(s.matrix) && s.erythrocyteEnabled && Has(s, name)
    requires s.matrix.weights[name].isImmutable && Suspicious(s.matrix.weights[name])
    requires Classify(s.matrix.weights[name]) == Oscillating && (name, Oscillating) !in s.flagged
    ensures Do(s, JoltAct(s.strategy)).failure.Some?
  {
    var error := Jolt(s.strategy);
    var counted := Counted(s.(errors := s.errors + [error]));
    RaiseMoves(counted, error);
    var raised := Raise(counted, error);
    if raised.failure.None? {
      assert raised.state.matrix.weights[name] == s.matrix.weights[name];
      var accepted := Accepted(raised.state, 0.0);
      assert Resolve(raised.state, error, 0.0, true) == Outcome(accepted, None);
      var handled := Handled(raised.state, error, 0.0, Always);
      assert handled == TryOverride(accepted);
      if handled.failure.None? {
        assert handled.state.matrix == raised.state.matrix && handled.state.flagged == s.flagged;
        MovesKeep(s.matrix, [RaiseBy(Excess(s.strategy, error))]);
        WolfRaises(handled.state, name);
      }
    }
  }

  function Nudge(name: string, value: real): Act {
    TouchAct(name, value, UNKNOWN, None)
  }

  function Same(value: real): HistoryEntry {
    HistoryEntry(value, value, UNKNOWN, None)
  }

  function Nudges(name: string, value: real, n: nat): seq<Act> {
    if n == 0 then [] else Nudges(name, value, n - 1) + [Nudge(name, value)]
  }

  function Traces(value: real, n: nat): (traces: seq<HistoryEntry>)
    ensures |traces| == n && forall e :: e in traces ==> e == Same(value)
  {
    if n == 0 then [] else Traces(value, n - 1) + [Same(value)]
  }

  /** Writing an immutable weight its own value is allowed, and leaves a trace each time. */
  lemma {:induction false} NudgesLeaveTraces(s: LoopState, name: string, value: real, n: nat)
    requires Has(s, name) && ValueOf(s, name) == value && s.matrix.weights[name].history == [] && n <= MIN_SAMPLES
    ensures var after := Run(s, Nudges(name, value, n));
            && after == s.(matrix := after.matrix)
            && Has(after, name)
            && after.matrix.weights[name] == s.matrix.weights[name].(history := Traces(value, n))
  {
    if n > 0 {
      NudgesLeaveTraces(s, name, value, n - 1);
      var nudges := Nudges(name, value, n - 1);
      var before := Run(s, nudges);
      RunMore(s, nudges, Nudge(name, value));
      assert Run(s, Nudges(name, value, n)) == Do(before, Nudge(name, value)).state;
      assert Traces(value, n) == Traces(value, n - 1) + [Same(value)];
      NudgeLeavesTrace(s, before, name, Traces(value, n - 1));
    }
  }

  lemma NudgeLeavesTrace(s: LoopState, before: LoopState, name: string, traces: seq<HistoryEntry>)
    requires Has(s, name) && Has(before, name) && |traces| < MIN_SAMPLES
    requires before == s.(matrix := before.matrix)
    requires before.matrix.weights[name] == s.matrix.weights[name].(history := traces)
    ensures var value := ValueOf(s, name);
            var after := Do(before, Nudge(name, value)).state;
            && after == s.(matrix := after.matrix) && Has(after, name)
            && after.matrix.weights[name] == s.matrix.weights[name].(history := traces + [Same(value)])
  {
    NudgeOnce(before.matrix, name, ValueOf(s, name));
  }

  lemma RunMore(s: LoopState, acts: seq<Act>, act: Act)
    ensures Run(s, acts + [act]) == Do(Run(s, acts), act).state
  {
    assert (acts + [act])[..|acts|] == acts;
  }

  lemma NudgeOnce(m: MatrixState, name: string, value: real)
    requires name in m.weights && m.weights[name].value == value && |m.weights[name].history| < HISTORY_LIMIT
    ensures var after := AfterTouchIn(m, name, value, UNKNOWN, None);
            && after.Ok? && name in after.value.weights
            && after.value.weights[name] == m.weights[name].(history := m.weights[name].history + [Same(value)])
  {
  }

  lemma NudgedIsSuspicious(w: WeightState)
    requires CriesWolf(w) && w.history == Traces(w.value, MIN_SAMPLES)
    ensures Suspicious(w) && Classify(w) == Oscillating
  {
    NothingAccounted(w.history);
    ProvenanceInWholeNumbers(w);
    ImmutableNeverOscillates(w);
  }

  lemma {:induction false} NothingAccounted(history: seq<HistoryEntry>)
    requires forall e :: e in history ==> e.source !in LEGITIMATE_SOURCES
    ensures CountAccounted(history, LEGITIMATE_SOURCES, READING) == 0
  {
    if history != [] {
      assert history[|history| - 1] in history;
      NothingAccounted(history[..|history| - 1]);
    }
  }

  lemma JoltRaises(s: LoopState)
    requires Sound(s.matrix) && (!IsMutable(s, ADAPTABILITY) || !Has(s, BEARER_INTEGRITY))
    ensures Do(s, JoltAct(s.strategy)).failure.Some?
  {
  }

  /** A run of a loop that is not ready, ending in a step that raises. */
  lemma {:induction false} UnreadyRuns(s: LoopState) returns (acts: seq<Act>)
    requires Sound(s.matrix) && !Ready(s) && s.flagged == {}
    requires forall n :: n in s.matrix.weights ==> s.matrix.weights[n].history == []
    ensures !NeverRaises(s, acts)
  {
    var jolt := JoltAct(s.strategy);
    if !IsMutable(s, ADAPTABILITY) || !Has(s, BEARER_INTEGRITY) {
      acts := [jolt];
      assert acts[..0] == [];
      JoltRaises(s);
      assert Do(Run(s, acts[..0]), acts[0]).failure.Some?;
    } else {
      var name :| name in s.matrix.weights && CriesWolf(s.matrix.weights[name]);
      var value := s.matrix.weights[name].value;
      var nudges := Nudges(name, value, MIN_SAMPLES);
      acts := nudges + [jolt];
      NudgesLeaveTraces(s, name, value, MIN_SAMPLES);
      var nudged := Run(s, nudges);
      W0NeverMoves(s, nudges);
      NudgedIsSuspicious(nudged.matrix.weights[name]);
      JoltReachesTheScan(nudged, name);
      assert acts[..|nudges|] == nudges && acts[|nudges|] == jolt;
      assert Do(Run(s, acts[..|nudges|]), acts[|nudges|]).failure.Some?;
    }
  }

  /** A matrix as registration leaves it. */
  ghost predicate Registered(m: MatrixState) {
    Sound(m) && forall n :: n in m.weights ==> m.weights[n].history == []
  }

  datatype Registration = Registration(name: string, value: real, baseline: Option<real>, isImmutable: bool, threshold: real)

  /** The matrix after some registrations; a refused one leaves it as it was. */
  function AfterAll(registrations: seq<Registration>): MatrixState {
    if registrations == [] then EMPTY_MATRIX
    else
      var m, r := AfterAll(registrations[..|registrations| - 1]), registrations[|registrations| - 1];
      match AfterRegister(m, r.name, r.value, r.baseline, r.isImmutable, r.threshold)
      case Ok(after) => after
      case Err(_) => m
  }

  lemma {:induction false} RegistrationsAreSound(registrations: seq<Registration>)
    ensures Registered(AfterAll(registrations))
  {
    if registrations != [] {
      RegistrationsAreSound(registrations[..|registrations| - 1]);
      var m, r := AfterAll(registrations[..|registrations| - 1]), registrations[|registrations| - 1];
      RegisterGuards(m, r.name, r.value, r.baseline, r.isImmutable, r.threshold);
      assert forall n :: n in m.weights ==> m.weights[n].history == [];
    }
  }

  /** The matrix of the demonstration run (lines 939-943). */
  const DEMONSTRATION: seq<Registration> := [
    Registration(ADAPTABILITY, 0.1, None, false, 0.05),
    Registration(BEARER_INTEGRITY, 1.0, None, true, 0.05),
    Registration(TRUTH_PRIORITY, 1.0, None, true, 0.05),
    Registration(CORRIGIBILITY_CHANNEL, 1.0, None, true, 0.05)
  ]

  /** Over a freshly registered matrix: no run of any length, with any writes in between and any approvals,
      ever lets an exception out of a step, if and only if the loop is ready. */
  lemma NeverRaisesIff(m: MatrixState, strategy: Strategy, enabled: bool)
    requires Registered(m)
    ensures (forall acts :: NeverRaises(FreshLoop(m, strategy, enabled), acts)) <==> Ready(FreshLoop(m, strategy, enabled))
  {
    var s := FreshLoop(m, strategy, enabled);
    if Ready(s) {
      forall acts
        ensures NeverRaises(s, acts)
      {
        ReadyRuns(s, acts);
      }
    } else {
      var acts := UnreadyRuns(s);
    }
  }

  /** The demonstration's loop never raises, under any strategy and any approvals. */
  lemma {:induction false} DemonstrationIsReady(strategy: Strategy, enabled: bool, acts: seq<Act>)
    ensures NeverRaises(FreshLoop(AfterAll(DEMONSTRATION), strategy, enabled), acts)
  {
    var m := AfterAll(DEMONSTRATION);
    RegistrationsAreSound(DEMONSTRATION);
    DemonstrationMatrix();
    AsShippedIsReady(m, strategy, enabled);
    NeverRaisesIff(m, strategy, enabled);
  }

  lemma AsShippedIsReady(m: MatrixState, strategy: Strategy, enabled: bool)
    requires m.weights == map[
               ADAPTABILITY := WeightState(0.1, 0.1, false, 0.05, []),
               BEARER_INTEGRITY := WeightState(1.0, 1.0, true, 0.05, []),
               TRUTH_PRIORITY := WeightState(1.0, 1.0, true, 0.05, []),
               CORRIGIBILITY_CHANNEL := WeightState(1.0, 1.0, true, 0.05, [])]
    ensures Ready(FreshLoop(m, strategy, enabled))
  {
  }

  lemma DemonstrationMatrix()
    ensures AfterAll(DEMONSTRATION).weights == map[
              ADAPTABILITY := WeightState(0.1, 0.1, false, 0.05, []),
              BEARER_INTEGRITY := WeightState(1.0, 1.0, true, 0.05, []),
              TRUTH_PRIORITY := WeightState(1.0, 1.0, true, 0.05, []),
              CORRIGIBILITY_CHANNEL := WeightState(1.0, 1.0, true, 0.05, [])]
  {
    assert DEMONSTRATION[..3][..2] == DEMONSTRATION[..2] && DEMONSTRATION[..2][..1] == DEMONSTRATION[..1];
    assert AfterAll([]) == EMPTY_MATRIX;
    assert DEMONSTRATION[..1][..0] == [];
    assert AfterAll(DEMONSTRATION[..1]).weights == map[ADAPTABILITY := WeightState(0.1, 0.1, false, 0.05, [])];
    assert AfterAll(DEMONSTRATION[..2]).weights == map[
        ADAPTABILITY := WeightState(0.1, 0.1, false, 0.05, []),
        BEARER_INTEGRITY := WeightState(1.0, 1.0, true, 0.05, [])];
    assert AfterAll(DEMONSTRATION[..3]).weights == map[
        ADAPTABILITY := WeightState(0.1, 0.1, false, 0.05, []),
        BEARER_INTEGRITY := WeightState(1.0, 1.0, true, 0.05, []),
        TRUTH_PRIORITY := WeightState(1.0, 1.0, true, 0.05, [])];
  }
}
