/** Whether a loop left to itself accuses itself (core_engine.py, lines 144, 707-746, 849-888;
    erythrocyte.py, lines 15-34, 58-103). The rollback under TruthPriority writes from a source the detector
    does not count as the system's own, so a loop that keeps being denied resets ends up flagging its own
    weight; without that guard it never does. */
module LoopQuiet {
  import opened Prelude
  import opened TraceGap
  import opened CoreEngine
  import opened Erythrocyte
  import opened BearerLoop
  import opened LoopSafety
  import opened LoopReadiness

  /** A run whose only writes are the loop's own. */
  ghost predicate LeftAlone(acts: seq<Act>) {
    forall act :: act in acts ==> act.StepAct? || act.ObserveAct?
  }

  ghost predicate Trusted(m: MatrixState) {
    forall n :: n in m.weights ==> forall e :: e in m.weights[n].history ==> e.source in LEGITIMATE_SOURCES
  }

  predicate TruthStands(s: LoopState) {
    Has(s, TRUTH_PRIORITY) && ValueOf(s, TRUTH_PRIORITY) >= 1.0
  }

  /** No step of the run has its reset denied under TruthPriority. */
  ghost predicate NothingTakenBack(s: LoopState, acts: seq<Act>) {
    forall i :: 0 <= i < |acts| && acts[i].StepAct? ==>
      !TakesBack(Run(s, acts[..i]), acts[i].error, acts[i].actual, acts[i].ask)
  }

  // ---------------------------------------------------------------------------
  // Without rollbacks, no findings
  // ---------------------------------------------------------------------------

  lemma {:induction false} MovesStayTrusted(m: MatrixState, moves: seq<Move>)
    requires Trusted(m) && forall move :: move in moves ==> !move.RollBackBy?
    ensures Trusted(Replay(m, moves))
  {
    if moves != [] {
      assert moves[|moves| - 1] in moves;
      MovesStayTrusted(m, moves[..|moves| - 1]);
    }
  }

  lemma {:induction false} NothingToFind(m: MatrixState, names: seq<string>)
    requires forall n :: n in names ==> n in m.weights && !Suspicious(m.weights[n])
    ensures ScanNames(m, names) == []
  {
    if names != [] {
      assert names[|names| - 1] in names;
      NothingToFind(m, names[..|names| - 1]);
    }
  }

  lemma HandlingLeavesFlags(s: LoopState, error: real, actual: real, ask: Channel)
    ensures Handled(s, error, actual, ask).state.flagged == s.flagged
  {
    if IsShock(s.strategy, error) {
      var resolved := Resolve(s, error, actual, ask(ResetRequest(s.modelState, actual, error)));
      assert resolved.state.flagged == s.flagged;
    }
  }

  lemma QuietStep(s: LoopState, error: real, actual: real, ask: Channel)
    requires Trusted(s.matrix) && !TakesBack(s, error, actual, ask)
    ensures var after := Step(s, error, actual, ask).state;
            Trusted(after.matrix) && after.flagged == s.flagged
  {
    var moves := StepMoves(s, error, actual, ask);
    MovesStayTrusted(s.matrix, moves);
    if s.strategy.IsCritical(error) {
      var counted := Counted(s.(errors := s.errors + [error]));
      RaiseMoves(counted, error);
      var raised := Raise(counted, error).state;
      HandlingLeavesFlags(raised, error, actual, ask);
      assert Replay(s.matrix, [RaiseBy(Excess(s.strategy, error))]) == raised.matrix;
      var handling := HandledMoves(raised, error, actual, ask, s.matrix, [RaiseBy(Excess(s.strategy, error))]);
      var handled := Handled(raised, error, actual, ask).state;
      assert TruthStands(raised) <==> TruthStands(s);
      MovesStayTrusted(s.matrix, handling);
      QuietScan(handled, ask);
    }
  }

  lemma QuietScan(s: LoopState, ask: Channel)
    requires Trusted(s.matrix)
    ensures Scanned(s, ask).state == s
  {
    if s.erythrocyteEnabled && forall n <- s.matrix.order :: n in s.matrix.weights {
      forall n | n in s.matrix.order
        ensures !Suspicious(s.matrix.weights[n])
      {
        OwnWritesAreTrusted(s.matrix.weights[n]);
      }
      NothingToFind(s.matrix, s.matrix.order);
    }
  }

  /** A loop left to itself never produces a finding as long as no reset is denied under TruthPriority. */
  lemma {:induction false} QuietRuns(s: LoopState, acts: seq<Act>)
    requires Trusted(s.matrix) && LeftAlone(acts) && NothingTakenBack(s, acts)
    ensures Trusted(Run(s, acts).matrix) && Run(s, acts).flagged == s.flagged
  {
    if acts != [] {
      var init, act := acts[..|acts| - 1], acts[|acts| - 1];
      assert act in acts;
      assert forall i :: 0 <= i < |init| ==> init[..i] == acts[..i];
      QuietRuns(s, init);
      if act.StepAct? {
        QuietStep(Run(s, init), act.error, act.actual, act.ask);
      }
    }
  }

  // ---------------------------------------------------------------------------
  // With rollbacks, a loop can be made to flag itself
  // ---------------------------------------------------------------------------

  function Never(request: Request): bool {
    false
  }

  function Answering(approved: bool): Channel {
    if approved then Always else Never
  }

  function Shock(strategy: Strategy, approved: bool): Act {
    StepAct(Jolt(strategy), 0.0, Answering(approved))
  }

  function Own(s: LoopState): WeightState
    requires Has(s, ADAPTABILITY)
  {
    s.matrix.weights[ADAPTABILITY]
  }

  function AccountedIn(w: WeightState): nat {
    CountAccounted(w.history, LEGITIMATE_SOURCES, READING)
  }

  /** After `k` denied shocks: one write in two is a rollback, and nothing has been flagged yet. */
  ghost predicate Swung(s: LoopState, k: nat) {
    && Sound(s.matrix) && Ready(s) && TruthStands(s) && s.erythrocyteEnabled && s.flagged == {}
    && InUnit(Own(s).value) && (k > 0 ==> Own(s).value == 0.0)
    && |Own(s).history| == 2 * k && AccountedIn(Own(s)) == k
    && forall n :: n in s.matrix.weights && n != ADAPTABILITY ==> s.matrix.weights[n].history == []
  }

  function AfterRaise(w: WeightState): WeightState {
    Touched(w, 1.0, UPDATE_LOOP, None)
  }

  function AfterSwing(w: WeightState): WeightState {
    Touched(AfterRaise(w), 0.0, ROLLBACK, None)
  }

  function WithOwn(m: MatrixState, w: WeightState): MatrixState {
    m.(weights := m.weights[ADAPTABILITY := w])
  }

  lemma JoltIsAShock(strategy: Strategy)
    ensures strategy.IsCritical(Jolt(strategy)) && IsShock(strategy, Jolt(strategy))
    ensures Excess(strategy, Jolt(strategy)) >= 2.0
  {
  }

  lemma ShockRaises(s: LoopState)
    requires Sound(s.matrix) && Ready(s) && InUnit(Own(s).value)
    ensures var raised := Raise(s, Jolt(s.strategy));
            && raised.failure == None
            && raised.state == s.(matrix := WithOwn(s.matrix, AfterRaise(Own(s))), audit := raised.state.audit)
            && Sound(raised.state.matrix) && Ready(raised.state)
  {
    var error := Jolt(s.strategy);
    JoltIsAShock(s.strategy);
    RaiseMoves(s, error);
    MovesKeep(s.matrix, [RaiseBy(Excess(s.strategy, error))]);
    ReadinessIsFixed(s, Raise(s, error).state);
  }

  /** What a shock's handling leaves of adaptability `w`. */
  function AfterHandling(w: WeightState, d: real, approved: bool): WeightState {
    if approved then w else Touched(w, Max(0.0, w.value - d), ROLLBACK, None)
  }

  lemma ShockHandled(s: LoopState, approved: bool)
    requires Sound(s.matrix) && Ready(s) && TruthStands(s)
    ensures var error := Jolt(s.strategy);
            var handled := Handled(s, error, 0.0, Answering(approved));
            && handled.failure == None
            && handled.state.matrix == WithOwn(s.matrix, AfterHandling(Own(s), Excess(s.strategy, error), approved))
            && handled.state.flagged == s.flagged && handled.state.erythrocyteEnabled == s.erythrocyteEnabled
            && Sound(handled.state.matrix) && Ready(handled.state)
  {
    var error := Jolt(s.strategy);
    var ask := Answering(approved);
    var d := Excess(s.strategy, error);
    JoltIsAShock(s.strategy);
    HandlingSucceeds(s, error, 0.0, ask);
    HandlingLeavesFlags(s, error, 0.0, ask);
    HandlingKeepsSwitch(s, error, 0.0, ask);
    var moves := HandledMoves(s, error, 0.0, ask, s.matrix, []);
    assert [] + [RollBackBy(d)] == [RollBackBy(d)];
    ShockRollsBack(s, d, approved, moves);
  }

  lemma {:induction false} ShockRollsBack(s: LoopState, d: real, approved: bool, moves: seq<Move>)
    requires Sound(s.matrix) && Ready(s) && moves == if approved then [] else [RollBackBy(d)]
    ensures Replay(s.matrix, moves) == WithOwn(s.matrix, AfterHandling(Own(s), d, approved))
  {
    if approved {
      assert s.matrix.weights[ADAPTABILITY := Own(s)] == s.matrix.weights;
    } else {
      assert [RollBackBy(d)][..0] == [] && Replay(s.matrix, []) == s.matrix;
    }
  }

  /** Up to its scan, a shock swings adaptability to one and, when denied, to zero. */
  lemma ShockSwings(s: LoopState, approved: bool)
    requires Sound(s.matrix) && Ready(s) && TruthStands(s) && InUnit(Own(s).value)
    ensures var error := Jolt(s.strategy);
            var raised := Raise(Counted(s.(errors := s.errors + [error])), error);
            var handled := Handled(raised.state, error, 0.0, Answering(approved));
            && s.strategy.IsCritical(error) && raised.failure == None && handled.failure == None
            && handled.state.matrix == WithOwn(s.matrix, if approved then AfterRaise(Own(s)) else AfterSwing(Own(s)))
            && handled.state.flagged == s.flagged && handled.state.erythrocyteEnabled == s.erythrocyteEnabled
            && Sound(handled.state.matrix) && Ready(handled.state)
  {
    var error := Jolt(s.strategy);
    var counted := Counted(s.(errors := s.errors + [error]));
    JoltIsAShock(s.strategy);
    ShockRaises(counted);
    var raised := Raise(counted, error).state;
    ShockHandled(raised, approved);
    var w := AfterRaise(Own(s));
    assert Own(raised) == w;
    WithOwnTwice(s.matrix, w, AfterHandling(w, Excess(s.strategy, error), approved));
  }

  lemma WithOwnTwice(m: MatrixState, v: WeightState, w: WeightState)
    ensures WithOwn(WithOwn(m, v), w) == WithOwn(m, w)
  {
    assert m.weights[ADAPTABILITY := v][ADAPTABILITY := w] == m.weights[ADAPTABILITY := w];
  }

  lemma AccountedOneMore(w: WeightState, value: real, source: string)
    requires |w.history| < HISTORY_LIMIT
    ensures AccountedIn(Touched(w, value, source, None)) == AccountedIn(w) + if source in LEGITIMATE_SOURCES then 1 else 0
  {
    var entry := HistoryEntry(w.value, value, source, None);
    assert (w.history + [entry])[..|w.history|] == w.history;
  }

  lemma {:induction false} RoutingFlags(s: LoopState, findings: seq<Finding>, ask: Channel)
    requires findings != [] || s.flagged != {}
    ensures RouteAll(s, findings, ask).state.flagged != {}
    decreases |findings|
  {
    if findings != [] {
      var first := Route(s, findings[0], ask);
      var key := (findings[0].weight, findings[0].distortion);
      assert key in first.state.flagged;
      if first.failure.None? {
        RoutingFlags(first.state, findings[1..], ask);
      }
    }
  }

  /** The scan after a shock: it flags adaptability, or it finds nothing at all. */
  lemma ScanAfterShock(s: LoopState, ask: Channel)
    requires WellFormed(s.matrix) && s.erythrocyteEnabled && Has(s, ADAPTABILITY)
    requires forall n :: n in s.matrix.weights && n != ADAPTABILITY ==> s.matrix.weights[n].history == []
    ensures if Suspicious(Own(s)) then Scanned(s, ask).state.flagged != {} else Scanned(s, ask) == Outcome(s, None)
  {
    var findings := ScanNames(s.matrix, s.matrix.order);
    ScanIsExact(s.matrix, s.matrix.order);
    if Suspicious(Own(s)) {
      assert FindingOn(ADAPTABILITY, Own(s)) in findings;
      RoutingFlags(s, findings, ask);
    } else {
      NothingToFind(s.matrix, s.matrix.order);
    }
  }

  /** What the scan after a shock decides. */
  lemma ShockOutcome(s: LoopState, approved: bool)
    requires Sound(s.matrix) && Ready(s) && TruthStands(s) && InUnit(Own(s).value) && s.erythrocyteEnabled
    requires forall n :: n in s.matrix.weights && n != ADAPTABILITY ==> s.matrix.weights[n].history == []
    ensures var w := if approved then AfterRaise(Own(s)) else AfterSwing(Own(s));
            var after := Do(s, Shock(s.strategy, approved)).state;
            if Suspicious(w) then after.flagged != {}
            else after.matrix == WithOwn(s.matrix, w) && after.flagged == s.flagged && after.erythrocyteEnabled
                 && Sound(after.matrix) && Ready(after)
  {
    ShockSwings(s, approved);
    var error := Jolt(s.strategy);
    var ask := Answering(approved);
    var raised := Raise(Counted(s.(errors := s.errors + [error])), error);
    var handled := Handled(raised.state, error, 0.0, ask).state;
    ScanAfterShock(handled, ask);
    ShockEndsWithScan(s, error, ask, raised.state, handled);
  }

  lemma ShockEndsWithScan(s: LoopState, error: real, ask: Channel, raised: LoopState, handled: LoopState)
    requires s.strategy.IsCritical(error)
    requires Raise(Counted(s.(errors := s.errors + [error])), error) == Outcome(raised, None)
    requires Handled(raised, error, 0.0, ask) == Outcome(handled, None)
    ensures var after, scanned := Step(s, error, 0.0, ask).state, Scanned(handled, ask).state;
            after.matrix == scanned.matrix && after.flagged == scanned.flagged
            && after.erythrocyteEnabled == scanned.erythrocyteEnabled
  {
  }

  lemma SwingCounts(w: WeightState, k: nat)
    requires |w.history| == 2 * k && AccountedIn(w) == k && k < 9
    ensures |AfterSwing(w).history| == 2 * (k + 1) && AccountedIn(AfterSwing(w)) == k + 1
  {
    AccountedOneMore(w, 1.0, UPDATE_LOOP);
    AccountedOneMore(AfterRaise(w), 0.0, ROLLBACK);
  }

  lemma DeniedShock(s: LoopState, k: nat)
    requires Swung(s, k) && k < 9 && !Suspicious(AfterSwing(Own(s)))
    ensures var after := Do(s, Shock(s.strategy, false)).state;
            Swung(after, k + 1) && Own(after) == AfterSwing(Own(s))
  {
    ShockOutcome(s, false);
    SwingCounts(Own(s), k);
    var after := Do(s, Shock(s.strategy, false)).state;
    assert after.matrix.weights[TRUTH_PRIORITY] == s.matrix.weights[TRUTH_PRIORITY];
  }

  lemma NextShock(s: LoopState, k: nat)
    requires Swung(s, k) && k < 3
    ensures var after := Do(s, Shock(s.strategy, false)).state;
            || after.flagged != {}
            || (Swung(after, k + 1) && (k == 2 ==> Own(after).value == Own(after).baseline))
  {
    var swung := AfterSwing(Own(s));
    if Suspicious(swung) {
      ShockOutcome(s, false);
    } else {
      DeniedShock(s, k);
      SwingCounts(Own(s), k);
      ProvenanceInWholeNumbers(swung);
    }
  }

  lemma LastShock(s: LoopState)
    requires Swung(s, 3) && Own(s).value == Own(s).baseline
    ensures Do(s, Shock(s.strategy, true)).state.flagged != {}
  {
    AccountedOneMore(Own(s), 1.0, UPDATE_LOOP);
    ProvenanceInWholeNumbers(AfterRaise(Own(s)));
    ShockOutcome(s, true);
  }

  /** Three denied shocks, and one approved shock if the swings happen to end on the baseline. */
  lemma SelfAccusation(s: LoopState, before: seq<Act>, k: nat) returns (acts: seq<Act>)
    requires LeftAlone(before) && k <= 3 && Swung(Run(s, before), k)
    requires k == 3 ==> Own(Run(s, before)).value == Own(Run(s, before)).baseline
    ensures LeftAlone(acts) && Run(s, acts).flagged != {}
    decreases 3 - k
  {
    var t := Run(s, before);
    var shock := Shock(t.strategy, k == 3);
    acts := before + [shock];
    RunMore(s, before, shock);
    if k == 3 {
      LastShock(t);
    } else {
      NextShock(t, k);
      if Run(s, acts).flagged == {} {
        acts := SelfAccusation(s, acts, k + 1);
      }
    }
  }

  // ---------------------------------------------------------------------------
  // The exact condition
  // ---------------------------------------------------------------------------

  lemma {:induction false} SwitchedOff(s: LoopState, acts: seq<Act>)
    requires !s.erythrocyteEnabled
    ensures Run(s, acts).flagged == s.flagged && !Run(s, acts).erythrocyteEnabled
  {
    if acts != [] {
      var before, act := Run(s, acts[..|acts| - 1]), acts[|acts| - 1];
      SwitchedOff(s, acts[..|acts| - 1]);
      if act.StepAct? {
        StepKeepsSwitch(before, act.error, act.actual, act.ask);
        var counted := Counted(before.(errors := before.errors + [act.error]));
        HandlingLeavesFlags(Raise(counted, act.error).state, act.error, act.actual, act.ask);
        HandlingKeepsSwitch(Raise(counted, act.error).state, act.error, act.actual, act.ask);
      }
    }
  }

  lemma TruthNeverStands(s: LoopState, acts: seq<Act>)
    requires Sound(s.matrix) && !TruthStands(s)
    ensures NothingTakenBack(s, acts)
  {
    forall i | 0 <= i < |acts| && acts[i].StepAct?
      ensures !TakesBack(Run(s, acts[..i]), acts[i].error, acts[i].actual, acts[i].ask)
    {
      W0NeverMoves(s, acts[..i]);
      if Has(s, TRUTH_PRIORITY) {
        assert SameFixture(s.matrix.weights[TRUTH_PRIORITY], Run(s, acts[..i]).matrix.weights[TRUTH_PRIORITY]);
      }
    }
  }

  /** A ready loop over a fresh matrix, left to itself, never flags anything on any run if and only if the
      detector is off or TruthPriority does not stand. */
  lemma LeavesItselfAloneIff(m: MatrixState, strategy: Strategy, enabled: bool)
    requires Registered(m) && Ready(FreshLoop(m, strategy, enabled)) && InUnit(m.weights[ADAPTABILITY].value)
    ensures (forall acts :: LeftAlone(acts) ==> Run(FreshLoop(m, strategy, enabled), acts).flagged == {})
       <==> !enabled || !TruthStands(FreshLoop(m, strategy, enabled))
  {
    var s := FreshLoop(m, strategy, enabled);
    if !enabled {
      forall acts
        ensures Run(s, acts).flagged == {}
      {
        SwitchedOff(s, acts);
      }
    } else if !TruthStands(s) {
      forall acts | LeftAlone(acts)
        ensures Run(s, acts).flagged == {}
      {
        TruthNeverStands(s, acts);
        QuietRuns(s, acts);
      }
    } else {
      assert Swung(s, 0);
      var acts := SelfAccusation(s, [], 0);
    }
  }

  /** The demonstration's own loop, left to itself, can come to accuse its own weight. */
  lemma DemonstrationAccusesItself(strategy: Strategy) returns (acts: seq<Act>)
    ensures LeftAlone(acts) && Run(FreshLoop(AfterAll(DEMONSTRATION), strategy, true), acts).flagged != {}
  {
    RegistrationsAreSound(DEMONSTRATION);
    DemonstrationMatrix();
    LeavesItselfAloneIff(AfterAll(DEMONSTRATION), strategy, true);
    acts :| LeftAlone(acts) && Run(FreshLoop(AfterAll(DEMONSTRATION), strategy, true), acts).flagged != {};
  }
}
