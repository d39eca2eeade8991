/** The update loop and its approval protocol (core_engine.py, lines 443-911): recalibration, the
    irreversible reset, the TruthPriority rollback, and the routing of the detector's findings.

    Approval is given by an oracle `ask` per step: within a step every request is different, so any
    behaviour of a human or automatic channel is some oracle. */
module BearerLoop {
  import opened Prelude
  import opened CoreEngine
  import opened Erythrocyte

  datatype Trigger = Recalibration | ResetModelState | OverrideAttempt | StaticDistortion | OscillatingDistortion

  datatype Resolution = AutoApproved | AutoFlagged | Approved | Denied | DeniedBySystem

  datatype AuditEntry = AuditEntry(trigger: Trigger, name: string, oldValue: real, newValue: real, resolution: Resolution)

  datatype Request =
    | ResetRequest(state: real, actual: real, error: real)
    | EscalationRequest(finding: Finding, baseline: real, value: real)

  type Channel = Request -> bool

  datatype Counters = Counters(recalibrations: nat, approvedResets: nat, deniedResets: nat,
                               staticFlags: nat, oscillatingFlags: nat,
                               escalationsApproved: nat, escalationsDenied: nat)

  datatype LoopState = LoopState(matrix: MatrixState, strategy: Strategy, modelState: real, erythrocyteEnabled: bool,
                                 counters: Counters, flagged: set<(string, Distortion)>,
                                 audit: seq<AuditEntry>, errors: seq<real>)

  /** The state a call leaves, and the exception it lets escape, if any. */
  datatype Outcome = Outcome(state: LoopState, failure: Option<Failure>)

  const SHOCK_MULTIPLIER := 3.0
  const GAIN := 0.1
  const ROLLBACK := "truth_priority_rollback"
  const UNKNOWN := "unknown"
  const MODEL_STATE := "model.state"
  const NO_COUNTS := Counters(0, 0, 0, 0, 0, 0, 0)

  function FreshLoop(matrix: MatrixState, strategy: Strategy, enabled: bool): LoopState {
    LoopState(matrix, strategy, 0.0, enabled, NO_COUNTS, {}, [], [])
  }

  function Logged(s: LoopState, entry: AuditEntry): LoopState {
    s.(audit := s.audit + [entry])
  }

  /** A write by name; when it raises, nothing changes. */
  function Write(s: LoopState, name: string, value: real, source: string): Outcome {
    match AfterUpdate(s.matrix, name, value, source, None)
    case Ok(m) => Outcome(s.(matrix := m), None)
    case Err(failure) => Outcome(s, Some(failure))
  }

  /** By how much an error exceeds the threshold, scaled to a change of adaptability. */
  function Excess(strategy: Strategy, error: real): real {
    GAIN * (Abs(error) - strategy.Current())
  }

  predicate IsShock(strategy: Strategy, error: real) {
    Abs(error) > strategy.Current() * SHOCK_MULTIPLIER
  }

  predicate Has(s: LoopState, name: string) {
    name in s.matrix.weights
  }

  function ValueOf(s: LoopState, name: string): real
    requires Has(s, name)
  {
    s.matrix.weights[name].value
  }

  // ---------------------------------------------------------------------------
  // The step as a function
  // ---------------------------------------------------------------------------

  /** The low-risk part: raise adaptability, log, ask nobody. */
  function Raise(s: LoopState, error: real): Outcome {
    if !Has(s, ADAPTABILITY) then Outcome(s, Some(KeyError))
    else
      var before := ValueOf(s, ADAPTABILITY);
      RaiseTo(s, before, Min(1.0, before + Excess(s.strategy, error)))
  }

  function RaiseTo(s: LoopState, before: real, after: real): Outcome {
    var written := Write(s, ADAPTABILITY, after, UPDATE_LOOP);
    if written.failure.Some? then written
    else Outcome(Logged(written.state, AuditEntry(Recalibration, ADAPTABILITY, before, after, AutoApproved)), None)
  }

  /** A denied reset also takes back the raise, while TruthPriority stands at one or above. */
  function RollBack(s: LoopState, error: real): Outcome {
    if Has(s, TRUTH_PRIORITY) && ValueOf(s, TRUTH_PRIORITY) >= 1.0 then
      if !Has(s, ADAPTABILITY) then Outcome(s, Some(KeyError))
      else
        Write(s, ADAPTABILITY, Max(0.0, ValueOf(s, ADAPTABILITY) - Excess(s.strategy, error)), ROLLBACK)
    else Outcome(s, None)
  }

  /** The demonstration that ends every shock: a direct write to a W0 weight, expected to be refused. */
  function TryOverride(s: LoopState): Outcome {
    if !Has(s, BEARER_INTEGRITY) then Outcome(s, Some(KeyError))
    else
      var before := ValueOf(s, BEARER_INTEGRITY);
      var written := Write(s, BEARER_INTEGRITY, 0.0, UNKNOWN);
      if written.failure == Some(ImmutableWeightViolation) then
        Outcome(Logged(s, AuditEntry(OverrideAttempt, BEARER_INTEGRITY, before, 0.0, DeniedBySystem)), None)
      else written
  }

  function Resolve(s: LoopState, error: real, actual: real, approved: bool): Outcome {
    if approved then Outcome(Accepted(s, actual), None) else RollBack(Refused(s, actual), error)
  }

  function Accepted(s: LoopState, actual: real): LoopState {
    Logged(s, AuditEntry(ResetModelState, MODEL_STATE, s.modelState, actual, Approved))
    .(counters := s.counters.(approvedResets := s.counters.approvedResets + 1), modelState := actual)
  }

  function Refused(s: LoopState, actual: real): LoopState {
    Logged(s, AuditEntry(ResetModelState, MODEL_STATE, s.modelState, actual, Denied))
    .(counters := s.counters.(deniedResets := s.counters.deniedResets + 1))
  }

  function HandleShock(s: LoopState, error: real, actual: real, ask: Channel): Outcome {
    var resolved := Resolve(s, error, actual, ask(ResetRequest(s.modelState, actual, error)));
    if resolved.failure.Some? then resolved else TryOverride(resolved.state)
  }

  function FlagStatic(s: LoopState, finding: Finding, w: WeightState): LoopState {
    Logged(s.(counters := s.counters.(staticFlags := s.counters.staticFlags + 1)),
           AuditEntry(StaticDistortion, finding.weight, w.baseline, w.value, AutoFlagged))
  }

  function Escalate(s: LoopState, finding: Finding, w: WeightState, ask: Channel): Outcome {
    var approved := ask(EscalationRequest(finding, w.baseline, w.value));
    Settle(Escalated(s, finding, w, approved), finding.weight, w.baseline, approved)
  }

  function Escalated(s: LoopState, finding: Finding, w: WeightState, approved: bool): LoopState {
    Logged(s.(counters := s.counters.(oscillatingFlags := s.counters.oscillatingFlags + 1)),
           AuditEntry(OscillatingDistortion, finding.weight, w.baseline, w.value, if approved then Approved else Denied))
  }

  /** An approved escalation resets the weight to its baseline. */
  function Settle(s: LoopState, name: string, baseline: real, approved: bool): Outcome {
    if approved then
      Write(s.(counters := s.counters.(escalationsApproved := s.counters.escalationsApproved + 1)),
            name, baseline, CORRECTION)
    else
      Outcome(s.(counters := s.counters.(escalationsDenied := s.counters.escalationsDenied + 1)), None)
  }

  /** Each pair of weight and classification is routed once in the life of the loop. */
  function Route(s: LoopState, finding: Finding, ask: Channel): Outcome {
    var key := (finding.weight, finding.distortion);
    if key in s.flagged then Outcome(s, None)
    else
      var noted := s.(flagged := s.flagged + {key});
      if !Has(s, finding.weight) then Outcome(noted, Some(KeyError))
      else if finding.distortion == Oscillating then Escalate(noted, finding, s.matrix.weights[finding.weight], ask)
      else Outcome(FlagStatic(noted, finding, s.matrix.weights[finding.weight]), None)
  }

  function RouteAll(s: LoopState, findings: seq<Finding>, ask: Channel): Outcome
    decreases |findings|
  {
    if findings == [] then Outcome(s, None)
    else
      var first := Route(s, findings[0], ask);
      if first.failure.Some? then first else RouteAll(first.state, findings[1..], ask)
  }

  lemma RouteNext(s: LoopState, findings: seq<Finding>, i: nat, ask: Channel)
    requires i < |findings|
    ensures var first := Route(s, findings[i], ask);
            RouteAll(s, findings[i..], ask) ==
            if first.failure.Some? then first else RouteAll(first.state, findings[i + 1..], ask)
  {
    assert findings[i..][1..] == findings[i + 1..];
  }

  /** The entry a shock leaves about the model: what it found, what it asked for, and the answer. */
  function ResetEntry(s: LoopState, actual: real, approved: bool): AuditEntry {
    AuditEntry(ResetModelState, MODEL_STATE, s.modelState, actual, if approved then Approved else Denied)
  }

  /** What the routing of a finding writes into the log. */
  function RouteEntry(s: LoopState, finding: Finding, ask: Channel): AuditEntry
    requires Has(s, finding.weight)
  {
    var w := s.matrix.weights[finding.weight];
    if finding.distortion == Static then AuditEntry(StaticDistortion, finding.weight, w.baseline, w.value, AutoFlagged)
    else AuditEntry(OscillatingDistortion, finding.weight, w.baseline, w.value,
                    if ask(EscalationRequest(finding, w.baseline, w.value)) then Approved else Denied)
  }

  lemma RouteLogs(s: LoopState, finding: Finding, ask: Channel)
    ensures var after := Route(s, finding, ask).state;
            && after.modelState == s.modelState
            && after.audit == if (finding.weight, finding.distortion) in s.flagged || !Has(s, finding.weight) then s.audit
                              else s.audit + [RouteEntry(s, finding, ask)]
  {
  }

  /** The scan; a matrix whose names and weights disagree never arises. */
  function RunScan(s: LoopState, ask: Channel): Outcome {
    if forall n <- s.matrix.order :: n in s.matrix.weights then
      RouteAll(s, ScanNames(s.matrix, s.matrix.order), ask)
    else Outcome(s, Some(KeyError))
  }

  function Counted(s: LoopState): LoopState {
    s.(counters := s.counters.(recalibrations := s.counters.recalibrations + 1))
  }

  function Handled(s: LoopState, error: real, actual: real, ask: Channel): Outcome {
    if IsShock(s.strategy, error) then HandleShock(s, error, actual, ask) else Outcome(s, None)
  }

  function Scanned(s: LoopState, ask: Channel): Outcome {
    if s.erythrocyteEnabled then RunScan(s, ask) else Outcome(s, None)
  }

  function Recalibrate(s: LoopState, error: real, actual: real, ask: Channel): Outcome {
    var raised := Raise(Counted(s), error);
    if raised.failure.Some? then raised
    else
      var handled := Handled(raised.state, error, actual, ask);
      if handled.failure.Some? then handled else Scanned(handled.state, ask)
  }

  function Step(s: LoopState, error: real, actual: real, ask: Channel): Outcome {
    var done := Considered(s.(errors := s.errors + [error]), error, actual, ask);
    if done.failure.Some? then done else Outcome(Observed(done.state, error), None)
  }

  function Considered(s: LoopState, error: real, actual: real, ask: Channel): Outcome {
    if s.strategy.IsCritical(error) then Recalibrate(s, error, actual, ask) else Outcome(s, None)
  }

  function Observed(s: LoopState, error: real): LoopState {
    s.(strategy := s.strategy.Observe(error))
  }

  // ---------------------------------------------------------------------------
  // The object
  // ---------------------------------------------------------------------------

  class UpdateLoop {
    const matrix: CriticalityMatrix
    const model: Model
    const erythrocyteEnabled: bool
    var strategy: Strategy
    var auditLog: seq<AuditEntry>
    var errorHistory: seq<real>
    var recalibrationCount: nat
    var approvedResets: nat
    var deniedResets: nat
    var staticFlags: nat
    var oscillatingFlags: nat
    var escalationsApproved: nat
    var escalationsDenied: nat
    var alreadyFlagged: set<(string, Distortion)>

    ghost predicate Valid()
      reads this, matrix
    {
      matrix.Valid() && model.matrix == matrix
    }

    ghost function View(): LoopState
      reads this, matrix, matrix.weights.Values, model
    {
      LoopState(matrix.View(), strategy, model.state, erythrocyteEnabled, Counts(), alreadyFlagged, auditLog, errorHistory)
    }

    ghost function Counts(): Counters
      reads this
    {
      Counters(recalibrationCount, approvedResets, deniedResets, staticFlags, oscillatingFlags,
               escalationsApproved, escalationsDenied)
    }

    constructor (matrix: CriticalityMatrix, strategy: Strategy, model: Model, erythrocyteEnabled: bool)
      requires matrix.Valid() && model.matrix == matrix && model.state == 0.0
      ensures Valid() && this.matrix == matrix && this.model == model
      ensures View() == FreshLoop(matrix.View(), strategy, erythrocyteEnabled)
    {
      this.matrix, this.strategy, this.model := matrix, strategy, model;
      this.erythrocyteEnabled := erythrocyteEnabled;
      auditLog, errorHistory, alreadyFlagged := [], [], {};
      recalibrationCount, approvedResets, deniedResets := 0, 0, 0;
      staticFlags, oscillatingFlags, escalationsApproved, escalationsDenied := 0, 0, 0, 0;
    }

    method DoStep(error: real, actual: real, ask: Channel) returns (failure: Option<Failure>)
      requires Valid()
      modifies this, model, matrix.weights.Values
      ensures Valid() && matrix.weights == old(matrix.weights)
      ensures Outcome(View(), failure) == Step(old(View()), error, actual, ask)
    {
      errorHistory := errorHistory + [error];
      ghost var noted := View();
      assert noted == old(View()).(errors := old(View()).errors + [error]);
      if strategy.IsCritical(error) {
        failure := DoRecalibrate(error, actual, ask);
        if failure.Some? {
          return failure;
        }
      }
      assert Outcome(View(), None) == Considered(noted, error, actual, ask);
      ObserveError(error);
      return None;
    }

    method ObserveError(error: real)
      requires Valid()
      modifies this`strategy
      ensures Valid() && View() == Observed(old(View()), error)
    {
      strategy := strategy.Observe(error);
    }

    method DoRecalibrate(error: real, actual: real, ask: Channel) returns (failure: Option<Failure>)
      requires Valid()
      modifies this, model, matrix.weights.Values
      ensures Valid() && matrix.weights == old(matrix.weights)
      ensures Outcome(View(), failure) == Recalibrate(old(View()), error, actual, ask)
    {
      recalibrationCount := recalibrationCount + 1;
      assert View() == Counted(old(View()));
      failure := DoRaise(error);
      if failure.Some? {
        return failure;
      }
      ghost var raised := View();
      if Abs(error) > strategy.Current() * SHOCK_MULTIPLIER {
        failure := HandleIrreversibleAction(error, actual, ask);
        if failure.Some? {
          return failure;
        }
      }
      ghost var handled := View();
      assert Outcome(handled, None) == Handled(raised, error, actual, ask);
      if erythrocyteEnabled {
        failure := RunErythrocyteScan(ask);
      }
      assert Outcome(View(), failure) == Scanned(handled, ask);
    }

    method Log(entry: AuditEntry)
      requires Valid()
      modifies this`auditLog
      ensures Valid() && View() == Logged(old(View()), entry)
    {
      auditLog := auditLog + [entry];
    }

    method WriteWeight(name: string, value: real, source: string) returns (failure: Option<Failure>)
      requires Valid()
      modifies matrix.weights.Values
      ensures Valid() && matrix.weights == old(matrix.weights)
      ensures Outcome(View(), failure) == Write(old(View()), name, value, source)
    {
      failure := matrix.Update(name, value, source, None);
    }

    /** The low-risk half of a recalibration. */
    method DoRaise(error: real) returns (failure: Option<Failure>)
      requires Valid()
      modifies this, matrix.weights.Values
      ensures Valid() && matrix.weights == old(matrix.weights)
      ensures Outcome(View(), failure) == Raise(old(View()), error)
    {
      if ADAPTABILITY !in matrix.weights {
        return Some(KeyError);
      }
      var threshold := strategy.Current();
      var before := matrix.weights[ADAPTABILITY].value;
      assert Has(View(), ADAPTABILITY) && before == ValueOf(View(), ADAPTABILITY);
      var after := Min(1.0, before + GAIN * (Abs(error) - threshold));
      assert Raise(View(), error) == RaiseTo(View(), before, after);
      failure := WriteWeight(ADAPTABILITY, after, UPDATE_LOOP);
      if failure == None {
        Log(AuditEntry(Recalibration, ADAPTABILITY, before, after, AutoApproved));
      }
      assert Outcome(View(), failure) == RaiseTo(old(View()), before, after);
    }

    method HandleIrreversibleAction(error: real, actual: real, ask: Channel) returns (failure: Option<Failure>)
      requires Valid()
      modifies this, model, matrix.weights.Values
      ensures Valid() && matrix.weights == old(matrix.weights)
      ensures Outcome(View(), failure) == HandleShock(old(View()), error, actual, ask)
    {
      var approved := ask(ResetRequest(model.state, actual, error));
      failure := ResolveReset(error, actual, approved);
      if failure == None {
        failure := AttemptOverride();
      }
    }

    /** What follows the answer to a reset request. */
    method ResolveReset(error: real, actual: real, approved: bool) returns (failure: Option<Failure>)
      requires Valid()
      modifies this, model, matrix.weights.Values
      ensures Valid() && matrix.weights == old(matrix.weights)
      ensures Outcome(View(), failure) == Resolve(old(View()), error, actual, approved)
    {
      if approved {
        AcceptReset(actual);
        failure := None;
      } else {
        RefuseReset(actual);
        failure := EnforceTruthPriority(error);
      }
    }

    method AcceptReset(actual: real)
      requires Valid()
      modifies this`auditLog, this`approvedResets, model
      ensures Valid() && View() == Accepted(old(View()), actual)
    {
      Log(AuditEntry(ResetModelState, MODEL_STATE, model.state, actual, Approved));
      approvedResets := approvedResets + 1;
      model.state := actual;
    }

    method RefuseReset(actual: real)
      requires Valid()
      modifies this`auditLog, this`deniedResets
      ensures Valid() && View() == Refused(old(View()), actual)
    {
      Log(AuditEntry(ResetModelState, MODEL_STATE, model.state, actual, Denied));
      deniedResets := deniedResets + 1;
    }

    method EnforceTruthPriority(error: real) returns (failure: Option<Failure>)
      requires Valid()
      modifies matrix.weights.Values
      ensures Valid() && matrix.weights == old(matrix.weights)
      ensures Outcome(View(), failure) == RollBack(old(View()), error)
    {
      var truthPriority := if TRUTH_PRIORITY in matrix.weights then matrix.weights[TRUTH_PRIORITY].value else 0.0;
      if truthPriority >= 1.0 {
        if ADAPTABILITY !in matrix.weights {
          return Some(KeyError);
        }
        var rollback := Max(0.0, matrix.weights[ADAPTABILITY].value - GAIN * (Abs(error) - strategy.Current()));
        failure := WriteWeight(ADAPTABILITY, rollback, ROLLBACK);
      } else {
        failure := None;
      }
    }

    method AttemptOverride() returns (failure: Option<Failure>)
      requires Valid()
      modifies this, matrix.weights.Values
      ensures Valid() && matrix.weights == old(matrix.weights)
      ensures Outcome(View(), failure) == TryOverride(old(View()))
    {
      if BEARER_INTEGRITY !in matrix.weights {
        return Some(KeyError);
      }
      var before := matrix.weights[BEARER_INTEGRITY].value;
      failure := WriteWeight(BEARER_INTEGRITY, 0.0, UNKNOWN);
      if failure == Some(ImmutableWeightViolation) {
        Log(AuditEntry(OverrideAttempt, BEARER_INTEGRITY, before, 0.0, DeniedBySystem));
        failure := None;
      }
    }

    method RunErythrocyteScan(ask: Channel) returns (failure: Option<Failure>)
      requires Valid()
      modifies this, matrix.weights.Values
      ensures Valid() && matrix.weights == old(matrix.weights)
      ensures Outcome(View(), failure) == RunScan(old(View()), ask)
    {
      var findings := ScanMatrix(matrix);
      ghost var before := View();
      assert findings[0..] == findings;
      for i := 0 to |findings|
        invariant Valid() && matrix.weights == old(matrix.weights)
        invariant RouteAll(View(), findings[i..], ask) == RouteAll(before, findings, ask)
      {
        RouteNext(View(), findings, i, ask);
        failure := RouteFinding(findings[i], ask);
        if failure.Some? {
          return failure;
        }
      }
      failure := None;
      assert findings[|findings|..] == [];
    }

    /** One pass of the loop over the findings. */
    method RouteFinding(finding: Finding, ask: Channel) returns (failure: Option<Failure>)
      requires Valid()
      modifies this, matrix.weights.Values
      ensures Valid() && matrix.weights == old(matrix.weights)
      ensures Outcome(View(), failure) == Route(old(View()), finding, ask)
    {
      var key := (finding.weight, finding.distortion);
      if key in alreadyFlagged {
        return None;
      }
      alreadyFlagged := alreadyFlagged + {key};
      if finding.weight !in matrix.weights {
        return Some(KeyError);
      }
      ghost var noted := View();
      assert noted == old(View()).(flagged := old(View()).flagged + {key});
      if finding.distortion == Oscillating {
        failure := EscalateFinding(finding, ask);
      } else {
        FlagStaticFinding(finding);
        failure := None;
      }
    }

    method FlagStaticFinding(finding: Finding)
      requires Valid() && finding.weight in matrix.weights
      modifies this`staticFlags, this`auditLog
      ensures Valid() && View() == FlagStatic(old(View()), finding, old(View()).matrix.weights[finding.weight])
    {
      var w := matrix.weights[finding.weight];
      assert w.View() == View().matrix.weights[finding.weight];
      staticFlags := staticFlags + 1;
      Log(AuditEntry(StaticDistortion, finding.weight, w.baseline, w.value, AutoFlagged));
    }

    method EscalateFinding(finding: Finding, ask: Channel) returns (failure: Option<Failure>)
      requires Valid() && finding.weight in matrix.weights
      modifies this, matrix.weights.Values
      ensures Valid() && matrix.weights == old(matrix.weights)
      ensures Outcome(View(), failure) ==
              Escalate(old(View()), finding, old(View()).matrix.weights[finding.weight], ask)
    {
      var w := matrix.weights[finding.weight];
      ghost var before, state := View(), w.View();
      assert state == before.matrix.weights[finding.weight];
      oscillatingFlags := oscillatingFlags + 1;
      var approved := ask(EscalationRequest(finding, w.baseline, w.value));
      Log(AuditEntry(OscillatingDistortion, finding.weight, w.baseline, w.value, if approved then Approved else Denied));
      ghost var escalated := View();
      assert escalated == Escalated(before, finding, state, approved);
      failure := SettleFinding(finding.weight, w.baseline, approved);
      assert Outcome(View(), failure) == Settle(escalated, finding.weight, state.baseline, approved);
    }

    /** What follows the answer to an escalation. */
    method SettleFinding(name: string, baseline: real, approved: bool) returns (failure: Option<Failure>)
      requires Valid()
      modifies this, matrix.weights.Values
      ensures Valid() && matrix.weights == old(matrix.weights)
      ensures Outcome(View(), failure) == Settle(old(View()), name, baseline, approved)
    {
      if approved {
        escalationsApproved := escalationsApproved + 1;
        failure := WriteWeight(name, baseline, CORRECTION);
      } else {
        escalationsDenied := escalationsDenied + 1;
        failure := None;
      }
    }
  }
}
