/** What a step of the update loop does, in numbers (core_engine.py, lines 401-440, 701-746, 812-888): when it
    recalibrates, by how much, and what becomes of a correction. */
module LoopNumbers {
  import opened Prelude
  import opened CoreEngine
  import opened Erythrocyte
  import opened BearerLoop
  import opened LoopSafety
  import opened LoopReadiness
  import opened LoopLog

  // ---------------------------------------------------------------------------
  // When a step recalibrates, and by how much
  // ---------------------------------------------------------------------------

  /** The error exceeds `times` the threshold: the fixed one, or both the floor and the scaled estimate. */
  predicate Exceeds(strategy: Strategy, error: real, times: real) {
    match strategy
    case Fixed(threshold) => Abs(error) > times * threshold
    case Adaptive(sensitivity, _, floor, ema) =>
      Abs(error) > times * floor && Abs(error) > times * (sensitivity * ema)
  }

  /** `x` is a tenth of what the error has over the threshold. */
  predicate IsTenthOfExcess(strategy: Strategy, error: real, x: real) {
    match strategy
    case Fixed(threshold) => 10.0 * x == Abs(error) - threshold
    case Adaptive(sensitivity, _, floor, ema) =>
      10.0 * x == Abs(error) - (if floor >= sensitivity * ema then floor else sensitivity * ema)
  }

  lemma CriticalInNumbers(strategy: Strategy, error: real)
    ensures strategy.IsCritical(error) <==> Exceeds(strategy, error, 1.0)
    ensures IsShock(strategy, error) <==> Exceeds(strategy, error, 3.0)
    ensures IsTenthOfExcess(strategy, error, Excess(strategy, error))
  {
  }

  /** What adaptability is raised to, and what a denied reset under TruthPriority then takes back. */
  function Settled(value: real, x: real, takenBack: bool): real {
    var raised := if value + x <= 1.0 then value + x else 1.0;
    if !takenBack then raised else if raised - x >= 0.0 then raised - x else 0.0
  }

  /** The denied reset of a shock under TruthPriority. */
  predicate IsTakenBack(s: LoopState, error: real, actual: real, ask: Channel) {
    && Exceeds(s.strategy, error, 1.0) && Exceeds(s.strategy, error, 3.0)
    && !ask(ResetRequest(s.modelState, actual, error))
    && "TruthPriority" in s.matrix.weights && s.matrix.weights["TruthPriority"].value >= 1.0
  }

  /** In a ready loop: an error within the threshold changes nothing but the threshold's estimate and the error
      history. One over it is counted once, and its entry in the log names the value before and after. */
  lemma StepInNumbers(s: LoopState, error: real, actual: real, ask: Channel, x: real)
    requires Sound(s.matrix) && Ready(s) && IsTenthOfExcess(s.strategy, error, x)
    ensures var after, value := Step(s, error, actual, ask).state, s.matrix.weights["adaptability"].value;
            if !Exceeds(s.strategy, error, 1.0)
            then after == s.(errors := s.errors + [error], strategy := after.strategy)
            else
              && after.counters.recalibrations == s.counters.recalibrations + 1
              && |after.audit| > |s.audit| && after.audit[..|s.audit|] == s.audit
              && after.audit[|s.audit|]
                 == AuditEntry(Recalibration, "adaptability", value, Settled(value, x, false), AutoApproved)
  {
    CriticalInNumbers(s.strategy, error);
    if s.strategy.IsCritical(error) {
      StepCounts(s, error, actual, ask);
      FirstEntry(s, error, actual, ask);
    }
  }

  /** A step that raises has counted its error and put it on the history, but the threshold has learned nothing. Without
      adaptability, or with an immutable one, that is all a critical step does. */
  lemma RaisingStep(s: LoopState, error: real, actual: real, ask: Channel)
    ensures var after := Step(s, error, actual, ask);
            after.failure.Some? ==> after.state.strategy == s.strategy && after.state.errors == s.errors + [error]
    ensures Exceeds(s.strategy, error, 1.0) && !IsMutable(s, ADAPTABILITY) ==>
              Step(s, error, actual, ask) == Outcome(
                s.(errors := s.errors + [error],
                   counters := s.counters.(recalibrations := s.counters.recalibrations + 1)),
                Some(if "adaptability" in s.matrix.weights then ImmutableWeightViolation else KeyError))
  {
    CriticalInNumbers(s.strategy, error);
    ConsideringSameBooks(s.(errors := s.errors + [error]), error, actual, ask);
    RaiseMoves(Counted(s.(errors := s.errors + [error])), error);
  }

  lemma FirstEntry(s: LoopState, error: real, actual: real, ask: Channel)
    requires Sound(s.matrix) && Ready(s) && s.strategy.IsCritical(error)
    ensures var after, raised := Step(s, error, actual, ask).state, Raise(s, error).state;
            raised.audit <= after.audit && raised.audit == s.audit + [RaiseEntry(s, error)]
  {
    var counted := Counted(s.(errors := s.errors + [error]));
    var raised := Raise(counted, error);
    RaiseLogs(s, error);
    RaiseLogs(counted, error);
    HandlingGrows(raised.state, error, actual, ask);
    ScanGrows(Handled(raised.state, error, actual, ask).state, ask);
  }

  function RaiseEntry(s: LoopState, error: real): AuditEntry
    requires Has(s, ADAPTABILITY)
  {
    var before := ValueOf(s, ADAPTABILITY);
    AuditEntry(Recalibration, ADAPTABILITY, before, Min(1.0, before + Excess(s.strategy, error)), AutoApproved)
  }

  lemma RaiseLogs(s: LoopState, error: real)
    requires IsMutable(s, ADAPTABILITY)
    ensures Raise(s, error).failure == None && Raise(s, error).state.audit == s.audit + [RaiseEntry(s, error)]
  {
  }

  // ---------------------------------------------------------------------------
  // Where adaptability ends up
  // ---------------------------------------------------------------------------

  /** The rest of a shock: the raise taken back if the reset was denied under TruthPriority. */
  lemma ShockSettles(s: LoopState, error: real, actual: real, ask: Channel)
    requires Sound(s.matrix) && Ready(s) && s.strategy.IsCritical(error)
    ensures var raised := Raise(s, error);
            var handled := Handled(raised.state, error, actual, ask);
            && raised.failure == None && handled.failure == None && Has(handled.state, ADAPTABILITY)
            && ValueOf(handled.state, ADAPTABILITY)
               == Settled(ValueOf(s, ADAPTABILITY), Excess(s.strategy, error), IsTakenBack(s, error, actual, ask))
            && handled.state.matrix.weights[ADAPTABILITY].baseline == s.matrix.weights[ADAPTABILITY].baseline
  {
    CriticalInNumbers(s.strategy, error);
    var raised := Raise(s, error).state;
    RaiseMoves(s, error);
    MovesKeep(s.matrix, [RaiseBy(Excess(s.strategy, error))]);
    RaiseSettles(s, error);
    HandlingSucceeds(raised, error, actual, ask);
    HandlingMatrix(raised, error, actual, ask);
  }

  lemma RaiseSettles(s: LoopState, error: real)
    requires IsMutable(s, ADAPTABILITY) && WellFormed(s.matrix)
    ensures var raised := Raise(s, error).state;
            && Has(raised, ADAPTABILITY) && raised.strategy == s.strategy && raised.modelState == s.modelState
            && ValueOf(raised, ADAPTABILITY) == Settled(ValueOf(s, ADAPTABILITY), Excess(s.strategy, error), false)
            && (forall n :: n != ADAPTABILITY ==>
                  (n in raised.matrix.weights <==> n in s.matrix.weights)
                  && (n in s.matrix.weights ==> raised.matrix.weights[n] == s.matrix.weights[n]))
  {
  }

  lemma HandlingMatrix(s: LoopState, error: real, actual: real, ask: Channel)
    requires IsMutable(s, ADAPTABILITY) && Handled(s, error, actual, ask).failure == None
    ensures var after := Handled(s, error, actual, ask).state;
            var back := IsShock(s.strategy, error) && !ask(ResetRequest(s.modelState, actual, error))
                        && Has(s, TRUTH_PRIORITY) && ValueOf(s, TRUTH_PRIORITY) >= 1.0;
            && Has(after, ADAPTABILITY)
            && ValueOf(after, ADAPTABILITY)
               == (if back then Max(0.0, ValueOf(s, ADAPTABILITY) - Excess(s.strategy, error)) else ValueOf(s, ADAPTABILITY))
            && after.matrix.weights[ADAPTABILITY].baseline == s.matrix.weights[ADAPTABILITY].baseline
  {
    if IsShock(s.strategy, error) {
      var approved := ask(ResetRequest(s.modelState, actual, error));
      ResolutionMoves(s, error, actual, approved);
      OverrideMovesNothing(Resolve(s, error, actual, approved).state);
    }
  }

  /** A scan leaves a weight's value alone or puts it on its baseline. */
  lemma {:induction false} RoutingCorrects(s: LoopState, findings: seq<Finding>, ask: Channel, name: string)
    requires Has(s, name)
    ensures var after := RouteAll(s, findings, ask).state;
            Has(after, name) && after.matrix.weights[name].baseline == s.matrix.weights[name].baseline
            && (ValueOf(after, name) == ValueOf(s, name) || ValueOf(after, name) == s.matrix.weights[name].baseline)
    decreases |findings|
  {
    if findings != [] {
      var first := Route(s, findings[0], ask);
      RouteCorrects(s, findings[0], ask, name);
      if first.failure.None? {
        RoutingCorrects(first.state, findings[1..], ask, name);
      }
    }
  }

  lemma RouteCorrects(s: LoopState, finding: Finding, ask: Channel, name: string)
    requires Has(s, name)
    ensures var after := Route(s, finding, ask).state;
            Has(after, name) && after.matrix.weights[name].baseline == s.matrix.weights[name].baseline
            && (ValueOf(after, name) == ValueOf(s, name) || ValueOf(after, name) == s.matrix.weights[name].baseline)
  {
  }

  /** After a step of a ready loop adaptability is where raise and rollback put it, or, if the detector is on and had
      it corrected, on its baseline. */
  lemma AdaptabilityAfterStep(s: LoopState, error: real, actual: real, ask: Channel, x: real)
    requires Sound(s.matrix) && Ready(s) && IsTenthOfExcess(s.strategy, error, x)
    ensures var after, w := Step(s, error, actual, ask).state, s.matrix.weights["adaptability"];
            && "adaptability" in after.matrix.weights
            && var value := after.matrix.weights["adaptability"].value;
               if !Exceeds(s.strategy, error, 1.0) then value == w.value
               else value == Settled(w.value, x, IsTakenBack(s, error, actual, ask))
                    || (s.erythrocyteEnabled && value == w.baseline)
  {
    CriticalInNumbers(s.strategy, error);
    if s.strategy.IsCritical(error) {
      var counted := Counted(s.(errors := s.errors + [error]));
      ShockSettles(counted, error, actual, ask);
      var raised := Raise(counted, error).state;
      HandlingKeepsSwitch(raised, error, actual, ask);
      ScanCorrects(Handled(raised, error, actual, ask).state, ask, ADAPTABILITY);
      StepEndsWithScan(s, error, actual, ask, raised, Handled(raised, error, actual, ask).state);
    }
  }

  lemma ScanCorrects(s: LoopState, ask: Channel, name: string)
    requires Has(s, name)
    ensures var after := Scanned(s, ask).state;
            Has(after, name) && after.matrix.weights[name].baseline == s.matrix.weights[name].baseline
            && (ValueOf(after, name) == ValueOf(s, name)
                || (s.erythrocyteEnabled && ValueOf(after, name) == s.matrix.weights[name].baseline))
  {
    if s.erythrocyteEnabled && forall n <- s.matrix.order :: n in s.matrix.weights {
      RoutingCorrects(s, ScanNames(s.matrix, s.matrix.order), ask, name);
    }
  }

  lemma StepEndsWithScan(s: LoopState, error: real, actual: real, ask: Channel, raised: LoopState, handled: LoopState)
    requires s.strategy.IsCritical(error)
    requires Raise(Counted(s.(errors := s.errors + [error])), error) == Outcome(raised, None)
    requires Handled(raised, error, actual, ask) == Outcome(handled, None)
    ensures Step(s, error, actual, ask).state.matrix == Scanned(handled, ask).state.matrix
    ensures Step(s, error, actual, ask).state.flagged == Scanned(handled, ask).state.flagged
    ensures Step(s, error, actual, ask).failure == Scanned(handled, ask).failure
    ensures raised.erythrocyteEnabled == s.erythrocyteEnabled
  {
  }

  // ---------------------------------------------------------------------------
  // Steady errors
  // ---------------------------------------------------------------------------

  /** Errors of one size, whatever their signs, teach the threshold what that many equal errors would. */
  lemma {:induction false} SteadyErrorsTeach(strategy: Strategy, errors: seq<real>, size: real)
    requires strategy.Adaptive? && forall e :: e in errors ==> Abs(e) == Abs(size)
    ensures Observing(strategy, errors) == ObserveTimes(strategy, size, |errors|)
  {
    if errors != [] {
      assert errors[|errors| - 1] in errors;
      SteadyErrorsTeach(strategy, errors[..|errors| - 1], size);
    }
  }

  /** The estimate after `k` errors of one size: it closes on that size by a factor of `1 - alpha` at each. */
  function EstimateAfter(alpha: real, ema: real, size: real, k: nat): real {
    size + Times(Remaining(alpha, k), ema - size)
  }

  lemma {:induction false} SteadyEstimate(s: LoopState, acts: seq<Act>, size: real)
    requires NeverRaises(s, acts) && s.strategy.Adaptive? && size >= 0.0
    requires forall e :: e in ErrorsOf(acts) ==> e == size || e == -size
    ensures var estimate := EstimateAfter(s.strategy.emaAlpha, s.strategy.emaAbsError, size, |ErrorsOf(acts)|);
            Run(s, acts).strategy == s.strategy.(emaAbsError := estimate)
  {
    EveryErrorIsObserved(s, acts);
    SteadyErrorsTeach(s.strategy, ErrorsOf(acts), size);
    ObservedEstimate(s.strategy, size, |ErrorsOf(acts)|);
  }

  lemma {:induction false} ObservedEstimate(strategy: Strategy, size: real, k: nat)
    requires strategy.Adaptive? && size >= 0.0
    ensures ObserveTimes(strategy, size, k)
         == strategy.(emaAbsError := EstimateAfter(strategy.emaAlpha, strategy.emaAbsError, size, k))
  {
    SteadyErrorIsLearned(strategy, size, k);
    assert Abs(size) == size;
  }

  /** After any run of a ready loop whose steps all met errors of one size, a step recalibrates if and only if its
      error is over the floor, and over the sensitivity times the estimate that closes on that size. */
  lemma {:induction false} SteadyErrorsDecide(s: LoopState, acts: seq<Act>, size: real,
                                              error: real, actual: real, ask: Channel)
    requires Sound(s.matrix) && Ready(s) && s.strategy.Adaptive? && size >= 0.0
    requires forall e :: e in ErrorsOf(acts) ==> e == size || e == -size
    ensures var before := Run(s, acts);
            var Adaptive(sensitivity, alpha, floor, ema) := s.strategy;
            Step(before, error, actual, ask).state.counters.recalibrations - before.counters.recalibrations
            == if Abs(error) > floor && Abs(error) > Times(sensitivity, EstimateAfter(alpha, ema, size, |ErrorsOf(acts)|))
               then 1 else 0
  {
    var before := Run(s, acts);
    ReadyRuns(s, acts);
    SteadyEstimate(s, acts, size);
    AdaptiveCounts(before, before.strategy.emaAbsError, error, actual, ask);
  }

  lemma AdaptiveCounts(s: LoopState, ema: real, error: real, actual: real, ask: Channel)
    requires Sound(s.matrix) && Ready(s) && s.strategy.Adaptive? && s.strategy.emaAbsError == ema
    ensures Step(s, error, actual, ask).state.counters.recalibrations - s.counters.recalibrations
         == if Abs(error) > s.strategy.floor && Abs(error) > Times(s.strategy.sensitivity, ema) then 1 else 0
  {
    CriticalInNumbers(s.strategy, error);
    StepCounts(s, error, actual, ask);
  }

  // ---------------------------------------------------------------------------
  // What becomes of a finding
  // ---------------------------------------------------------------------------

  /** A finding moves the matrix if and only if it is oscillating, new and approved and its weight may be written; then
      the weight is back on its baseline, the correction on its history, and nothing is left to suspect. */
  lemma FindingMoves(s: LoopState, finding: Finding, ask: Channel)
    requires Has(s, finding.weight) && s.matrix.weights[finding.weight].value != s.matrix.weights[finding.weight].baseline
    ensures var after, w := Route(s, finding, ask).state, s.matrix.weights[finding.weight];
            && finding.weight in after.matrix.weights
            && var w' := after.matrix.weights[finding.weight];
               if finding.distortion == Oscillating && (finding.weight, Oscillating) !in s.flagged
                  && ask(EscalationRequest(finding, w.baseline, w.value))
                  && finding.weight !in {"BearerIntegrity", "TruthPriority", "CorrigibilityChannel"} && !w.isImmutable
               then
                 && w'.value == w.baseline == w'.baseline && !Suspicious(w')
                 && w'.history != []
                 && w'.history[|w'.history| - 1] == HistoryEntry(w.value, w.baseline, "erythrocyte_correction", None)
                 && after.matrix == s.matrix.(weights := s.matrix.weights[finding.weight := w'])
               else after.matrix == s.matrix
  {
  }

  /** A new finding leaves one entry with the weight's baseline and the value it was found at: flagged if static, and
      with the answer if oscillating. A finding already flagged leaves nothing at all. */
  lemma FindingIsLogged(s: LoopState, finding: Finding, ask: Channel)
    requires Has(s, finding.weight)
    ensures var after, w := Route(s, finding, ask).state, s.matrix.weights[finding.weight];
            if (finding.weight, finding.distortion) in s.flagged then after == s
            else
              && after.flagged == s.flagged + {(finding.weight, finding.distortion)}
              && after.audit == s.audit + [
                   if finding.distortion == Static
                   then AuditEntry(StaticDistortion, finding.weight, w.baseline, w.value, AutoFlagged)
                   else AuditEntry(OscillatingDistortion, finding.weight, w.baseline, w.value,
                                   if ask(EscalationRequest(finding, w.baseline, w.value)) then Approved else Denied)]
  {
    RouteLogs(s, finding, ask);
  }

  // ---------------------------------------------------------------------------
  // What a step flags
  // ---------------------------------------------------------------------------

  lemma {:induction false} RoutedAreFlagged(s: LoopState, findings: seq<Finding>, ask: Channel, key: (string, Distortion))
    requires RouteAll(s, findings, ask).failure == None
    ensures key in RouteAll(s, findings, ask).state.flagged <==>
            key in s.flagged || exists f :: f in findings && (f.weight, f.distortion) == key
    decreases |findings|
  {
    if findings != [] {
      var first := Route(s, findings[0], ask);
      RoutedAreFlagged(first.state, findings[1..], ask, key);
      assert first.state.flagged == s.flagged + {(findings[0].weight, findings[0].distortion)};
      assert findings == [findings[0]] + findings[1..];
    }
  }

  /** A matrix without findings on a weight reports none, and one with a finding reports just that. */
  lemma ScanReports(m: MatrixState, name: string, d: Distortion)
    requires WellFormed(m) && name in m.weights
    ensures (exists f :: f in ScanNames(m, m.order) && (f.weight, f.distortion) == (name, d)) <==>
            exists f :: Reports(name, m.weights[name], Some(f)) && f.distortion == d
  {
    var w := m.weights[name];
    ScanIsExact(m, m.order);
    FindingInPlainTerms(name, w);
    if f :| Reports(name, w, Some(f)) && f.distortion == d {
      assert Suspicious(w) && FindingOn(name, w) in ScanNames(m, m.order);
    }
  }

  /** A weight as the scan of a recalibrating step finds it: adaptability with the raise, and the rollback if there was
      one, on its history; any other as it was. */
  function AtScan(s: LoopState, error: real, actual: real, ask: Channel, x: real, name: string): WeightState
    requires Has(s, name)
  {
    var w := s.matrix.weights[name];
    if name != "adaptability" then w
    else
      var raised := Touched(w, Settled(w.value, x, false), "update_loop", None);
      if IsTakenBack(s, error, actual, ask)
      then Touched(raised, Settled(w.value, x, true), "truth_priority_rollback", None) else raised
  }

  /** In a ready loop a step flags a weight if and only if the detector is on, the error is over the threshold, and the
      weight's history, with the step's own writes, reports it in that class; nothing is ever taken off the flags. */
  lemma StepFlagsIff(s: LoopState, error: real, actual: real, ask: Channel, x: real, name: string, d: Distortion)
    requires Sound(s.matrix) && Ready(s) && Has(s, name) && IsTenthOfExcess(s.strategy, error, x)
    ensures (name, d) in Step(s, error, actual, ask).state.flagged <==>
            || (name, d) in s.flagged
            || (&& s.erythrocyteEnabled && Exceeds(s.strategy, error, 1.0)
                && exists f :: Reports(name, AtScan(s, error, actual, ask, x, name), Some(f)) && f.distortion == d)
  {
    CriticalInNumbers(s.strategy, error);
    StepSucceeds(s, error, actual, ask);
    if s.strategy.IsCritical(error) {
      var counted := Counted(s.(errors := s.errors + [error]));
      var raised := Raise(counted, error).state;
      var handled := Handled(raised, error, actual, ask).state;
      SettledBeforeScan(s, counted, error, actual, ask, name);
      WeightsAtScan(s, counted, error, actual, ask, x, name);
      StepEndsWithScan(s, error, actual, ask, raised, handled);
      ScanFlags(handled, ask, name, d);
    }
  }

  lemma SettledBeforeScan(s: LoopState, counted: LoopState, error: real, actual: real, ask: Channel, name: string)
    requires Sound(s.matrix) && Ready(s) && Has(s, name)
    requires s.strategy.IsCritical(error) && counted == Counted(s.(errors := s.errors + [error]))
    ensures var raised := Raise(counted, error);
            var handled := Handled(raised.state, error, actual, ask);
            && raised.failure == None && handled.failure == None && WellFormed(handled.state.matrix)
            && handled.state.flagged == s.flagged && handled.state.erythrocyteEnabled == s.erythrocyteEnabled
  {
    var raised := Raise(counted, error).state;
    ShockSettles(counted, error, actual, ask);
    RaiseMoves(counted, error);
    MovesKeep(s.matrix, [RaiseBy(Excess(s.strategy, error))]);
    HandlingKeeps(raised, error, actual, ask);
    HandlingKeepsSwitch(raised, error, actual, ask);
    HandlingFlagsNothing(raised, error, actual, ask, name);
  }

  lemma ScanFlags(s: LoopState, ask: Channel, name: string, d: Distortion)
    requires WellFormed(s.matrix) && Has(s, name) && Scanned(s, ask).failure == None
    ensures (name, d) in Scanned(s, ask).state.flagged <==>
            (name, d) in s.flagged
            || (s.erythrocyteEnabled && exists f :: Reports(name, s.matrix.weights[name], Some(f)) && f.distortion == d)
  {
    if s.erythrocyteEnabled {
      RoutedAreFlagged(s, ScanNames(s.matrix, s.matrix.order), ask, (name, d));
      ScanReports(s.matrix, name, d);
    }
  }

  lemma HandlingFlagsNothing(s: LoopState, error: real, actual: real, ask: Channel, name: string)
    requires Has(s, name)
    ensures var after := Handled(s, error, actual, ask).state;
            after.flagged == s.flagged && Has(after, name)
            && (name != ADAPTABILITY ==> after.matrix.weights[name] == s.matrix.weights[name])
  {
    if IsShock(s.strategy, error) {
      var approved := ask(ResetRequest(s.modelState, actual, error));
      ResolutionFlagsNothing(s, error, actual, approved, name);
      OverrideFlagsNothing(Resolve(s, error, actual, approved).state);
    }
  }

  lemma ResolutionFlagsNothing(s: LoopState, error: real, actual: real, approved: bool, name: string)
    requires Has(s, name)
    ensures var after := Resolve(s, error, actual, approved).state;
            after.flagged == s.flagged && Has(after, name)
            && (name != ADAPTABILITY ==> after.matrix.weights[name] == s.matrix.weights[name])
  {
  }

  lemma WeightsAtScan(s: LoopState, counted: LoopState, error: real, actual: real, ask: Channel, x: real, name: string)
    requires Sound(s.matrix) && Ready(s) && Has(s, name) && IsTenthOfExcess(s.strategy, error, x)
    requires s.strategy.IsCritical(error) && counted == Counted(s.(errors := s.errors + [error]))
    ensures var handled := Handled(Raise(counted, error).state, error, actual, ask).state;
            Has(handled, name) && handled.matrix.weights[name] == AtScan(s, error, actual, ask, x, name)
  {
    var raised := Raise(counted, error).state;
    RaiseSettles(counted, error);
    if name == ADAPTABILITY {
      OwnAtScan(s, error, actual, ask, x);
      OwnHandled(s, counted, error, actual, ask);
    } else {
      HandlingFlagsNothing(raised, error, actual, ask, name);
    }
  }

  lemma OwnHandled(s: LoopState, counted: LoopState, error: real, actual: real, ask: Channel)
    requires IsMutable(s, ADAPTABILITY) && WellFormed(s.matrix)
    requires counted == Counted(s.(errors := s.errors + [error]))
    ensures var handled := Handled(Raise(counted, error).state, error, actual, ask).state;
            Has(handled, ADAPTABILITY)
            && handled.matrix.weights[ADAPTABILITY] == OwnAfterShock(s, error, actual, ask)
  {
    RaiseSettles(counted, error);
    RaisedWeight(counted, error);
    HandledWeight(Raise(counted, error).state, error, actual, ask);
  }

  function OwnAfterShock(s: LoopState, error: real, actual: real, ask: Channel): WeightState
    requires Has(s, ADAPTABILITY)
  {
    var w, d := s.matrix.weights[ADAPTABILITY], Excess(s.strategy, error);
    var raised := Touched(w, Min(1.0, w.value + d), UPDATE_LOOP, None);
    if IsShock(s.strategy, error) && !ask(ResetRequest(s.modelState, actual, error))
       && Has(s, TRUTH_PRIORITY) && ValueOf(s, TRUTH_PRIORITY) >= 1.0
    then Touched(raised, Max(0.0, raised.value - d), ROLLBACK, None) else raised
  }

  lemma OwnAtScan(s: LoopState, error: real, actual: real, ask: Channel, x: real)
    requires Has(s, ADAPTABILITY) && IsTenthOfExcess(s.strategy, error, x) && s.strategy.IsCritical(error)
    ensures AtScan(s, error, actual, ask, x, ADAPTABILITY) == OwnAfterShock(s, error, actual, ask)
  {
    CriticalInNumbers(s.strategy, error);
    assert x == Excess(s.strategy, error);
    SettledInSteps(s.matrix.weights[ADAPTABILITY].value, x);
  }

  lemma SettledInSteps(value: real, x: real)
    ensures Settled(value, x, false) == Min(1.0, value + x)
    ensures Settled(value, x, true) == Max(0.0, Min(1.0, value + x) - x)
  {
  }

  lemma RaisedWeight(s: LoopState, error: real)
    requires IsMutable(s, ADAPTABILITY)
    ensures var raised := Raise(s, error).state;
            Has(raised, ADAPTABILITY) && IsMutable(raised, ADAPTABILITY)
            && raised.matrix.weights[ADAPTABILITY]
               == Touched(s.matrix.weights[ADAPTABILITY], Min(1.0, ValueOf(s, ADAPTABILITY) + Excess(s.strategy, error)),
                          UPDATE_LOOP, None)
  {
  }

  lemma HandledWeight(s: LoopState, error: real, actual: real, ask: Channel)
    requires IsMutable(s, ADAPTABILITY)
    ensures var after, w := Handled(s, error, actual, ask).state, s.matrix.weights[ADAPTABILITY];
            var back := IsShock(s.strategy, error) && !ask(ResetRequest(s.modelState, actual, error))
                        && Has(s, TRUTH_PRIORITY) && ValueOf(s, TRUTH_PRIORITY) >= 1.0;
            && Has(after, ADAPTABILITY)
            && after.matrix.weights[ADAPTABILITY]
               == if back then Touched(w, Max(0.0, w.value - Excess(s.strategy, error)), ROLLBACK, None) else w
  {
    if IsShock(s.strategy, error) {
      var approved := ask(ResetRequest(s.modelState, actual, error));
      ResolutionMoves(s, error, actual, approved);
      OverrideMovesNothing(Resolve(s, error, actual, approved).state);
    }
  }

  lemma OverrideFlagsNothing(s: LoopState)
    ensures TryOverride(s).state.flagged == s.flagged && TryOverride(s).state.matrix == s.matrix
  {
  }
}
