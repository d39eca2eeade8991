/** What can be read back from a loop's own records (core_engine.py, lines 57-70, 634-705, 849-911): the log
    tells the truth about every write it reports and replays the model, and the threshold has learned every error. */
module LoopLog {
  import opened Prelude
  import opened CoreEngine
  import opened Erythrocyte
  import opened BearerLoop
  import opened LoopSafety
  import opened LoopReadiness

  // ---------------------------------------------------------------------------
  // What the handling of an error leaves alone
  // ---------------------------------------------------------------------------

  /** The parts of the state that only the step itself changes. */
  ghost predicate SameBooks(s: LoopState, t: LoopState) {
    t.strategy == s.strategy && t.errors == s.errors
  }

  lemma {:induction false} RoutingSameBooks(s: LoopState, findings: seq<Finding>, ask: Channel)
    ensures SameBooks(s, RouteAll(s, findings, ask).state)
    decreases |findings|
  {
    if findings != [] {
      var first := Route(s, findings[0], ask);
      assert SameBooks(s, first.state);
      if first.failure.None? {
        RoutingSameBooks(first.state, findings[1..], ask);
      }
    }
  }

  lemma ScanSameBooks(s: LoopState, ask: Channel)
    ensures SameBooks(s, Scanned(s, ask).state)
  {
    if s.erythrocyteEnabled && forall n <- s.matrix.order :: n in s.matrix.weights {
      RoutingSameBooks(s, ScanNames(s.matrix, s.matrix.order), ask);
    }
  }

  lemma HandlingSameBooks(s: LoopState, error: real, actual: real, ask: Channel)
    ensures SameBooks(s, Handled(s, error, actual, ask).state)
  {
    if IsShock(s.strategy, error) {
      var resolved := Resolve(s, error, actual, ask(ResetRequest(s.modelState, actual, error)));
      assert SameBooks(s, resolved.state);
    }
  }

  lemma ConsideringSameBooks(s: LoopState, error: real, actual: real, ask: Channel)
    ensures SameBooks(s, Considered(s, error, actual, ask).state)
  {
    if s.strategy.IsCritical(error) {
      var raised := Raise(Counted(s), error).state;
      assert SameBooks(s, raised);
      HandlingSameBooks(raised, error, actual, ask);
      ScanSameBooks(Handled(raised, error, actual, ask).state, ask);
    }
  }

  // ---------------------------------------------------------------------------
  // What a step counts, and whom it asks
  // ---------------------------------------------------------------------------

  ghost predicate SameResets(c: Counters, d: Counters) {
    d.recalibrations == c.recalibrations && d.approvedResets == c.approvedResets && d.deniedResets == c.deniedResets
  }

  lemma {:induction false} RoutingSameResets(s: LoopState, findings: seq<Finding>, ask: Channel)
    ensures SameResets(s.counters, RouteAll(s, findings, ask).state.counters)
    decreases |findings|
  {
    if findings != [] {
      var first := Route(s, findings[0], ask);
      assert SameResets(s.counters, first.state.counters);
      if first.failure.None? {
        RoutingSameResets(first.state, findings[1..], ask);
      }
    }
  }

  lemma ScanSameResets(s: LoopState, ask: Channel)
    ensures SameResets(s.counters, Scanned(s, ask).state.counters)
  {
    if s.erythrocyteEnabled && forall n <- s.matrix.order :: n in s.matrix.weights {
      RoutingSameResets(s, ScanNames(s.matrix, s.matrix.order), ask);
    }
  }

  lemma HandlingCounts(s: LoopState, error: real, actual: real, ask: Channel)
    ensures var c, d := s.counters, Handled(s, error, actual, ask).state.counters;
            var shock, approved := IsShock(s.strategy, error), ask(ResetRequest(s.modelState, actual, error));
            && d.recalibrations == c.recalibrations
            && d.approvedResets == c.approvedResets + (if shock && approved then 1 else 0)
            && d.deniedResets == c.deniedResets + (if shock && !approved then 1 else 0)
  {
    if IsShock(s.strategy, error) {
      var approved := ask(ResetRequest(s.modelState, actual, error));
      var resolved := Resolve(s, error, actual, approved).state;
      assert TryOverride(resolved).state.counters == resolved.counters;
    }
  }

  /** In a ready loop an error over the threshold is one recalibration, and the bearer is asked to reset the
      model exactly when it is also over three times the threshold. */
  lemma StepCounts(s: LoopState, error: real, actual: real, ask: Channel)
    requires Sound(s.matrix) && Ready(s)
    ensures var c, d := s.counters, Step(s, error, actual, ask).state.counters;
            var threshold := s.strategy.Current();
            var shock := Abs(error) > threshold && Abs(error) > 3.0 * threshold;
            var approved := ask(ResetRequest(s.modelState, actual, error));
            && d.recalibrations == c.recalibrations + (if Abs(error) > threshold then 1 else 0)
            && d.approvedResets == c.approvedResets + (if shock && approved then 1 else 0)
            && d.deniedResets == c.deniedResets + (if shock && !approved then 1 else 0)
  {
    if s.strategy.IsCritical(error) {
      var counted := Counted(s.(errors := s.errors + [error]));
      RaiseMoves(counted, error);
      var raised := Raise(counted, error);
      assert raised.failure == None && raised.state.counters == counted.counters;
      HandlingCounts(raised.state, error, actual, ask);
      ScanSameResets(Handled(raised.state, error, actual, ask).state, ask);
    }
  }

  // ---------------------------------------------------------------------------
  // The threshold has learned every error
  // ---------------------------------------------------------------------------

  function ErrorsOf(acts: seq<Act>): seq<real> {
    if acts == [] then []
    else
      var act := acts[|acts| - 1];
      ErrorsOf(acts[..|acts| - 1]) + if act.StepAct? then [act.error] else []
  }

  function Observing(strategy: Strategy, errors: seq<real>): Strategy {
    if errors == [] then strategy else Observing(strategy, errors[..|errors| - 1]).Observe(errors[|errors| - 1])
  }

  lemma ObservingOne(strategy: Strategy, errors: seq<real>, error: real)
    ensures Observing(strategy, errors + [error]) == Observing(strategy, errors).Observe(error)
  {
    assert (errors + [error])[..|errors|] == errors;
  }

  /** On every run that no exception cuts short, the history lists the errors of its steps in order, and the
      threshold is the one that has observed each of them once, critical or not. */
  lemma {:induction false} EveryErrorIsObserved(s: LoopState, acts: seq<Act>)
    requires NeverRaises(s, acts)
    ensures Run(s, acts).errors == s.errors + ErrorsOf(acts)
    ensures Run(s, acts).strategy == Observing(s.strategy, ErrorsOf(acts))
  {
    if acts == [] {
      assert s.errors + [] == s.errors;
    } else {
      var init, act := acts[..|acts| - 1], acts[|acts| - 1];
      assert forall i :: 0 <= i < |init| ==> init[..i] == acts[..i];
      EveryErrorIsObserved(s, init);
      var before := Run(s, init);
      if act.StepAct? {
        StepObserves(before, act.error, act.actual, act.ask);
        ObservingOne(s.strategy, ErrorsOf(init), act.error);
        assert s.errors + ErrorsOf(init) + [act.error] == s.errors + (ErrorsOf(init) + [act.error]);
      } else {
        assert SameBooks(before, Run(s, acts));
        assert ErrorsOf(init) + [] == ErrorsOf(init);
      }
    }
  }

  lemma StepObserves(s: LoopState, error: real, actual: real, ask: Channel)
    requires Step(s, error, actual, ask).failure == None
    ensures var after := Step(s, error, actual, ask).state;
            after.errors == s.errors + [error] && after.strategy == s.strategy.Observe(error)
  {
    ConsideringSameBooks(s.(errors := s.errors + [error]), error, actual, ask);
  }

  // ---------------------------------------------------------------------------
  // The log replays the model
  // ---------------------------------------------------------------------------

  /** The entries about the model. */
  function Resets(audit: seq<AuditEntry>): seq<AuditEntry> {
    if audit == [] then []
    else
      var last := audit[|audit| - 1];
      if last.trigger == ResetModelState then Resets(audit[..|audit| - 1]) + [last] else Resets(audit[..|audit| - 1])
  }

  /** The targets of the approved ones. */
  function Targets(resets: seq<AuditEntry>): seq<real> {
    if resets == [] then []
    else
      var last := resets[|resets| - 1];
      if last.resolution == Approved then Targets(resets[..|resets| - 1]) + [last.newValue]
      else Targets(resets[..|resets| - 1])
  }

  lemma {:induction false} ResetsConcat(a: seq<AuditEntry>, b: seq<AuditEntry>)
    ensures Resets(a + b) == Resets(a) + Resets(b)
  {
    if b == [] {
      assert a + b == a && Resets(a) + [] == Resets(a);
    } else {
      var init := b[..|b| - 1];
      assert (a + b)[..|a + b| - 1] == a + init;
      ResetsConcat(a, init);
    }
  }

  lemma {:induction false} TargetsConcat(a: seq<AuditEntry>, b: seq<AuditEntry>)
    ensures Targets(a + b) == Targets(a) + Targets(b)
  {
    if b == [] {
      assert a + b == a && Targets(a) + [] == Targets(a);
    } else {
      var init := b[..|b| - 1];
      assert (a + b)[..|a + b| - 1] == a + init;
      TargetsConcat(a, init);
    }
  }

  /** `t` has grown the log of `s` by `added`, which holds just these entries about the model. */
  ghost predicate Grows(s: LoopState, t: LoopState, resets: seq<AuditEntry>) {
    s.audit <= t.audit && Resets(t.audit[|s.audit|..]) == resets
  }

  lemma GrowsTransitively(s: LoopState, t: LoopState, u: LoopState, x: seq<AuditEntry>, y: seq<AuditEntry>)
    requires Grows(s, t, x) && Grows(t, u, y)
    ensures Grows(s, u, x + y)
  {
    ResetsConcat(t.audit[|s.audit|..], u.audit[|t.audit|..]);
    assert u.audit[|s.audit|..] == t.audit[|s.audit|..] + u.audit[|t.audit|..];
  }

  lemma GrowsByOne(s: LoopState, t: LoopState, entry: AuditEntry)
    requires t.audit == s.audit + [entry]
    ensures Grows(s, t, if entry.trigger == ResetModelState then [entry] else [])
  {
    assert t.audit[|s.audit|..] == [entry];
    assert [entry][..0] == [];
  }

  lemma GrowsByNothing(s: LoopState, t: LoopState)
    requires t.audit == s.audit
    ensures Grows(s, t, [])
  {
    assert t.audit[|s.audit|..] == [];
  }

  lemma OverrideGrows(s: LoopState)
    ensures Grows(s, TryOverride(s).state, []) && TryOverride(s).state.modelState == s.modelState
  {
    var after := TryOverride(s).state;
    if after.audit == s.audit {
      GrowsByNothing(s, after);
    } else {
      GrowsByOne(s, after, AuditEntry(OverrideAttempt, BEARER_INTEGRITY, ValueOf(s, BEARER_INTEGRITY), 0.0, DeniedBySystem));
    }
  }

  lemma ResolutionGrows(s: LoopState, error: real, actual: real, approved: bool)
    ensures var resolved := Resolve(s, error, actual, approved).state;
            && Grows(s, resolved, [ResetEntry(s, actual, approved)])
            && resolved.modelState == if approved then actual else s.modelState
  {
    var resolved := Resolve(s, error, actual, approved).state;
    var entry := ResetEntry(s, actual, approved);
    assert resolved.audit == s.audit + [entry];
    GrowsByOne(s, resolved, entry);
  }

  lemma HandlingGrows(s: LoopState, error: real, actual: real, ask: Channel)
    ensures var approved := ask(ResetRequest(s.modelState, actual, error));
            var after := Handled(s, error, actual, ask).state;
            && Grows(s, after, if IsShock(s.strategy, error) then [ResetEntry(s, actual, approved)] else [])
            && after.modelState == if IsShock(s.strategy, error) && approved then actual else s.modelState
  {
    if IsShock(s.strategy, error) {
      var approved := ask(ResetRequest(s.modelState, actual, error));
      var resolved := Resolve(s, error, actual, approved);
      var entry := ResetEntry(s, actual, approved);
      ResolutionGrows(s, error, actual, approved);
      if resolved.failure.None? {
        OverrideGrows(resolved.state);
        GrowsTransitively(s, resolved.state, TryOverride(resolved.state).state, [entry], []);
        assert [entry] + [] == [entry];
      }
    } else {
      GrowsByNothing(s, s);
    }
  }

  lemma {:induction false} RouteGrows(s: LoopState, finding: Finding, ask: Channel)
    ensures Grows(s, Route(s, finding, ask).state, []) && Route(s, finding, ask).state.modelState == s.modelState
  {
    var after := Route(s, finding, ask).state;
    RouteLogs(s, finding, ask);
    if after.audit == s.audit {
      GrowsByNothing(s, after);
    } else {
      GrowsByOne(s, after, RouteEntry(s, finding, ask));
    }
  }

  lemma {:induction false} RoutingGrows(s: LoopState, findings: seq<Finding>, ask: Channel)
    ensures var after := RouteAll(s, findings, ask).state; Grows(s, after, []) && after.modelState == s.modelState
    decreases |findings|
  {
    if findings == [] {
      GrowsByNothing(s, s);
    } else {
      var first := Route(s, findings[0], ask);
      RouteGrows(s, findings[0], ask);
      if first.failure.None? {
        RoutingGrows(first.state, findings[1..], ask);
        GrowsTransitively(s, first.state, RouteAll(s, findings, ask).state, [], []);
      }
    }
  }

  lemma ScanGrows(s: LoopState, ask: Channel)
    ensures var after := Scanned(s, ask).state; Grows(s, after, []) && after.modelState == s.modelState
  {
    if s.erythrocyteEnabled && forall n <- s.matrix.order :: n in s.matrix.weights {
      RoutingGrows(s, ScanNames(s.matrix, s.matrix.order), ask);
    } else {
      GrowsByNothing(s, s);
    }
  }

  lemma RaiseGrows(s: LoopState, error: real)
    ensures Grows(s, Raise(s, error).state, []) && Raise(s, error).state.modelState == s.modelState
  {
    var after := Raise(s, error).state;
    if after.audit == s.audit {
      GrowsByNothing(s, after);
    } else {
      assert after.audit == s.audit + [after.audit[|s.audit|]];
      GrowsByOne(s, after, after.audit[|s.audit|]);
    }
  }

  /** Whether a step gets as far as asking for a reset. */
  predicate AsksForReset(s: LoopState, error: real) {
    s.strategy.IsCritical(error) && IsShock(s.strategy, error) && IsMutable(s, ADAPTABILITY)
  }

  /** A step adds an entry about the model exactly when it asks for a reset. The entry names the state the step
      found, the value it asked for and the answer, and the model moves only if that was yes. */
  lemma StepReports(s: LoopState, error: real, actual: real, ask: Channel)
    ensures var after, approved := Step(s, error, actual, ask).state, ask(ResetRequest(s.modelState, actual, error));
            && Grows(s, after, if AsksForReset(s, error) then [ResetEntry(s, actual, approved)] else [])
            && after.modelState == if AsksForReset(s, error) && approved then actual else s.modelState
  {
    var counted := Counted(s.(errors := s.errors + [error]));
    if s.strategy.IsCritical(error) {
      RaiseMoves(counted, error);
      RaiseGrows(counted, error);
      var raised := Raise(counted, error);
      assert raised.failure.None? <==> IsMutable(s, ADAPTABILITY);
      if raised.failure.None? {
        ConsideredGrows(counted, raised.state, error, actual, ask);
      }
    } else {
      GrowsByNothing(s, Step(s, error, actual, ask).state);
    }
  }

  lemma ConsideredGrows(s: LoopState, raised: LoopState, error: real, actual: real, ask: Channel)
    requires Grows(s, raised, []) && raised.modelState == s.modelState && raised.strategy == s.strategy
    ensures var handled, approved := Handled(raised, error, actual, ask), ask(ResetRequest(s.modelState, actual, error));
            var after := if handled.failure.Some? then handled.state else Scanned(handled.state, ask).state;
            && Grows(s, after, if IsShock(s.strategy, error) then [ResetEntry(s, actual, approved)] else [])
            && after.modelState == if IsShock(s.strategy, error) && approved then actual else s.modelState
  {
    var handled := Handled(raised, error, actual, ask);
    var resets := if IsShock(s.strategy, error)
                  then [ResetEntry(s, actual, ask(ResetRequest(s.modelState, actual, error)))] else [];
    HandlingGrows(raised, error, actual, ask);
    GrowsTransitively(s, raised, handled.state, [], resets);
    assert [] + resets == resets && resets + [] == resets;
    if handled.failure.None? {
      ScanGrows(handled.state, ask);
      GrowsTransitively(s, handled.state, Scanned(handled.state, ask).state, resets, []);
    }
  }

  /** What has moved the model: an approved reset from the log, or an observation with the gain then in force. */
  datatype Mark = ResetTo(target: real) | Saw(gain: real, actual: real)

  function Marks(targets: seq<real>): seq<Mark> {
    if targets == [] then [] else Marks(targets[..|targets| - 1]) + [ResetTo(targets[|targets| - 1])]
  }

  /** The marks an act leaves: resets are read off what it adds to the log. */
  ghost function MarksOf(before: LoopState, act: Act): seq<Mark> {
    match act
    case StepAct(error, actual, ask) =>
      StepReports(before, error, actual, ask);
      Marks(Targets(Resets(Do(before, act).state.audit[|before.audit|..])))
    case ObserveAct(actual) => if Has(before, ADAPTABILITY) then [Saw(ValueOf(before, ADAPTABILITY), actual)] else []
    case _ => []
  }

  /** The timeline an auditor can draw up from the growing log and the observations of a run. */
  ghost function Timeline(s: LoopState, acts: seq<Act>): seq<Mark> {
    if acts == [] then []
    else Timeline(s, acts[..|acts| - 1]) + MarksOf(Run(s, acts[..|acts| - 1]), acts[|acts| - 1])
  }

  function Followed(start: real, marks: seq<Mark>): real {
    if marks == [] then start
    else
      var before := Followed(start, marks[..|marks| - 1]);
      match marks[|marks| - 1]
      case ResetTo(target) => target
      case Saw(gain, actual) => Moved(before, gain, actual)
  }

  lemma {:induction false} FollowedConcat(start: real, a: seq<Mark>, b: seq<Mark>)
    ensures Followed(start, a + b) == Followed(Followed(start, a), b)
  {
    if b == [] {
      assert a + b == a;
    } else {
      var init := b[..|b| - 1];
      assert (a + b)[..|a + b| - 1] == a + init;
      FollowedConcat(start, a, init);
    }
  }

  /** Only the last reset and the observations since it count; without a reset, the start and all of them. */
  lemma {:induction false} LastResetDecides(start: real, before: seq<Mark>, target: real, since: seq<Mark>)
    ensures Followed(start, before + [ResetTo(target)] + since) == Followed(target, since)
  {
    assert (before + [ResetTo(target)])[..|before|] == before;
    FollowedConcat(start, before + [ResetTo(target)], since);
  }

  /** The targets of the resets on a timeline. */
  function ResetsOf(marks: seq<Mark>): seq<real> {
    if marks == [] then []
    else
      var last := marks[|marks| - 1];
      if last.ResetTo? then ResetsOf(marks[..|marks| - 1]) + [last.target] else ResetsOf(marks[..|marks| - 1])
  }

  lemma {:induction false} ResetsOfConcat(a: seq<Mark>, b: seq<Mark>)
    ensures ResetsOf(a + b) == ResetsOf(a) + ResetsOf(b)
  {
    if b == [] {
      assert a + b == a && ResetsOf(a) + [] == ResetsOf(a);
    } else {
      var init := b[..|b| - 1];
      assert (a + b)[..|a + b| - 1] == a + init;
      ResetsOfConcat(a, init);
    }
  }

  lemma OneTarget(entry: AuditEntry)
    ensures Targets([entry]) == if entry.resolution == Approved then [entry.newValue] else []
  {
    assert [entry][..0] == [];
  }

  /** An act's marks move the model as the act does, and add its reset, if any, to the log's. */
  ghost predicate OnTimeline(before: LoopState, act: Act) {
    var after, marks := Do(before, act).state, MarksOf(before, act);
    && after.modelState == Followed(before.modelState, marks)
    && LoggedTargets(after) == LoggedTargets(before) + ResetsOf(marks)
  }

  lemma AddedOnTimeline(start: real, audit: seq<AuditEntry>, more: seq<AuditEntry>, reset: Option<AuditEntry>)
    requires audit <= more && Resets(more[|audit|..]) == if reset.Some? then [reset.value] else []
    ensures var marks := Marks(Targets(Resets(more[|audit|..])));
            && Followed(start, marks) == (if reset.Some? && reset.value.resolution == Approved
                                          then reset.value.newValue else start)
            && Targets(Resets(more)) == Targets(Resets(audit)) + ResetsOf(marks)
  {
    var added := more[|audit|..];
    assert more == audit + added;
    ResetsConcat(audit, added);
    TargetsConcat(Resets(audit), Resets(added));
    if reset.Some? {
      OneTarget(reset.value);
      OneMark(start, reset.value.newValue);
    }
  }

  lemma OneMark(start: real, target: real)
    ensures Marks([target]) == [ResetTo(target)]
    ensures Followed(start, [ResetTo(target)]) == target && ResetsOf([ResetTo(target)]) == [target]
  {
    assert [target][..0] == [] && [ResetTo(target)][..0] == [];
  }

  lemma StepOnTimeline(before: LoopState, error: real, actual: real, ask: Channel)
    ensures OnTimeline(before, StepAct(error, actual, ask))
  {
    var entry := ResetEntry(before, actual, ask(ResetRequest(before.modelState, actual, error)));
    StepReports(before, error, actual, ask);
    AddedOnTimeline(before.modelState, before.audit, Step(before, error, actual, ask).state.audit,
                    if AsksForReset(before, error) then Some(entry) else None);
  }

  lemma ActOnTimeline(before: LoopState, act: Act)
    ensures OnTimeline(before, act)
  {
    if act.StepAct? {
      StepOnTimeline(before, act.error, act.actual, act.ask);
    } else {
      var targets := Targets(Resets(before.audit));
      assert Do(before, act).state.audit == before.audit && targets + [] == targets;
      if act.ObserveAct? && Has(before, ADAPTABILITY) {
        assert [Saw(ValueOf(before, ADAPTABILITY), act.actual)][..0] == [];
      }
    }
  }

  /** A model state and a log's targets that agree with a timeline from `start`, where the log began with `base`. */
  predicate Agrees(start: real, base: seq<real>, model: real, targets: seq<real>, marks: seq<Mark>) {
    model == Followed(start, marks) && targets == base + ResetsOf(marks)
  }

  lemma AgreesFurther(start: real, base: seq<real>, model: real, targets: seq<real>, so: seq<Mark>, marks: seq<Mark>)
    requires Agrees(start, base, model, targets, so)
    ensures Agrees(start, base, Followed(model, marks), targets + ResetsOf(marks), so + marks)
  {
    FollowedConcat(start, so, marks);
    ResetsOfConcat(so, marks);
    assert base + ResetsOf(so) + ResetsOf(marks) == base + (ResetsOf(so) + ResetsOf(marks));
  }

  function LoggedTargets(s: LoopState): seq<real> {
    Targets(Resets(s.audit))
  }

  /** On every run, raising or not, whatever moves the matrix or the model in between: the model's state is the
      start followed along the timeline, and the timeline's resets are those the run has added to the log. */
  lemma {:induction false} LogReplaysTheModel(s: LoopState, acts: seq<Act>)
    ensures Agrees(s.modelState, LoggedTargets(s), Run(s, acts).modelState, LoggedTargets(Run(s, acts)), Timeline(s, acts))
  {
    if acts == [] {
      assert LoggedTargets(s) + [] == LoggedTargets(s);
    } else {
      var init, act := acts[..|acts| - 1], acts[|acts| - 1];
      var before := Run(s, init);
      LogReplaysTheModel(s, init);
      ActOnTimeline(before, act);
      AgreesFurther(s.modelState, LoggedTargets(s), before.modelState, LoggedTargets(before), Timeline(s, init),
                    MarksOf(before, act));
    }
  }

  lemma {:induction false} OnlySightings(marks: seq<Mark>)
    requires forall mark :: mark in marks ==> mark.Saw?
    ensures ResetsOf(marks) == []
  {
    if marks != [] {
      assert marks[|marks| - 1] in marks;
      OnlySightings(marks[..|marks| - 1]);
    }
  }

  /** A state and a log that agree with a timeline agree with its stretch since the last reset. */
  lemma {:induction false} AgreesSince(start: real, base: seq<real>, model: real, targets: seq<real>,
                    before: seq<Mark>, target: real, since: seq<Mark>)
    requires Agrees(start, base, model, targets, before + [ResetTo(target)] + since)
    requires forall mark :: mark in since ==> mark.Saw?
    ensures targets != [] && targets[|targets| - 1] == target && model == Followed(target, since)
  {
    LastResetDecides(start, before, target, since);
    ResetsOfConcat(before + [ResetTo(target)], since);
    ResetsOfConcat(before, [ResetTo(target)]);
    OneMark(start, target);
    OnlySightings(since);
    assert targets == base + (ResetsOf(before) + [target] + []);
  }

  /** `last` marks of a timeline end with its last reset; if there was none, `last` is zero. */
  predicate EndsAtLastReset(marks: seq<Mark>, last: nat) {
    && last <= |marks| && (last > 0 ==> marks[last - 1].ResetTo?)
    && forall mark :: mark in marks[last..] ==> mark.Saw?
  }

  /** So the model's state is the target of the last approved reset in the log, or the start if the run had none,
      moved by the observations made since, each with the gain in force at the time. */
  lemma {:induction false} ModelSinceLastReset(s: LoopState, acts: seq<Act>, last: nat)
    requires EndsAtLastReset(Timeline(s, acts), last)
    ensures ReadsOff(s.modelState, LoggedTargets(s), Run(s, acts).modelState, LoggedTargets(Run(s, acts)),
                     Timeline(s, acts), last)
  {
    LogReplaysTheModel(s, acts);
    SinceLastReset(s.modelState, LoggedTargets(s), Run(s, acts).modelState, LoggedTargets(Run(s, acts)),
                   Timeline(s, acts), last);
  }

  /** With a reset, `model` is the last target followed through what came since; with none, the start followed
      through everything, and the log still has just the targets it began with. */
  predicate ReadsOff(start: real, base: seq<real>, model: real, targets: seq<real>, marks: seq<Mark>, last: nat)
    requires last <= |marks|
  {
    if last == 0 then model == Followed(start, marks) && targets == base
    else targets != [] && model == Followed(targets[|targets| - 1], marks[last..])
  }

  lemma {:induction false} SinceLastReset(start: real, base: seq<real>, model: real, targets: seq<real>,
                                          marks: seq<Mark>, last: nat)
    requires Agrees(start, base, model, targets, marks) && EndsAtLastReset(marks, last)
    ensures ReadsOff(start, base, model, targets, marks, last)
  {
    if last == 0 {
      assert marks[0..] == marks && base + [] == base;
      OnlySightings(marks);
    } else {
      assert marks == marks[..last - 1] + [ResetTo(marks[last - 1].target)] + marks[last..];
      AgreesSince(start, base, model, targets, marks[..last - 1], marks[last - 1].target, marks[last..]);
    }
  }

  // ---------------------------------------------------------------------------
  // Every entry tells the truth about the matrix
  // ---------------------------------------------------------------------------

  /** What an entry may say, given the write-once parts of the matrix. */
  predicate IsTrue(m: MatrixState, entry: AuditEntry) {
    match entry.trigger
    case Recalibration =>
      entry.name == ADAPTABILITY && entry.resolution == AutoApproved
      && entry.newValue <= 1.0 && (entry.oldValue <= 1.0 ==> entry.oldValue <= entry.newValue)
    case ResetModelState => entry.name == MODEL_STATE && entry.resolution in {Approved, Denied}
    case OverrideAttempt =>
      && entry.name == BEARER_INTEGRITY && BEARER_INTEGRITY in m.weights
      && entry.oldValue == m.weights[BEARER_INTEGRITY].value && entry.newValue == 0.0 && entry.resolution == DeniedBySystem
    case StaticDistortion =>
      && entry.name in m.weights && entry.oldValue == m.weights[entry.name].baseline && entry.resolution == AutoFlagged
    case OscillatingDistortion =>
      && entry.name in m.weights && entry.oldValue == m.weights[entry.name].baseline
      && entry.resolution in {Approved, Denied}
  }

  ghost predicate AllTrue(m: MatrixState, audit: seq<AuditEntry>) {
    forall entry :: entry in audit ==> IsTrue(m, entry)
  }

  /** Truth rests on what never changes, so it is kept. */
  lemma TruthIsKept(m: MatrixState, n: MatrixState, audit: seq<AuditEntry>)
    requires KeepsFixtures(m, n) && Guarded(m)
    ensures AllTrue(m, audit) <==> AllTrue(n, audit)
  {
    forall entry
      ensures IsTrue(m, entry) <==> IsTrue(n, entry)
    {
      if entry.name in m.weights {
        assert SameFixture(m.weights[entry.name], n.weights[entry.name]);
      }
    }
  }

  lemma TrueOne(m: MatrixState, audit: seq<AuditEntry>, entry: AuditEntry)
    requires AllTrue(m, audit) && IsTrue(m, entry)
    ensures AllTrue(m, audit + [entry])
  {
  }

  lemma RaiseIsTrue(s: LoopState, error: real)
    requires AllTrue(s.matrix, s.audit) && s.strategy.IsCritical(error) && Sound(s.matrix)
    ensures var after := Raise(s, error).state;
            AllTrue(s.matrix, after.audit) && KeepsFixtures(s.matrix, after.matrix) && Sound(after.matrix)
  {
    RaiseMoves(s, error);
    MovesKeep(s.matrix, [RaiseBy(Excess(s.strategy, error))]);
    if Raise(s, error).failure.None? {
      var before := ValueOf(s, ADAPTABILITY);
      TrueOne(s.matrix, s.audit, AuditEntry(Recalibration, ADAPTABILITY, before,
                                            Min(1.0, before + Excess(s.strategy, error)), AutoApproved));
    }
  }

  lemma ResolutionIsTrue(s: LoopState, error: real, actual: real, approved: bool)
    requires AllTrue(s.matrix, s.audit)
    ensures AllTrue(s.matrix, Resolve(s, error, actual, approved).state.audit)
  {
    TrueOne(s.matrix, s.audit, AuditEntry(ResetModelState, MODEL_STATE, s.modelState, actual,
                                          if approved then Approved else Denied));
  }

  lemma HandlingIsTrue(s: LoopState, error: real, actual: real, ask: Channel)
    requires AllTrue(s.matrix, s.audit) && Sound(s.matrix)
    ensures AllTrue(s.matrix, Handled(s, error, actual, ask).state.audit)
  {
    if IsShock(s.strategy, error) {
      var approved := ask(ResetRequest(s.modelState, actual, error));
      var resolved := Resolve(s, error, actual, approved).state;
      ResolutionIsTrue(s, error, actual, approved);
      if Has(resolved, BEARER_INTEGRITY) && Resolve(s, error, actual, approved).failure.None? {
        assert resolved.matrix.weights[BEARER_INTEGRITY] == s.matrix.weights[BEARER_INTEGRITY];
        TrueOne(s.matrix, resolved.audit, AuditEntry(OverrideAttempt, BEARER_INTEGRITY,
                                                     ValueOf(s, BEARER_INTEGRITY), 0.0, DeniedBySystem));
      }
    }
  }

  lemma RouteIsTrue(s: LoopState, finding: Finding, ask: Channel)
    requires AllTrue(s.matrix, s.audit)
    ensures AllTrue(s.matrix, Route(s, finding, ask).state.audit)
  {
    RouteLogs(s, finding, ask);
    if Has(s, finding.weight) {
      TrueOne(s.matrix, s.audit, RouteEntry(s, finding, ask));
    }
  }

  lemma {:induction false} RoutingIsTrue(s: LoopState, findings: seq<Finding>, ask: Channel)
    requires AllTrue(s.matrix, s.audit) && Sound(s.matrix)
    ensures var after := RouteAll(s, findings, ask).state;
            AllTrue(after.matrix, after.audit) && KeepsFixtures(s.matrix, after.matrix)
    decreases |findings|
  {
    if findings != [] {
      var first := Route(s, findings[0], ask);
      RouteIsTrue(s, findings[0], ask);
      RouteKeeps(s, findings[0], ask);
      TruthIsKept(s.matrix, first.state.matrix, first.state.audit);
      if first.failure.None? {
        RoutingIsTrue(first.state, findings[1..], ask);
        KeepsFixturesTransitive(s.matrix, first.state.matrix, RouteAll(s, findings, ask).state.matrix);
      }
    }
  }

  lemma ScanIsTrue(s: LoopState, ask: Channel)
    requires AllTrue(s.matrix, s.audit) && Sound(s.matrix)
    ensures var after := Scanned(s, ask).state; AllTrue(after.matrix, after.audit)
  {
    if s.erythrocyteEnabled {
      RoutingIsTrue(s, ScanNames(s.matrix, s.matrix.order), ask);
    }
  }

  lemma StepIsTrue(s: LoopState, error: real, actual: real, ask: Channel)
    requires AllTrue(s.matrix, s.audit) && Sound(s.matrix)
    ensures var after := Step(s, error, actual, ask).state; AllTrue(after.matrix, after.audit)
  {
    if s.strategy.IsCritical(error) {
      var counted := Counted(s.(errors := s.errors + [error]));
      RaiseIsTrue(counted, error);
      var raised := Raise(counted, error).state;
      TruthIsKept(s.matrix, raised.matrix, raised.audit);
      if Raise(counted, error).failure.None? {
        HandlingIsTrue(raised, error, actual, ask);
        HandlingKeeps(raised, error, actual, ask);
        var handled := Handled(raised, error, actual, ask).state;
        TruthIsKept(raised.matrix, handled.matrix, handled.audit);
        ScanIsTrue(handled, ask);
      }
    }
  }

  /** On every run, raising or not, of a loop over a registered matrix: each recalibration in the log raised
      adaptability, up to one; each refused override names the unmoved value of BearerIntegrity; each finding
      names a weight of the matrix and its true baseline; and each is resolved in its own way. */
  lemma {:induction false} LogTellsTheTruth(m: MatrixState, strategy: Strategy, enabled: bool, acts: seq<Act>)
    requires Registered(m)
    ensures AllTrue(m, Run(FreshLoop(m, strategy, enabled), acts).audit)
  {
    var start := FreshLoop(m, strategy, enabled);
    if acts != [] {
      var init, act := acts[..|acts| - 1], acts[|acts| - 1];
      var before, after := Run(start, init), Run(start, acts);
      LogTellsTheTruth(m, strategy, enabled, init);
      W0NeverMoves(start, init);
      W0NeverMoves(start, acts);
      TruthIsKept(m, before.matrix, before.audit);
      if act.StepAct? {
        StepIsTrue(before, act.error, act.actual, act.ask);
      } else {
        TruthIsKept(m, after.matrix, after.audit);
      }
      TruthIsKept(m, after.matrix, after.audit);
    }
  }
}
