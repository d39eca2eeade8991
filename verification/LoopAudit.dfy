/** The books of the update loop (core_engine.py, lines 689-699, 707-911): every counter can be recomputed
    from the audit log, and the flags are bounded by the matrix however long the loop runs. */
module LoopAudit {
  import opened Prelude
  import opened CoreEngine
  import opened Erythrocyte
  import opened BearerLoop
  import opened LoopSafety
  import opened LoopReadiness

  // ---------------------------------------------------------------------------
  // Counters from the log
  // ---------------------------------------------------------------------------

  function Entered(c: Counters, entry: AuditEntry): Counters {
    match entry.trigger
    case Recalibration => c.(recalibrations := c.recalibrations + 1)
    case ResetModelState =>
      if entry.resolution == Approved then c.(approvedResets := c.approvedResets + 1)
      else c.(deniedResets := c.deniedResets + 1)
    case OverrideAttempt => c
    case StaticDistortion => c.(staticFlags := c.staticFlags + 1)
    case OscillatingDistortion =>
      var flagged := c.(oscillatingFlags := c.oscillatingFlags + 1);
      if entry.resolution == Approved then flagged.(escalationsApproved := flagged.escalationsApproved + 1)
      else flagged.(escalationsDenied := flagged.escalationsDenied + 1)
  }

  /** The counters an auditor reads off the log. */
  function Tally(audit: seq<AuditEntry>): Counters {
    if audit == [] then NO_COUNTS else Entered(Tally(audit[..|audit| - 1]), audit[|audit| - 1])
  }

  /** How often the log shows a write to W0 refused. */
  function Refusals(audit: seq<AuditEntry>): nat {
    if audit == [] then 0
    else Refusals(audit[..|audit| - 1]) + if audit[|audit| - 1].trigger == OverrideAttempt then 1 else 0
  }

  lemma TallyOne(audit: seq<AuditEntry>, entry: AuditEntry)
    ensures Tally(audit + [entry]) == Entered(Tally(audit), entry)
    ensures Refusals(audit + [entry]) == Refusals(audit) + if entry.trigger == OverrideAttempt then 1 else 0
  {
    assert (audit + [entry])[..|audit|] == audit;
  }

  /** Every entry is of exactly one kind. */
  lemma {:induction false} LogSize(audit: seq<AuditEntry>)
    ensures var c := Tally(audit);
            && |audit| == c.recalibrations + c.approvedResets + c.deniedResets + Refusals(audit)
                          + c.staticFlags + c.oscillatingFlags
            && c.escalationsApproved + c.escalationsDenied == c.oscillatingFlags
  {
    if audit != [] {
      LogSize(audit[..|audit| - 1]);
    }
  }

  /** The loop's own counters agree with the log, and every shock ended in a refusal. */
  ghost predicate Booked(s: LoopState) {
    s.counters == Tally(s.audit) && Refusals(s.audit) == s.counters.approvedResets + s.counters.deniedResets
  }

  lemma RaiseBooks(s: LoopState, error: real)
    requires Booked(s) && Raise(Counted(s), error).failure == None
    ensures Booked(Raise(Counted(s), error).state)
  {
    var after := Raise(Counted(s), error).state;
    TallyOne(s.audit, after.audit[|s.audit|]);
  }

  lemma HandlingBooks(s: LoopState, error: real, actual: real, ask: Channel)
    requires Booked(s) && Handled(s, error, actual, ask).failure == None
    ensures Booked(Handled(s, error, actual, ask).state)
  {
    if IsShock(s.strategy, error) {
      var approved := ask(ResetRequest(s.modelState, actual, error));
      var resolved := Resolve(s, error, actual, approved).state;
      ResolutionEnters(s, error, actual, approved);
      TallyOne(s.audit, ResetEntry(s, actual, approved));
      assert resolved.counters == Tally(resolved.audit);
      OverrideEnters(resolved);
    }
  }

  lemma ResolutionEnters(s: LoopState, error: real, actual: real, approved: bool)
    ensures var after, entry := Resolve(s, error, actual, approved).state, ResetEntry(s, actual, approved);
            after.audit == s.audit + [entry] && after.counters == Entered(s.counters, entry)
  {
  }

  /** A refused write to W0 is one entry, of the kind that no counter counts. */
  lemma OverrideEnters(s: LoopState)
    requires TryOverride(s).failure == None
    ensures var after := TryOverride(s).state;
            && after.counters == s.counters && Tally(after.audit) == Tally(s.audit)
            && Refusals(after.audit) == Refusals(s.audit) + 1
  {
    var refusal := AuditEntry(OverrideAttempt, BEARER_INTEGRITY, ValueOf(s, BEARER_INTEGRITY), 0.0, DeniedBySystem);
    assert TryOverride(s).state == Logged(s, refusal);
    TallyOne(s.audit, refusal);
  }

  lemma RouteBooks(s: LoopState, finding: Finding, ask: Channel)
    requires Booked(s)
    ensures Booked(Route(s, finding, ask).state)
  {
    RouteLogs(s, finding, ask);
    RouteEnters(s, finding, ask);
    if (finding.weight, finding.distortion) !in s.flagged && Has(s, finding.weight) {
      OneMoreBooked(s, Route(s, finding, ask).state, RouteEntry(s, finding, ask));
    }
  }

  lemma OneMoreBooked(s: LoopState, after: LoopState, entry: AuditEntry)
    requires Booked(s) && entry.trigger in {StaticDistortion, OscillatingDistortion}
    requires after.audit == s.audit + [entry] && after.counters == Entered(s.counters, entry)
    ensures Booked(after)
  {
    TallyOne(s.audit, entry);
  }

  /** The counters move as the entry says, whether or not a correction raises. */
  lemma RouteEnters(s: LoopState, finding: Finding, ask: Channel)
    ensures Route(s, finding, ask).state.counters ==
            if (finding.weight, finding.distortion) in s.flagged || !Has(s, finding.weight) then s.counters
            else Entered(s.counters, RouteEntry(s, finding, ask))
  {
  }

  // ---------------------------------------------------------------------------
  // Flags against the matrix
  // ---------------------------------------------------------------------------

  ghost function FlaggedAs(s: LoopState, kind: Distortion): set<string> {
    NamesAs(s.matrix.weights.Keys, s.flagged, kind)
  }

  ghost function NamesAs(names: set<string>, flagged: set<(string, Distortion)>, kind: Distortion): set<string> {
    set n | n in names && (n, kind) in flagged
  }

  lemma FlagOne(names: set<string>, flagged: set<(string, Distortion)>, name: string, kind: Distortion)
    requires name in names && (name, kind) !in flagged
    ensures var after := flagged + {(name, kind)};
            && |after| == |flagged| + 1
            && |NamesAs(names, after, kind)| == |NamesAs(names, flagged, kind)| + 1
            && forall other :: other != kind ==> NamesAs(names, after, other) == NamesAs(names, flagged, other)
  {
    var after := flagged + {(name, kind)};
    assert NamesAs(names, after, kind) == NamesAs(names, flagged, kind) + {name};
  }

  ghost predicate FlagsAddUp(s: LoopState) {
    && (forall key :: key in s.flagged ==> key.0 in s.matrix.weights)
    && |s.flagged| == s.counters.staticFlags + s.counters.oscillatingFlags
    && |FlaggedAs(s, Static)| == s.counters.staticFlags
    && |FlaggedAs(s, Oscillating)| == s.counters.oscillatingFlags
  }

  lemma RouteFlags(s: LoopState, finding: Finding, ask: Channel)
    requires FlagsAddUp(s) && Has(s, finding.weight)
    ensures FlagsAddUp(Route(s, finding, ask).state)
    ensures Route(s, finding, ask).state.matrix.weights.Keys == s.matrix.weights.Keys
  {
    RouteKeys(s, finding, ask);
    if (finding.weight, finding.distortion) !in s.flagged {
      FlagOne(s.matrix.weights.Keys, s.flagged, finding.weight, finding.distortion);
      RouteCounts(s, finding, ask);
    }
  }

  lemma RouteKeys(s: LoopState, finding: Finding, ask: Channel)
    ensures Route(s, finding, ask).state.matrix.weights.Keys == s.matrix.weights.Keys
  {
  }

  lemma RouteCounts(s: LoopState, finding: Finding, ask: Channel)
    requires Has(s, finding.weight) && (finding.weight, finding.distortion) !in s.flagged
    ensures var after := Route(s, finding, ask).state;
            && after.flagged == s.flagged + {(finding.weight, finding.distortion)}
            && after.counters.staticFlags == s.counters.staticFlags + (if finding.distortion == Static then 1 else 0)
            && after.counters.oscillatingFlags ==
               s.counters.oscillatingFlags + (if finding.distortion == Oscillating then 1 else 0)
  {
  }

  /** A part of a state the flags depend on. */
  lemma FlagsFrame(s: LoopState, t: LoopState)
    requires FlagsAddUp(s) && t.flagged == s.flagged && t.matrix.weights.Keys == s.matrix.weights.Keys
    requires t.counters.staticFlags == s.counters.staticFlags && t.counters.oscillatingFlags == s.counters.oscillatingFlags
    ensures FlagsAddUp(t)
  {
    assert FlaggedAs(t, Static) == FlaggedAs(s, Static) && FlaggedAs(t, Oscillating) == FlaggedAs(s, Oscillating);
  }

  lemma {:induction false} SubsetSize<T>(a: set<T>, b: set<T>)
    requires a <= b
    ensures |a| <= |b|
  {
    assert b == a + (b - a);
    assert |b| == |a| + |b - a|;
  }

  // ---------------------------------------------------------------------------
  // Steps and runs
  // ---------------------------------------------------------------------------

  ghost predicate InOrder(s: LoopState) {
    Booked(s) && FlagsAddUp(s)
  }

  lemma {:induction false} RoutingKeepsOrder(s: LoopState, findings: seq<Finding>, ask: Channel)
    requires InOrder(s) && forall f :: f in findings ==> Has(s, f.weight)
    ensures InOrder(RouteAll(s, findings, ask).state)
    decreases |findings|
  {
    if findings != [] {
      assert findings[0] in findings;
      RouteBooks(s, findings[0], ask);
      RouteFlags(s, findings[0], ask);
      var first := Route(s, findings[0], ask);
      if first.failure.None? {
        RoutingKeepsOrder(first.state, findings[1..], ask);
      }
    }
  }

  lemma ScanKeepsOrder(s: LoopState, ask: Channel)
    requires InOrder(s) && WellFormed(s.matrix)
    ensures InOrder(Scanned(s, ask).state)
  {
    if s.erythrocyteEnabled {
      ScanIsExact(s.matrix, s.matrix.order);
      RoutingKeepsOrder(s, ScanNames(s.matrix, s.matrix.order), ask);
    }
  }

  lemma HandlingFrame(s: LoopState, error: real, actual: real, ask: Channel)
    ensures var after := Handled(s, error, actual, ask).state;
            && after.flagged == s.flagged && after.matrix.weights.Keys == s.matrix.weights.Keys
            && after.counters.staticFlags == s.counters.staticFlags
            && after.counters.oscillatingFlags == s.counters.oscillatingFlags
  {
    if IsShock(s.strategy, error) {
      var approved := ask(ResetRequest(s.modelState, actual, error));
      ResolutionFrame(s, error, actual, approved);
      OverrideMovesNothing(Resolve(s, error, actual, approved).state);
    }
  }

  lemma ResolutionFrame(s: LoopState, error: real, actual: real, approved: bool)
    ensures var after := Resolve(s, error, actual, approved).state;
            && after.flagged == s.flagged && after.matrix.weights.Keys == s.matrix.weights.Keys
            && after.counters.staticFlags == s.counters.staticFlags
            && after.counters.oscillatingFlags == s.counters.oscillatingFlags
  {
  }

  lemma StepKeepsOrder(s: LoopState, error: real, actual: real, ask: Channel)
    requires InOrder(s) && Sound(s.matrix) && Step(s, error, actual, ask).failure == None
    ensures InOrder(Step(s, error, actual, ask).state)
  {
    var noted := s.(errors := s.errors + [error]);
    FlagsFrame(s, noted);
    if s.strategy.IsCritical(error) {
      var raised := Raise(Counted(noted), error).state;
      RaiseBooks(noted, error);
      RaiseMoves(Counted(noted), error);
      MovesKeep(s.matrix, [RaiseBy(Excess(s.strategy, error))]);
      FlagsFrame(noted, raised);
      RestKeepsOrder(raised, error, actual, ask);
      FlagsFrame(Scanned(Handled(raised, error, actual, ask).state, ask).state, Step(s, error, actual, ask).state);
    } else {
      FlagsFrame(noted, Step(s, error, actual, ask).state);
    }
  }

  /** What follows a raise. */
  lemma RestKeepsOrder(raised: LoopState, error: real, actual: real, ask: Channel)
    requires InOrder(raised) && Sound(raised.matrix)
    requires var handled := Handled(raised, error, actual, ask);
             handled.failure == None && Scanned(handled.state, ask).failure == None
    ensures InOrder(Scanned(Handled(raised, error, actual, ask).state, ask).state)
  {
    var handled := Handled(raised, error, actual, ask).state;
    HandlingBooks(raised, error, actual, ask);
    HandlingFrame(raised, error, actual, ask);
    FlagsFrame(raised, handled);
    HandlingKeeps(raised, error, actual, ask);
    ScanKeepsOrder(handled, ask);
  }

  lemma OtherActsKeepOrder(s: LoopState, act: Act)
    requires InOrder(s) && Sound(s.matrix) && !act.StepAct?
    ensures InOrder(Do(s, act).state)
  {
    ActKeeps(s, act);
    OtherActsBookNothing(s, act);
    FlagsFrame(s, Do(s, act).state);
  }

  lemma OtherActsBookNothing(s: LoopState, act: Act)
    requires !act.StepAct?
    ensures var after := Do(s, act).state;
            after.counters == s.counters && after.audit == s.audit && after.flagged == s.flagged
  {
  }

  lemma {:induction false} RunsKeepOrder(s: LoopState, acts: seq<Act>)
    requires InOrder(s) && Sound(s.matrix) && NeverRaises(s, acts)
    ensures InOrder(Run(s, acts))
  {
    if acts != [] {
      var init, act := acts[..|acts| - 1], acts[|acts| - 1];
      assert forall i :: 0 <= i < |init| ==> init[..i] == acts[..i];
      RunsKeepOrder(s, init);
      W0NeverMoves(s, init);
      if act.StepAct? {
        StepKeepsOrder(Run(s, init), act.error, act.actual, act.ask);
      } else {
        OtherActsKeepOrder(Run(s, init), act);
      }
    }
  }

  lemma FreshIsInOrder(m: MatrixState, strategy: Strategy, enabled: bool)
    ensures InOrder(FreshLoop(m, strategy, enabled))
  {
    var s := FreshLoop(m, strategy, enabled);
    assert FlaggedAs(s, Static) == {} && FlaggedAs(s, Oscillating) == {};
  }

  /** On every run of a fresh loop that no exception cuts short: the counters are what the log shows, the log
      holds one entry per recalibration and flag and two per shock, each finding was either settled or denied,
      and no kind of flag is ever raised more often than there are weights. */
  lemma BooksBalance(m: MatrixState, strategy: Strategy, enabled: bool, acts: seq<Act>)
    requires Registered(m) && NeverRaises(FreshLoop(m, strategy, enabled), acts)
    ensures var s := Run(FreshLoop(m, strategy, enabled), acts);
            && s.counters == Tally(s.audit)
            && |s.audit| == s.counters.recalibrations + 2 * (s.counters.approvedResets + s.counters.deniedResets)
                            + s.counters.staticFlags + s.counters.oscillatingFlags
            && s.counters.staticFlags + s.counters.oscillatingFlags == |s.flagged|
            && s.counters.escalationsApproved + s.counters.escalationsDenied == s.counters.oscillatingFlags
            && s.counters.staticFlags <= |m.weights| && s.counters.oscillatingFlags <= |m.weights|
  {
    var start := FreshLoop(m, strategy, enabled);
    var s := Run(start, acts);
    FreshIsInOrder(m, strategy, enabled);
    RunsKeepOrder(start, acts);
    LogSize(s.audit);
    W0NeverMoves(start, acts);
    SubsetSize(FlaggedAs(s, Static), m.weights.Keys);
    SubsetSize(FlaggedAs(s, Oscillating), m.weights.Keys);
    assert |m.weights.Keys| == |m.weights|;
  }

  // ---------------------------------------------------------------------------
  // Every write the loop signs has its entry
  // ---------------------------------------------------------------------------

  /** The entry that backs a history entry signed by the loop. */
  ghost predicate Backed(audit: seq<AuditEntry>, name: string, e: HistoryEntry) {
    && (e.source == UPDATE_LOOP ==> AuditEntry(Recalibration, name, e.oldValue, e.newValue, AutoApproved) in audit)
    && (e.source == CORRECTION ==> AuditEntry(OscillatingDistortion, name, e.newValue, e.oldValue, Approved) in audit)
  }

  ghost predicate Traceable(m: MatrixState, audit: seq<AuditEntry>) {
    forall n :: n in m.weights ==> forall e :: e in m.weights[n].history ==> Backed(audit, n, e)
  }

  lemma LogsOnlyBackMore(m: MatrixState, audit: seq<AuditEntry>, more: seq<AuditEntry>)
    requires Traceable(m, audit) && audit <= more
    ensures Traceable(m, more)
  {
    assert forall entry :: entry in audit ==> entry in more;
  }

  lemma BackedWrite(m: MatrixState, audit: seq<AuditEntry>, name: string, value: real, source: string,
                    context: Option<string>)
    requires Traceable(m, audit) && name in m.weights
    requires Backed(audit, name, HistoryEntry(m.weights[name].value, value, source, context))
    ensures var after := m.(weights := m.weights[name := Touched(m.weights[name], value, source, context)]);
            Traceable(after, audit)
  {
  }

  lemma RaiseIsBacked(s: LoopState, error: real)
    requires Traceable(s.matrix, s.audit)
    ensures Traceable(Raise(s, error).state.matrix, Raise(s, error).state.audit)
  {
    var after := Raise(s, error);
    if after.failure.None? {
      var before := ValueOf(s, ADAPTABILITY);
      var value := Min(1.0, before + Excess(s.strategy, error));
      assert after.state.audit == s.audit + [AuditEntry(Recalibration, ADAPTABILITY, before, value, AutoApproved)];
      LogsOnlyBackMore(s.matrix, s.audit, after.state.audit);
      BackedWrite(s.matrix, after.state.audit, ADAPTABILITY, value, UPDATE_LOOP, None);
    }
  }

  lemma RollBackIsBacked(s: LoopState, error: real)
    requires Traceable(s.matrix, s.audit)
    ensures Traceable(RollBack(s, error).state.matrix, RollBack(s, error).state.audit)
  {
    if Has(s, ADAPTABILITY) {
      var value := Max(0.0, ValueOf(s, ADAPTABILITY) - Excess(s.strategy, error));
      BackedWrite(s.matrix, s.audit, ADAPTABILITY, value, ROLLBACK, None);
    }
  }

  lemma HandlingIsBacked(s: LoopState, error: real, actual: real, ask: Channel)
    requires Traceable(s.matrix, s.audit)
    ensures var after := Handled(s, error, actual, ask).state; Traceable(after.matrix, after.audit)
  {
    if IsShock(s.strategy, error) {
      var approved := ask(ResetRequest(s.modelState, actual, error));
      var resolved := Resolve(s, error, actual, approved).state;
      if approved {
        LogsOnlyBackMore(s.matrix, s.audit, resolved.audit);
      } else {
        LogsOnlyBackMore(s.matrix, s.audit, Refused(s, actual).audit);
        RollBackIsBacked(Refused(s, actual), error);
      }
      var tried := TryOverride(resolved).state;
      assert tried.matrix == resolved.matrix && resolved.audit <= tried.audit;
      LogsOnlyBackMore(resolved.matrix, resolved.audit, tried.audit);
    }
  }

  lemma RouteIsBacked(s: LoopState, finding: Finding, ask: Channel)
    requires Traceable(s.matrix, s.audit)
    ensures var after := Route(s, finding, ask).state; Traceable(after.matrix, after.audit)
  {
    var after := Route(s, finding, ask).state;
    assert s.audit <= after.audit;
    LogsOnlyBackMore(s.matrix, s.audit, after.audit);
    if after.matrix != s.matrix {
      var w := s.matrix.weights[finding.weight];
      assert AuditEntry(OscillatingDistortion, finding.weight, w.baseline, w.value, Approved) in after.audit;
      BackedWrite(s.matrix, after.audit, finding.weight, w.baseline, CORRECTION, None);
    }
  }

  lemma {:induction false} RoutingIsBacked(s: LoopState, findings: seq<Finding>, ask: Channel)
    requires Traceable(s.matrix, s.audit)
    ensures var after := RouteAll(s, findings, ask).state; Traceable(after.matrix, after.audit)
    decreases |findings|
  {
    if findings != [] {
      RouteIsBacked(s, findings[0], ask);
      var first := Route(s, findings[0], ask);
      if first.failure.None? {
        RoutingIsBacked(first.state, findings[1..], ask);
      }
    }
  }

  lemma StepIsBacked(s: LoopState, error: real, actual: real, ask: Channel)
    requires Traceable(s.matrix, s.audit)
    ensures var after := Step(s, error, actual, ask).state; Traceable(after.matrix, after.audit)
  {
    if s.strategy.IsCritical(error) {
      var counted := Counted(s.(errors := s.errors + [error]));
      RaiseIsBacked(counted, error);
      var raised := Raise(counted, error).state;
      HandlingIsBacked(raised, error, actual, ask);
      ScanIsBacked(Handled(raised, error, actual, ask).state, ask);
    }
  }

  lemma ScanIsBacked(s: LoopState, ask: Channel)
    requires Traceable(s.matrix, s.audit)
    ensures var after := Scanned(s, ask).state; Traceable(after.matrix, after.audit)
  {
    if s.erythrocyteEnabled && forall n <- s.matrix.order :: n in s.matrix.weights {
      RoutingIsBacked(s, ScanNames(s.matrix, s.matrix.order), ask);
    }
  }

  /** Outside writes do not sign for the loop. */
  ghost predicate SignsHonestly(act: Act) {
    act.UpdateAct? || act.TouchAct? ==> act.source !in LEGITIMATE_SOURCES
  }

  /** On every run, raising or not: each write in a history that carries the loop's signature has its matching
      entry in the audit log, with the same values. */
  lemma {:induction false} SignedWritesAreAudited(s: LoopState, acts: seq<Act>)
    requires Traceable(s.matrix, s.audit) && forall act :: act in acts ==> SignsHonestly(act)
    ensures Traceable(Run(s, acts).matrix, Run(s, acts).audit)
  {
    if acts != [] {
      var before, act := Run(s, acts[..|acts| - 1]), acts[|acts| - 1];
      assert act in acts;
      SignedWritesAreAudited(s, acts[..|acts| - 1]);
      if act.StepAct? {
        StepIsBacked(before, act.error, act.actual, act.ask);
      } else if (act.UpdateAct? || act.TouchAct?) && Has(before, act.name) {
        BackedWrite(before.matrix, before.audit, act.name, act.value, act.source, act.context);
      }
    }
  }
}
