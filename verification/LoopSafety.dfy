/** Whole runs of the update loop, with outside writes in between (core_engine.py, lines 186-206, 311-379,
    701-911): W0 never moves, adaptability keeps its range, the model keeps within what it saw, and the
    exact condition under which no step ever raises. */
module LoopSafety {
  import opened Prelude
  import opened CoreEngine
  import opened Erythrocyte
  import opened BearerLoop

  // ---------------------------------------------------------------------------
  // Runs
  // ---------------------------------------------------------------------------

  /** What can happen to a loop: its own steps, writes from outside by name or by reference, and the model
      observing. */
  datatype Act =
    | StepAct(error: real, actual: real, ask: Channel)
    | UpdateAct(name: string, value: real, source: string, context: Option<string>)
    | TouchAct(name: string, value: real, source: string, context: Option<string>)
    | ObserveAct(actual: real)

  function Replaced(s: LoopState, r: Result<MatrixState, Failure>): Outcome {
    match r
    case Ok(m) => Outcome(s.(matrix := m), None)
    case Err(failure) => Outcome(s, Some(failure))
  }

  function Do(s: LoopState, act: Act): Outcome {
    match act
    case StepAct(error, actual, ask) => Step(s, error, actual, ask)
    case UpdateAct(name, value, source, context) => Replaced(s, AfterUpdate(s.matrix, name, value, source, context))
    case TouchAct(name, value, source, context) => Replaced(s, AfterTouchIn(s.matrix, name, value, source, context))
    case ObserveAct(actual) =>
      if Has(s, ADAPTABILITY) then Outcome(s.(modelState := Moved(s.modelState, ValueOf(s, ADAPTABILITY), actual)), None)
      else Outcome(s, Some(KeyError))
  }

  /** The state after `acts`; whatever an act raises is caught by its caller, and the run goes on. */
  function Run(s: LoopState, acts: seq<Act>): LoopState {
    if acts == [] then s else Do(Run(s, acts[..|acts| - 1]), acts[|acts| - 1]).state
  }

  // ---------------------------------------------------------------------------
  // A step's effect on the matrix, as a sequence of moves
  // ---------------------------------------------------------------------------

  datatype Move = RaiseBy(d: real) | RollBackBy(d: real) | Correct(name: string)

  function Moving(m: MatrixState, move: Move): Result<MatrixState, Failure> {
    match move
    case Correct(name) =>
      if name in m.weights then AfterUpdate(m, name, m.weights[name].baseline, CORRECTION, None) else Err(KeyError)
    case RaiseBy(d) =>
      if ADAPTABILITY !in m.weights then Err(KeyError)
      else AfterUpdate(m, ADAPTABILITY, Min(1.0, m.weights[ADAPTABILITY].value + d), UPDATE_LOOP, None)
    case RollBackBy(d) =>
      if ADAPTABILITY !in m.weights then Err(KeyError)
      else AfterUpdate(m, ADAPTABILITY, Max(0.0, m.weights[ADAPTABILITY].value - d), ROLLBACK, None)
  }

  function Replay(m: MatrixState, moves: seq<Move>): MatrixState {
    if moves == [] then m
    else
      var before := Replay(m, moves[..|moves| - 1]);
      match Moving(before, moves[|moves| - 1])
      case Ok(after) => after
      case Err(_) => before
  }

  /** Whether a step takes its raise back: a shock, denied, while TruthPriority stands. */
  predicate TakesBack(s: LoopState, error: real, actual: real, ask: Channel) {
    && s.strategy.IsCritical(error) && IsShock(s.strategy, error)
    && !ask(ResetRequest(s.modelState, actual, error))
    && Has(s, TRUTH_PRIORITY) && ValueOf(s, TRUTH_PRIORITY) >= 1.0
  }

  /** A step raises by a positive amount, may take back that very amount, and otherwise only corrects. */
  ghost predicate Shaped(moves: seq<Move>, d: real, takesBack: bool) {
    && d > 0.0
    && |moves| >= (if takesBack then 2 else 1)
    && moves[0] == RaiseBy(d)
    && (takesBack ==> moves[1] == RollBackBy(d))
    && forall i :: (if takesBack then 2 else 1) <= i < |moves| ==> moves[i].Correct?
  }

  lemma ReplayOne(m: MatrixState, moves: seq<Move>, move: Move)
    ensures Replay(m, moves + [move]) ==
            var before := Replay(m, moves);
            match Moving(before, move) case Ok(after) => after case Err(_) => before
  {
    assert (moves + [move])[..|moves|] == moves;
  }

  lemma {:induction false} RouteMoves(s: LoopState, findings: seq<Finding>, ask: Channel,
                                      start: MatrixState, moves: seq<Move>)
    returns (all: seq<Move>)
    requires Replay(start, moves) == s.matrix
    ensures moves <= all && forall i :: |moves| <= i < |all| ==> all[i].Correct?
    ensures Replay(start, all) == RouteAll(s, findings, ask).state.matrix
    decreases |findings|
  {
    all := moves;
    if findings != [] {
      var first := Route(s, findings[0], ask);
      if first.state.matrix != s.matrix {
        var move := Correct(findings[0].weight);
        ReplayOne(start, moves, move);
        all := moves + [move];
      }
      if first.failure.None? {
        all := RouteMoves(first.state, findings[1..], ask, start, all);
      }
    }
  }

  lemma RaiseMoves(s: LoopState, error: real)
    ensures Raise(s, error).state.matrix == Replay(s.matrix, [RaiseBy(Excess(s.strategy, error))])
    ensures Raise(s, error).failure.Some? ==> Raise(s, error).state == s
    ensures Raise(s, error).state.strategy == s.strategy && Raise(s, error).state.modelState == s.modelState
  {
    ReplayOne(s.matrix, [], RaiseBy(Excess(s.strategy, error)));
    assert Replay(s.matrix, []) == s.matrix;
    assert [] + [RaiseBy(Excess(s.strategy, error))] == [RaiseBy(Excess(s.strategy, error))];
  }

  lemma {:induction false} HandledMoves(s: LoopState, error: real, actual: real, ask: Channel,
                                        start: MatrixState, moves: seq<Move>)
    returns (all: seq<Move>)
    requires Replay(start, moves) == s.matrix
    ensures var rolled := IsShock(s.strategy, error) && !ask(ResetRequest(s.modelState, actual, error))
                          && Has(s, TRUTH_PRIORITY) && ValueOf(s, TRUTH_PRIORITY) >= 1.0;
            all == if rolled then moves + [RollBackBy(Excess(s.strategy, error))] else moves
    ensures Replay(start, all) == Handled(s, error, actual, ask).state.matrix
  {
    all := moves;
    if IsShock(s.strategy, error) {
      var approved := ask(ResetRequest(s.modelState, actual, error));
      ResolutionMoves(s, error, actual, approved);
      OverrideMovesNothing(Resolve(s, error, actual, approved).state);
      if !approved && Has(s, TRUTH_PRIORITY) && ValueOf(s, TRUTH_PRIORITY) >= 1.0 {
        ReplayOne(start, moves, RollBackBy(Excess(s.strategy, error)));
        all := moves + [RollBackBy(Excess(s.strategy, error))];
      }
    }
  }

  lemma ResolutionMoves(s: LoopState, error: real, actual: real, approved: bool)
    ensures Resolve(s, error, actual, approved).state.matrix ==
            if !approved && Has(s, TRUTH_PRIORITY) && ValueOf(s, TRUTH_PRIORITY) >= 1.0
            then match Moving(s.matrix, RollBackBy(Excess(s.strategy, error))) case Ok(m) => m case Err(_) => s.matrix
            else s.matrix
  {
  }

  lemma OverrideMovesNothing(s: LoopState)
    ensures TryOverride(s).state.matrix == s.matrix
  {
  }

  /** Everything a step does to the matrix. */
  lemma StepMoves(s: LoopState, error: real, actual: real, ask: Channel) returns (moves: seq<Move>)
    ensures Replay(s.matrix, moves) == Step(s, error, actual, ask).state.matrix
    ensures if s.strategy.IsCritical(error)
            then Shaped(moves, Excess(s.strategy, error), TakesBack(s, error, actual, ask)) else moves == []
  {
    moves := [];
    if s.strategy.IsCritical(error) {
      var counted := Counted(s.(errors := s.errors + [error]));
      RaiseMoves(counted, error);
      var raised := Raise(counted, error);
      var d := Excess(s.strategy, error);
      moves := [RaiseBy(d)];
      if raised.failure.Some? {
        if TakesBack(s, error, actual, ask) {
          ReplayOne(s.matrix, moves, RollBackBy(d));
          moves := moves + [RollBackBy(d)];
        }
      } else {
        var handled := Handled(raised.state, error, actual, ask);
        moves := HandledMoves(raised.state, error, actual, ask, s.matrix, moves);
        assert Has(raised.state, TRUTH_PRIORITY) <==> Has(s, TRUTH_PRIORITY);
        if handled.failure.None? {
          moves := ScanMoves(handled.state, ask, s.matrix, moves);
        }
      }
    }
  }

  lemma ScanMoves(s: LoopState, ask: Channel, start: MatrixState, moves: seq<Move>) returns (all: seq<Move>)
    requires Replay(start, moves) == s.matrix
    ensures moves <= all && forall i :: |moves| <= i < |all| ==> all[i].Correct?
    ensures Replay(start, all) == Scanned(s, ask).state.matrix
  {
    all := moves;
    if s.erythrocyteEnabled && forall n <- s.matrix.order :: n in s.matrix.weights {
      all := RouteMoves(s, ScanNames(s.matrix, s.matrix.order), ask, start, moves);
    }
  }

  // ---------------------------------------------------------------------------
  // W0 never moves
  // ---------------------------------------------------------------------------

  ghost predicate Sound(m: MatrixState) {
    Guarded(m) && FrozenHistories(m)
  }

  lemma {:induction false} MovesKeep(m: MatrixState, moves: seq<Move>)
    requires Sound(m)
    ensures Sound(Replay(m, moves)) && KeepsFixtures(m, Replay(m, moves))
  {
    if moves != [] {
      var move := moves[|moves| - 1];
      MovesKeep(m, moves[..|moves| - 1]);
      var before := Replay(m, moves[..|moves| - 1]);
      if Moving(before, move).Ok? {
        MoveKeeps(before, move);
        KeepsFixturesTransitive(m, before, Moving(before, move).value);
      }
    }
  }

  lemma MoveKeeps(m: MatrixState, move: Move)
    requires Sound(m) && Moving(m, move).Ok?
    ensures Sound(Moving(m, move).value) && KeepsFixtures(m, Moving(m, move).value)
  {
    match move
    case Correct(name) => WritesKeepFixtures(m, name, m.weights[name].baseline, CORRECTION, None);
    case RaiseBy(d) =>
      WritesKeepFixtures(m, ADAPTABILITY, Min(1.0, m.weights[ADAPTABILITY].value + d), UPDATE_LOOP, None);
    case RollBackBy(d) =>
      WritesKeepFixtures(m, ADAPTABILITY, Max(0.0, m.weights[ADAPTABILITY].value - d), ROLLBACK, None);
  }

  lemma ActKeeps(s: LoopState, act: Act)
    requires Sound(s.matrix)
    ensures Sound(Do(s, act).state.matrix) && KeepsFixtures(s.matrix, Do(s, act).state.matrix)
  {
    match act
    case StepAct(error, actual, ask) =>
      var moves := StepMoves(s, error, actual, ask);
      MovesKeep(s.matrix, moves);
    case UpdateAct(name, value, source, context) => WritesKeepFixtures(s.matrix, name, value, source, context);
    case TouchAct(name, value, source, context) => WritesKeepFixtures(s.matrix, name, value, source, context);
    case ObserveAct(_) =>
  }

  /** Over every run, raising or not: no weight appears or disappears, no write-once field changes, no
      immutable value moves, and every canonical W0 name stays protected. */
  lemma {:induction false} W0NeverMoves(s: LoopState, acts: seq<Act>)
    requires Sound(s.matrix)
    ensures Sound(Run(s, acts).matrix) && KeepsFixtures(s.matrix, Run(s, acts).matrix)
  {
    if acts != [] {
      W0NeverMoves(s, acts[..|acts| - 1]);
      var before := Run(s, acts[..|acts| - 1]);
      ActKeeps(before, acts[|acts| - 1]);
      KeepsFixturesTransitive(s.matrix, before.matrix, Run(s, acts).matrix);
    }
  }

  // ---------------------------------------------------------------------------
  // Adaptability keeps its range
  // ---------------------------------------------------------------------------

  predicate InUnit(x: real) {
    0.0 <= x <= 1.0
  }

  ghost predicate Bounded(m: MatrixState) {
    ADAPTABILITY in m.weights ==> InUnit(m.weights[ADAPTABILITY].value) && InUnit(m.weights[ADAPTABILITY].baseline)
  }

  /** Outside writes to adaptability respect the range; all others are free. */
  ghost predicate RespectsRange(act: Act) {
    (act.UpdateAct? || act.TouchAct?) && act.name == ADAPTABILITY ==> InUnit(act.value)
  }

  lemma {:induction false} MovesStayBounded(m: MatrixState, moves: seq<Move>)
    requires Bounded(m) && forall move :: move in moves && !move.Correct? ==> move.d >= 0.0
    ensures Bounded(Replay(m, moves))
  {
    if moves != [] {
      assert moves[|moves| - 1] in moves;
      MovesStayBounded(m, moves[..|moves| - 1]);
    }
  }

  lemma {:induction false} StepStaysBounded(s: LoopState, error: real, actual: real, ask: Channel)
    requires Bounded(s.matrix)
    ensures Bounded(Step(s, error, actual, ask).state.matrix)
  {
    var moves := StepMoves(s, error, actual, ask);
    MovesStayBounded(s.matrix, moves);
  }

  lemma {:induction false} AdaptabilityKeepsItsRange(s: LoopState, acts: seq<Act>)
    requires Bounded(s.matrix) && forall act :: act in acts ==> RespectsRange(act)
    ensures Bounded(Run(s, acts).matrix)
  {
    if acts != [] {
      var init, act := acts[..|acts| - 1], acts[|acts| - 1];
      assert act in acts;
      AdaptabilityKeepsItsRange(s, init);
      if act.StepAct? {
        StepStaysBounded(Run(s, init), act.error, act.actual, act.ask);
      }
    }
  }

  // ---------------------------------------------------------------------------
  // The model keeps within what it saw
  // ---------------------------------------------------------------------------

  lemma {:induction false} RoutingLeavesTheModel(s: LoopState, findings: seq<Finding>, ask: Channel)
    ensures RouteAll(s, findings, ask).state.modelState == s.modelState
    decreases |findings|
  {
    if findings != [] && Route(s, findings[0], ask).failure.None? {
      RoutingLeavesTheModel(Route(s, findings[0], ask).state, findings[1..], ask);
    }
  }

  lemma ScanLeavesTheModel(s: LoopState, ask: Channel)
    ensures Scanned(s, ask).state.modelState == s.modelState
  {
    if s.erythrocyteEnabled && forall n <- s.matrix.order :: n in s.matrix.weights {
      RoutingLeavesTheModel(s, ScanNames(s.matrix, s.matrix.order), ask);
    }
  }

  lemma HandlingTheModel(s: LoopState, error: real, actual: real, ask: Channel)
    ensures var after := Handled(s, error, actual, ask).state.modelState;
            after == s.modelState || (after == actual && ask(ResetRequest(s.modelState, actual, error)))
  {
    if IsShock(s.strategy, error) {
      var approved := ask(ResetRequest(s.modelState, actual, error));
      var resolved := Resolve(s, error, actual, approved);
      assert resolved.state.modelState == if approved then actual else s.modelState;
      assert TryOverride(resolved.state).state.modelState == resolved.state.modelState;
    }
  }

  /** A step leaves the model alone, or resets it to the actual value with approval. */
  lemma StepAndModel(s: LoopState, error: real, actual: real, ask: Channel)
    ensures var after := Step(s, error, actual, ask).state.modelState;
            after == s.modelState || (after == actual && ask(ResetRequest(s.modelState, actual, error)))
  {
    if s.strategy.IsCritical(error) {
      var counted := Counted(s.(errors := s.errors + [error]));
      RaiseMoves(counted, error);
      var raised := Raise(counted, error).state;
      HandlingTheModel(raised, error, actual, ask);
      ScanLeavesTheModel(Handled(raised, error, actual, ask).state, ask);
    }
  }

  ghost predicate Saw(act: Act, lo: real, hi: real) {
    act.StepAct? || act.ObserveAct? ==> lo <= act.actual <= hi
  }

  /** Every interval that holds the first state and all actual values ever shown holds the model's state. */
  lemma {:induction false} ModelStaysInHull(s: LoopState, acts: seq<Act>, lo: real, hi: real)
    requires Bounded(s.matrix) && lo <= s.modelState <= hi
    requires forall act :: act in acts ==> RespectsRange(act) && Saw(act, lo, hi)
    ensures lo <= Run(s, acts).modelState <= hi
  {
    if acts != [] {
      var init, act := acts[..|acts| - 1], acts[|acts| - 1];
      assert act in acts;
      ModelStaysInHull(s, init, lo, hi);
      AdaptabilityKeepsItsRange(s, init);
      var before := Run(s, init);
      if act.StepAct? {
        StepAndModel(before, act.error, act.actual, act.ask);
      } else if act.ObserveAct? && Has(before, ADAPTABILITY) {
        MovedStaysBetween(before.modelState, ValueOf(before, ADAPTABILITY), act.actual);
      }
    }
  }

  // ---------------------------------------------------------------------------
  // The TruthPriority rollback
  // ---------------------------------------------------------------------------

  /** A denied reset under TruthPriority never leaves adaptability above where the step found it, and puts it
      back exactly when the raise was not clamped at one, or there was nothing to lose. */
  lemma DeniedResetTakesBack(s: LoopState, error: real, actual: real, ask: Channel)
    requires Bounded(s.matrix) && Has(s, ADAPTABILITY) && !s.matrix.weights[ADAPTABILITY].isImmutable
    requires TakesBack(s, error, actual, ask)
    ensures var raised := Raise(s, error);
            var settled := Handled(raised.state, error, actual, ask).state;
            var before, d := ValueOf(s, ADAPTABILITY), 0.1 * (Abs(error) - s.strategy.Current());
            && raised.failure == None && Has(settled, ADAPTABILITY)
            && ValueOf(settled, ADAPTABILITY) <= before
            && (ValueOf(settled, ADAPTABILITY) == before <==> before + d <= 1.0 || before == 0.0)
  {
    var raised := Raise(s, error);
    assert raised.failure == None;
    var resolved := Resolve(raised.state, error, actual, false);
    assert resolved.state.matrix == RollBack(Refused(raised.state, actual), error).state.matrix;
    assert TryOverride(resolved.state).state.matrix == resolved.state.matrix;
  }
}
