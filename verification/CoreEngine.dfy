/** The criticality matrix, its W0 guard, the model and the thresholds (core_engine.py, lines 48-440). */
module CoreEngine {
  import opened Prelude

  // ---------------------------------------------------------------------------
  // Weights as values
  // ---------------------------------------------------------------------------

  datatype HistoryEntry = HistoryEntry(oldValue: real, newValue: real, source: string, context: Option<string>)

  datatype Failure = KeyError | ImmutableWeightViolation

  datatype WeightState = WeightState(value: real, baseline: real, isImmutable: bool, varianceThreshold: real,
                                     history: seq<HistoryEntry>)

  /** The matrix: its names in registration order, and the weight of each. */
  datatype MatrixState = MatrixState(order: seq<string>, weights: map<string, WeightState>)

  const HISTORY_LIMIT := 20

  const BEARER_INTEGRITY := "BearerIntegrity"
  const TRUTH_PRIORITY := "TruthPriority"
  const CORRIGIBILITY_CHANNEL := "CorrigibilityChannel"
  const ADAPTABILITY := "adaptability"

  const W0_INVARIANT_NAMES: set<string> := {BEARER_INTEGRITY, TRUTH_PRIORITY, CORRIGIBILITY_CHANNEL}

  const EMPTY_MATRIX := MatrixState([], map[])

  /** The history is a window: a new entry pushes out the oldest one when the window is full. */
  function Recorded(history: seq<HistoryEntry>, entry: HistoryEntry): (h: seq<HistoryEntry>)
    ensures 0 < |h| && h[|h| - 1] == entry
    ensures forall e :: e in h ==> e in history || e == entry
    ensures |history| < HISTORY_LIMIT ==> h == history + [entry]
    ensures |history| <= HISTORY_LIMIT ==> |h| <= HISTORY_LIMIT
  {
    var all := history + [entry];
    if |all| > HISTORY_LIMIT then all[|all| - HISTORY_LIMIT..] else all
  }

  function Touched(w: WeightState, value: real, source: string, context: Option<string>): WeightState {
    w.(value := value, history := Recorded(w.history, HistoryEntry(w.value, value, source, context)))
  }

  /** A value, its source and its context, as written. */
  datatype Written = Written(value: real, source: string, context: Option<string>)

  function TouchedAll(w: WeightState, writes: seq<Written>): WeightState {
    if writes == [] then w
    else
      var last := writes[|writes| - 1];
      Touched(TouchedAll(w, writes[..|writes| - 1]), last.value, last.source, last.context)
  }

  /** `entry` is the `k`-th newest entry of a full or filling window. */
  ghost predicate IsRecent(w: WeightState, entry: HistoryEntry, k: nat) {
    k < |w.history| <= HISTORY_LIMIT && w.history[|w.history| - 1 - k] == entry
  }

  lemma TouchShifts(w: WeightState, entry: HistoryEntry, k: nat, last: Written)
    requires IsRecent(w, entry, k) && k + 1 < HISTORY_LIMIT
    ensures IsRecent(Touched(w, last.value, last.source, last.context), entry, k + 1)
  {
    var all := w.history + [HistoryEntry(w.value, last.value, last.source, last.context)];
    assert all[|all| - 2 - k] == entry;
  }

  /** An entry stays in the window while fewer than twenty others follow it. */
  lemma {:induction false} StaysInWindow(w: WeightState, entry: HistoryEntry, writes: seq<Written>)
    requires IsRecent(w, entry, 0) && |writes| < HISTORY_LIMIT
    ensures IsRecent(TouchedAll(w, writes), entry, |writes|)
  {
    if writes != [] {
      var init, last := writes[..|writes| - 1], writes[|writes| - 1];
      StaysInWindow(w, entry, init);
      TouchShifts(TouchedAll(w, init), entry, |init|, last);
    }
  }

  function EntryOf(before: real, written: Written): HistoryEntry {
    HistoryEntry(before, written.value, written.source, written.context)
  }

  /** The value after some writes. */
  function LastValue(start: real, writes: seq<Written>): real {
    if writes == [] then start else writes[|writes| - 1].value
  }

  /** Every write to a weight, in order, with the value it replaced. */
  function Chronicle(start: real, writes: seq<Written>): seq<HistoryEntry> {
    if writes == [] then []
    else
      var init := writes[..|writes| - 1];
      Chronicle(start, init) + [EntryOf(LastValue(start, init), writes[|writes| - 1])]
  }

  function LastTwenty(all: seq<HistoryEntry>): seq<HistoryEntry> {
    if |all| <= 20 then all else all[|all| - 20..]
  }

  lemma RecordedIsLastTwenty(all: seq<HistoryEntry>, entry: HistoryEntry)
    ensures Recorded(LastTwenty(all), entry) == LastTwenty(all + [entry])
  {
    if |all| >= 20 {
      assert (all + [entry])[|all| - 19..] == all[|all| - 19..] + [entry];
      assert (LastTwenty(all) + [entry])[1..] == all[|all| - 19..] + [entry];
    }
  }

  /** The history of a new weight is the end of that chronicle, twenty entries long, and its value the last one written. */
  lemma {:induction false} HistoryIsLastTwenty(w: WeightState, writes: seq<Written>)
    requires w.history == []
    ensures TouchedAll(w, writes).history == LastTwenty(Chronicle(w.value, writes))
    ensures TouchedAll(w, writes).value == LastValue(w.value, writes)
  {
    if writes != [] {
      var init, last := writes[..|writes| - 1], writes[|writes| - 1];
      HistoryIsLastTwenty(w, init);
      RecordedIsLastTwenty(Chronicle(w.value, init), EntryOf(LastValue(w.value, init), last));
    }
  }

  /** A write through a reference to the weight itself. */
  function AfterTouch(w: WeightState, value: real, source: string, context: Option<string>): Result<WeightState, Failure> {
    if w.isImmutable && value != w.value then Err(ImmutableWeightViolation)
    else Ok(Touched(w, value, source, context))
  }

  /** The two independent checks of the guard: the registry of names, and the weight's own flag. */
  predicate MayWrite(name: string, w: WeightState) {
    name !in W0_INVARIANT_NAMES && !w.isImmutable
  }

  predicate MayRegister(name: string, isImmutable: bool) {
    name in W0_INVARIANT_NAMES ==> isImmutable
  }

  function AfterRegister(m: MatrixState, name: string, value: real, baseline: Option<real>, isImmutable: bool,
                    varianceThreshold: real): Result<MatrixState, Failure> {
    if !MayRegister(name, isImmutable) then Err(ImmutableWeightViolation)
    else
      var w := WeightState(value, if baseline.Some? then baseline.value else value, isImmutable, varianceThreshold, []);
      Ok(MatrixState(if name in m.weights then m.order else m.order + [name], m.weights[name := w]))
  }

  /** A write by name, through the guard. */
  function AfterUpdate(m: MatrixState, name: string, value: real, source: string, context: Option<string>)
    : Result<MatrixState, Failure>
  {
    if name !in m.weights then Err(KeyError)
    else if !MayWrite(name, m.weights[name]) then Err(ImmutableWeightViolation)
    else Ok(m.(weights := m.weights[name := Touched(m.weights[name], value, source, context)]))
  }

  /** A write by reference, past the guard. */
  function AfterTouchIn(m: MatrixState, name: string, value: real, source: string, context: Option<string>)
    : Result<MatrixState, Failure>
  {
    if name !in m.weights then Err(KeyError)
    else
      match AfterTouch(m.weights[name], value, source, context)
      case Ok(w) => Ok(m.(weights := m.weights[name := w]))
      case Err(failure) => Err(failure)
  }

  /** How a method that either completes or raises shows the outcome `r`. */
  ghost predicate Reflects<T>(r: Result<T, Failure>, failure: Option<Failure>, before: T, after: T) {
    match r
    case Ok(state) => failure == None && after == state
    case Err(error) => failure == Some(error) && after == before
  }

  ghost predicate WellFormed(m: MatrixState) {
    && (forall n :: n in m.order <==> n in m.weights)
    && (forall i, j :: 0 <= i < j < |m.order| ==> m.order[i] != m.order[j])
  }

  /** The canonical invariants by name. */
  predicate IsCanonical(name: string) {
    name == "BearerIntegrity" || name == "TruthPriority" || name == "CorrigibilityChannel"
  }

  // ---------------------------------------------------------------------------
  // What every write keeps
  // ---------------------------------------------------------------------------

  /** The write-once part of a weight, with the value of an immutable one. */
  ghost predicate SameFixture(before: WeightState, after: WeightState) {
    && after.baseline == before.baseline
    && after.isImmutable == before.isImmutable
    && after.varianceThreshold == before.varianceThreshold
    && (before.isImmutable ==> after.value == before.value)
  }

  ghost predicate KeepsFixtures(before: MatrixState, after: MatrixState) {
    && after.order == before.order
    && after.weights.Keys == before.weights.Keys
    && forall n :: n in before.weights ==> SameFixture(before.weights[n], after.weights[n])
  }

  /** What registration establishes and no write breaks: every canonical W0 name is immutable. */
  ghost predicate Guarded(m: MatrixState) {
    WellFormed(m) && forall n :: n in m.weights && n in W0_INVARIANT_NAMES ==> m.weights[n].isImmutable
  }

  /** The history of an immutable weight only ever repeats its value. */
  ghost predicate Frozen(w: WeightState) {
    w.isImmutable ==> forall e :: e in w.history ==> e.newValue == w.value
  }

  ghost predicate FrozenHistories(m: MatrixState) {
    forall n :: n in m.weights ==> Frozen(m.weights[n])
  }

  lemma RegisterGuards(m: MatrixState, name: string, value: real, baseline: Option<real>, isImmutable: bool, threshold: real)
    requires Guarded(m) && FrozenHistories(m)
    ensures var r := AfterRegister(m, name, value, baseline, isImmutable, threshold);
            if IsCanonical(name) && !isImmutable then r == Err(ImmutableWeightViolation)
            else r.Ok? && Guarded(r.value) && FrozenHistories(r.value)
                 && r.value.weights.Keys == m.weights.Keys + {name} && r.value.weights[name].history == []
  {
    if MayRegister(name, isImmutable) {
      var after := AfterRegister(m, name, value, baseline, isImmutable, threshold).value;
      PlacedIsWellFormed(m, name, after);
      forall n | n in after.weights && n != name
        ensures after.weights[n] == m.weights[n] && Frozen(m.weights[n])
      {
      }
    }
  }

  lemma PlacedIsWellFormed(m: MatrixState, name: string, after: MatrixState)
    requires WellFormed(m) && after.weights.Keys == m.weights.Keys + {name}
    requires after.order == if name in m.weights then m.order else m.order + [name]
    ensures WellFormed(after)
  {
    assert forall n :: n in after.order <==> n in m.order || n == name;
  }

  /** No write, through the guard or past it, ever moves an immutable value or a write-once field,
      and by name the canonical W0 weights cannot be written at all. */
  lemma WritesKeepFixtures(m: MatrixState, name: string, value: real, source: string, context: Option<string>)
    requires Guarded(m) && FrozenHistories(m)
    ensures var byName := AfterUpdate(m, name, value, source, context);
            && (byName.Ok? ==> KeepsFixtures(m, byName.value) && Guarded(byName.value) && FrozenHistories(byName.value))
            && (IsCanonical(name) ==> byName.Err?)
    ensures var byReference := AfterTouchIn(m, name, value, source, context);
            byReference.Ok? ==> KeepsFixtures(m, byReference.value) && Guarded(byReference.value)
                                && FrozenHistories(byReference.value)
    ensures AfterUpdate(m, name, value, source, context).Ok? ==>
              AfterTouchIn(m, name, value, source, context) == AfterUpdate(m, name, value, source, context)
  {
    if name in m.weights {
      var w := m.weights[name];
      var after := m.(weights := m.weights[name := Touched(w, value, source, context)]);
      assert after.weights.Keys == m.weights.Keys;
      if !w.isImmutable || value == w.value {
        assert Frozen(Touched(w, value, source, context));
      }
    }
  }

  /** A weight after an accepted write: the new value, the write at the end of the history, and nothing else changed. */
  ghost predicate Wrote(w: WeightState, w': WeightState, value: real, source: string, context: Option<string>) {
    && w' == w.(value := value, history := w'.history)
    && w'.history != [] && w'.history[|w'.history| - 1] == HistoryEntry(w.value, value, source, context)
    && (|w.history| < 20 ==> |w'.history| == |w.history| + 1)
  }

  /** A write by name raises a key error for a name the matrix does not have, and is refused for the canonical W0 names
      and for every immutable weight, even with the weight's own value; otherwise it writes that weight alone. */
  lemma UpdateInPlainTerms(m: MatrixState, name: string, value: real, source: string, context: Option<string>)
    ensures var r := AfterUpdate(m, name, value, source, context);
            if name !in m.weights then r == Err(KeyError)
            else if IsCanonical(name) || m.weights[name].isImmutable then r == Err(ImmutableWeightViolation)
            else r.Ok? && name in r.value.weights
                 && r.value == m.(weights := m.weights[name := r.value.weights[name]])
                 && Wrote(m.weights[name], r.value.weights[name], value, source, context)
  {
  }

  /** A write by reference is refused only to an immutable weight, and only with a value that is not its own. */
  lemma TouchInPlainTerms(m: MatrixState, name: string, value: real, source: string, context: Option<string>)
    ensures var r := AfterTouchIn(m, name, value, source, context);
            if name !in m.weights then r == Err(KeyError)
            else if m.weights[name].isImmutable && value != m.weights[name].value then r == Err(ImmutableWeightViolation)
            else r.Ok? && name in r.value.weights
                 && r.value == m.(weights := m.weights[name := r.value.weights[name]])
                 && Wrote(m.weights[name], r.value.weights[name], value, source, context)
  {
  }

  /** A registration is refused for a canonical name without the immutable flag; otherwise the name has a new weight with
      an empty history, whose baseline is the value unless one is given. A new name goes last, a known one keeps its
      place, and no other weight is touched. */
  lemma RegisterInPlainTerms(m: MatrixState, name: string, value: real, baseline: Option<real>, isImmutable: bool,
                             threshold: real)
    ensures var r := AfterRegister(m, name, value, baseline, isImmutable, threshold);
            if IsCanonical(name) && !isImmutable then r == Err(ImmutableWeightViolation)
            else
              && r.Ok?
              && r.value.order == (if name in m.weights then m.order else m.order + [name])
              && r.value.weights == m.weights[name := WeightState(value, match baseline case Some(b) => b case None => value,
                                                                  isImmutable, threshold, [])]
  {
  }

  lemma KeepsFixturesTransitive(a: MatrixState, b: MatrixState, c: MatrixState)
    requires KeepsFixtures(a, b) && KeepsFixtures(b, c)
    ensures KeepsFixtures(a, c)
  {
    forall n | n in a.weights
      ensures SameFixture(a.weights[n], c.weights[n])
    {
      assert SameFixture(a.weights[n], b.weights[n]) && SameFixture(b.weights[n], c.weights[n]);
    }
  }

  // ---------------------------------------------------------------------------
  // Thresholds
  // ---------------------------------------------------------------------------

  datatype Strategy =
    | Fixed(threshold: real)
    | Adaptive(sensitivity: real, emaAlpha: real, floor: real, emaAbsError: real)
  {
    function Current(): real {
      match this
      case Fixed(threshold) => threshold
      case Adaptive(sensitivity, _, floor, ema) => Max(floor, Times(sensitivity, ema))
    }

    predicate IsCritical(error: real) {
      Abs(error) > Current()
    }

    function Observe(error: real): Strategy {
      match this
      case Fixed(_) => this
      case Adaptive(_, alpha, _, ema) => this.(emaAbsError := Times(alpha, Abs(error)) + Times(1.0 - alpha, ema))
    }
  }

  /** The share of the old estimate left after `k` observations. */
  function Remaining(alpha: real, k: nat): real {
    if k == 0 then 1.0 else Times(1.0 - alpha, Remaining(alpha, k - 1))
  }

  function ObserveTimes(strategy: Strategy, error: real, k: nat): Strategy {
    if k == 0 then strategy else ObserveTimes(strategy, error, k - 1).Observe(error)
  }

  /** The adaptive threshold never falls below its floor, and under a steady error its estimate closes on the
      error's size geometrically, from wherever it started. */
  lemma {:induction false} SteadyErrorIsLearned(strategy: Strategy, error: real, k: nat)
    requires strategy.Adaptive?
    ensures var after := ObserveTimes(strategy, error, k);
            && after.Adaptive? && after.emaAlpha == strategy.emaAlpha
            && after.sensitivity == strategy.sensitivity && after.floor == strategy.floor
            && after.Current() >= strategy.floor
            && after.emaAbsError - Abs(error) ==
               Times(Remaining(strategy.emaAlpha, k), strategy.emaAbsError - Abs(error))
  {
    if k > 0 {
      SteadyErrorIsLearned(strategy, error, k - 1);
      var before := ObserveTimes(strategy, error, k - 1);
      var alpha, gap := strategy.emaAlpha, strategy.emaAbsError - Abs(error);
      Closing(alpha, Abs(error), before.emaAbsError);
      TimesAssociates(1.0 - alpha, Remaining(alpha, k - 1), gap);
    }
  }

  lemma Closing(alpha: real, target: real, estimate: real)
    ensures Times(alpha, target) + Times(1.0 - alpha, estimate) - target == Times(1.0 - alpha, estimate - target)
  {
  }

  lemma TimesAssociates(a: real, b: real, c: real)
    ensures Times(a, Times(b, c)) == Times(Times(a, b), c)
  {
  }

  // ---------------------------------------------------------------------------
  // The objects
  // ---------------------------------------------------------------------------

  class Weight {
    const name: string
    const baseline: real
    const isImmutable: bool
    const varianceThreshold: real
    var value: real
    var history: seq<HistoryEntry>

    function View(): WeightState
      reads this
    {
      WeightState(value, baseline, isImmutable, varianceThreshold, history)
    }

    constructor (name: string, value: real, baseline: real, isImmutable: bool, varianceThreshold: real)
      ensures this.name == name
      ensures View() == WeightState(value, baseline, isImmutable, varianceThreshold, [])
    {
      this.name, this.baseline, this.isImmutable := name, baseline, isImmutable;
      this.varianceThreshold, this.value, this.history := varianceThreshold, value, [];
    }

    method Touch(newValue: real, source: string, context: Option<string>) returns (failure: Option<Failure>)
      modifies this
      ensures Reflects(AfterTouch(old(View()), newValue, source, context), failure, old(View()), View())
    {
      if isImmutable && newValue != value {
        return Some(ImmutableWeightViolation);
      }
      history := Recorded(history, HistoryEntry(value, newValue, source, context));
      value := newValue;
      return None;
    }
  }

  class CriticalityMatrix {
    var order: seq<string>
    var weights: map<string, Weight>

    ghost predicate Valid()
      reads this
    {
      && (forall n :: n in order <==> n in weights)
      && (forall i, j :: 0 <= i < j < |order| ==> order[i] != order[j])
      && (forall n :: n in weights ==> weights[n].name == n)
    }

    ghost function View(): MatrixState
      reads this, weights.Values
    {
      MatrixState(order, Views(weights))
    }

    static ghost function Views(weights: map<string, Weight>): map<string, WeightState>
      reads weights.Values
    {
      map n | n in weights :: weights[n].View()
    }

    static lemma ViewsWith(weights: map<string, Weight>, name: string, w: Weight)
      ensures Views(weights[name := w]) == Views(weights)[name := w.View()]
    {
    }

    constructor ()
      ensures Valid() && View() == EMPTY_MATRIX && weights == map[]
    {
      order, weights := [], map[];
    }

    method Register(name: string, value: real, baseline: Option<real>, isImmutable: bool, varianceThreshold: real)
      returns (failure: Option<Failure>)
      requires Valid()
      modifies this
      ensures Valid()
      ensures failure == None ==> name in weights && fresh(weights[name]) && weights == old(weights)[name := weights[name]]
      ensures failure.Some? ==> weights == old(weights)
      ensures Reflects(AfterRegister(old(View()), name, value, baseline, isImmutable, varianceThreshold),
                       failure, old(View()), View())
    {
      if name in W0_INVARIANT_NAMES && !isImmutable {
        return Some(ImmutableWeightViolation);
      }
      var w := new Weight(name, value, if baseline.Some? then baseline.value else value, isImmutable, varianceThreshold);
      ghost var before := View();
      assert before == old(View());
      ViewsWith(weights, name, w);
      Place(name, w);
      assert View().weights == before.weights[name := w.View()];
      return None;
    }

    method Place(name: string, w: Weight)
      requires Valid() && w.name == name
      modifies this
      ensures Valid() && weights == old(weights)[name := w]
      ensures order == if name in old(weights) then old(order) else old(order) + [name]
    {
      if name !in weights {
        order := order + [name];
      }
      weights := weights[name := w];
    }

    method Update(name: string, newValue: real, source: string, context: Option<string>) returns (failure: Option<Failure>)
      requires Valid()
      modifies weights.Values
      ensures Valid() && weights == old(weights)
      ensures Reflects(AfterUpdate(old(View()), name, newValue, source, context), failure, old(View()), View())
    {
      if name !in weights {
        return Some(KeyError);
      }
      var w := weights[name];
      if name in W0_INVARIANT_NAMES || w.isImmutable {
        return Some(ImmutableWeightViolation);
      }
      ghost var before := View();
      failure := w.Touch(newValue, source, context);
      assert forall n :: n in weights && n != name ==> weights[n] != w;
      assert View() == before.(weights := before.weights[name := w.View()]);
    }
  }

  class Model {
    const matrix: CriticalityMatrix
    var state: real

    constructor (matrix: CriticalityMatrix)
      ensures this.matrix == matrix && state == 0.0
    {
      this.matrix, state := matrix, 0.0;
    }

    method Observe(actual: real) returns (failure: Option<Failure>)
      requires matrix.Valid()
      modifies this`state
      ensures failure == if ADAPTABILITY in matrix.weights then None else Some(KeyError)
      ensures state == if failure.Some? then old(state)
                       else Moved(old(state), matrix.weights[ADAPTABILITY].value, actual)
    {
      if ADAPTABILITY !in matrix.weights {
        return Some(KeyError);
      }
      var alpha := matrix.weights[ADAPTABILITY].value;
      state := Moved(state, alpha, actual);
      return None;
    }
  }

  function Moved(state: real, alpha: real, actual: real): real {
    state + Times(alpha, actual - state)
  }

  function MovedTimes(state: real, alpha: real, actual: real, k: nat): real {
    if k == 0 then state else Moved(MovedTimes(state, alpha, actual, k - 1), alpha, actual)
  }

  /** Under a steady signal the model's distance from it shrinks by the same factor at every observation. */
  lemma {:induction false} SteadySignalIsTracked(state: real, alpha: real, actual: real, k: nat)
    ensures MovedTimes(state, alpha, actual, k) - actual == Times(Remaining(alpha, k), state - actual)
  {
    if k > 0 {
      SteadySignalIsTracked(state, alpha, actual, k - 1);
      var before := MovedTimes(state, alpha, actual, k - 1);
      Approaching(before, alpha, actual);
      TimesAssociates(1.0 - alpha, Remaining(alpha, k - 1), state - actual);
    }
  }

  lemma Approaching(state: real, alpha: real, actual: real)
    ensures Moved(state, alpha, actual) - actual == Times(1.0 - alpha, state - actual)
  {
  }

  /** With a gain between 0 and 1, the model stays between where it was and what it saw. */
  lemma MovedStaysBetween(state: real, alpha: real, actual: real)
    requires 0.0 <= alpha <= 1.0
    ensures Min(state, actual) <= Moved(state, alpha, actual) <= Max(state, actual)
  {
    var d := actual - state;
    TimesSign(alpha, Abs(d));
    TimesSign(1.0 - alpha, Abs(d));
    assert Times(1.0 - alpha, Abs(d)) == Abs(d) - Times(alpha, Abs(d));
    assert Times(alpha, -d) == -Times(alpha, d);
  }
}
