/** The detector of weight poisoning (erythrocyte.py): provenance, variance, and the scan of the matrix. */
module Erythrocyte {
  import opened Prelude
  import opened TraceGap
  import opened CoreEngine

  const UPDATE_LOOP := "update_loop"
  const CORRECTION := "erythrocyte_correction"
  const LEGITIMATE_SOURCES: set<string> := {UPDATE_LOOP, CORRECTION}

  const MIN_SAMPLES := 5
  const PROVENANCE_FLOOR := 0.7

  function SourceOf(e: HistoryEntry): string {
    e.source
  }

  function ContextOf(e: HistoryEntry): Option<string> {
    e.context
  }

  const READING: Reading<HistoryEntry, string> := Reading(SourceOf, ContextOf)

  function ProvenanceRatio(w: WeightState): real {
    Measure(w.history, LEGITIMATE_SOURCES, READING).ratio
  }

  function ObservedContexts(w: WeightState): set<string> {
    Measure(w.history, LEGITIMATE_SOURCES, READING).fingerprints
  }

  /** The observed contexts are exactly the non-empty contexts of writes the system did not make itself. */
  lemma ContextsAreUntraced(w: WeightState, context: string)
    ensures context in ObservedContexts(w) <==>
            context != "" && exists e :: e in w.history && e.source !in LEGITIMATE_SOURCES && e.context == Some(context)
  {
    if e :| e in w.history && e.source !in LEGITIMATE_SOURCES && e.context == Some(context) {
      if context != "" {
        assert LeavesPrint(e, LEGITIMATE_SOURCES, READING) && READING.context(e) == Some(context);
      }
    }
  }

  // ---------------------------------------------------------------------------
  // Variance
  // ---------------------------------------------------------------------------

  function Sum(values: seq<real>): real {
    if values == [] then 0.0 else Sum(values[..|values| - 1]) + values[|values| - 1]
  }

  function Square(x: real): real {
    Times(x, x)
  }

  /** The sum of the squared distances from `c`. */
  function Scatter(values: seq<real>, c: real): real {
    if values == [] then 0.0 else Scatter(values[..|values| - 1], c) + Square(values[|values| - 1] - c)
  }

  function Mean(values: seq<real>): real
    requires values != []
  {
    Sum(values) / |values| as real
  }

  function Variance(values: seq<real>): real {
    if |values| < 2 then 0.0 else Scatter(values, Mean(values)) / (|values| - 1) as real
  }

  ghost predicate Within(values: seq<real>, lo: real, hi: real) {
    forall i :: 0 <= i < |values| ==> lo <= values[i] <= hi
  }

  lemma WithinSplit(values: seq<real>, lo: real, hi: real)
    requires values != []
    ensures Within(values, lo, hi) <==>
            Within(values[..|values| - 1], lo, hi) && lo <= values[|values| - 1] <= hi
  {
    assert values == values[..|values| - 1] + [values[|values| - 1]];
  }

  lemma SquareSign(x: real)
    ensures Square(x) >= 0.0 && (Square(x) == 0.0 <==> x == 0.0)
  {
    TimesSign(Abs(x), Abs(x));
    assert Square(-x) == Square(x);
  }

  lemma {:induction false} ScatterSign(values: seq<real>, c: real)
    ensures Scatter(values, c) >= 0.0
    ensures Scatter(values, c) == 0.0 <==> Within(values, c, c)
  {
    if values != [] {
      var init, last := values[..|values| - 1], values[|values| - 1];
      WithinSplit(values, c, c);
      ScatterSign(init, c);
      SquareSign(last - c);
    }
  }

  lemma SquareOfDifference(x: real, c: real)
    ensures Square(x - c) == Square(x) - 2.0 * Times(c, x) + Square(c)
  {
  }

  function Parabola(zero: real, s: real, n: real, c: real): real {
    zero - 2.0 * Times(c, s) + Times(n, Square(c))
  }

  lemma {:induction false} ScatterExpands(values: seq<real>, c: real)
    ensures Scatter(values, c) == Parabola(Scatter(values, 0.0), Sum(values), |values| as real, c)
  {
    if values != [] {
      var init, last := values[..|values| - 1], values[|values| - 1];
      ScatterExpands(init, c);
      ParabolaGrows(Scatter(init, 0.0), Sum(init), |init| as real, c, last);
      assert |values| as real == |init| as real + 1.0;
      assert Scatter(values, 0.0) == Scatter(init, 0.0) + Square(last);
    }
  }

  lemma ParabolaGrows(zero: real, s: real, n: real, c: real, last: real)
    ensures Parabola(zero + Square(last), s + last, n + 1.0, c) == Parabola(zero, s, n, c) + Square(last - c)
  {
    SquareOfDifference(last, c);
    assert Times(c, s + last) == Times(c, s) + Times(c, last);
    AddOneTimes(n, Square(c));
  }

  lemma LeastAtMean(n: real, m: real, c: real, s: real, zero: real)
    requires Times(m, n) == s && n >= 0.0
    ensures Parabola(zero, s, n, m) <= Parabola(zero, s, n, c)
  {
    assert Times(c, s) == Times(n, Times(m, c));
    assert Times(m, s) == Times(n, Square(m));
    SquareOfDifference(c, m);
    var p, q, r := Times(m, c), Square(c), Square(m);
    assert Times(n, q - 2.0 * p + r) == Times(n, q) - 2.0 * Times(n, p) + Times(n, r);
    SquareSign(c - m);
    TimesSign(n, Square(c - m));
  }

  lemma MeanTimes(values: seq<real>)
    requires values != []
    ensures Times(Mean(values), |values| as real) == Sum(values)
  {
  }

  /** The mean is the point with the least scatter. */
  lemma MeanMinimizes(values: seq<real>, c: real)
    requires values != []
    ensures Scatter(values, Mean(values)) <= Scatter(values, c)
  {
    ScatterExpands(values, c);
    ScatterExpands(values, Mean(values));
    MeanTimes(values);
    LeastAtMean(|values| as real, Mean(values), c, Sum(values), Scatter(values, 0.0));
  }

  lemma SquareMonotone(x: real, b: real)
    requires -b <= x <= b
    ensures Square(x) <= Square(b)
  {
    TimesSign(b - x, b + x);
    assert Times(b - x, b + x) == Square(b) - Square(x);
  }

  lemma {:induction false} ScatterBound(values: seq<real>, c: real, b: real)
    requires Within(values, c - b, c + b)
    ensures Scatter(values, c) <= Times(|values| as real, Square(b))
  {
    if values != [] {
      var init, last := values[..|values| - 1], values[|values| - 1];
      WithinSplit(values, c - b, c + b);
      ScatterBound(init, c, b);
      SquareMonotone(last - c, b);
      AddOneTimes(|init| as real, Square(b));
      assert |values| as real == |init| as real + 1.0;
    }
  }

  /** Never negative, and zero exactly when nothing varies. */
  lemma VarianceSign(values: seq<real>)
    ensures Variance(values) >= 0.0
    ensures Variance(values) == 0.0 <==> forall i, j :: 0 <= i < j < |values| ==> values[i] == values[j]
  {
    if |values| < 2 {
    } else {
      var d := (|values| - 1) as real;
      var m := Mean(values);
      ScatterSign(values, m);
      QuotientAtLeast(Scatter(values, m), d, 0.0);
      QuotientAtMost(Scatter(values, m), d, 0.0);
      if forall i, j :: 0 <= i < j < |values| ==> values[i] == values[j] {
        ScatterSign(values, values[0]);
        assert Within(values, values[0], values[0]);
        MeanMinimizes(values, values[0]);
      }
    }
  }

  lemma VarianceTimes(values: seq<real>)
    requires |values| >= 2
    ensures Times(Variance(values), (|values| - 1) as real) == Scatter(values, Mean(values))
  {
  }

  /** Popoviciu's bound for the sample variance of values in a band of width `w`. */
  lemma VarianceBound(values: seq<real>, lo: real, w: real)
    requires |values| >= 2 && w >= 0.0 && Within(values, lo, lo + w)
    ensures 4.0 * Times(Variance(values), (|values| - 1) as real) <= Times(|values| as real, Square(w))
  {
    var half := w / 2.0;
    ScatterBound(values, lo + half, half);
    MeanMinimizes(values, lo + half);
    Quarters(|values| as real, w);
    VarianceTimes(values);
  }

  lemma Quarters(n: real, w: real)
    ensures 4.0 * Times(n, Square(w / 2.0)) == Times(n, Square(w))
  {
    assert 4.0 * Square(w / 2.0) == Square(w);
    assert 4.0 * Times(n, Square(w / 2.0)) == Times(n, 4.0 * Square(w / 2.0));
  }

  /** With enough samples for a scan, values in a narrow band never exceed the threshold. */
  lemma NarrowBandIsSteady(values: seq<real>, lo: real, w: real, threshold: real)
    requires |values| >= MIN_SAMPLES && w >= 0.0 && Within(values, lo, lo + w)
    requires 5.0 * Square(w) <= 16.0 * threshold
    ensures Variance(values) <= threshold
  {
    VarianceBound(values, lo, w);
    SquareSign(w);
    FallingFactor(|values| as real, Square(w));
    CancelFactor(Variance(values), 0.3125 * Square(w), (|values| - 1) as real);
  }

  /** `n / (4 (n - 1))` falls with `n` and is 5/16 at `n == 5`. */
  lemma FallingFactor(n: real, q: real)
    requires n >= 5.0 && q >= 0.0
    ensures Times(n, q) <= 4.0 * Times(0.3125 * q, n - 1.0)
  {
    TimesSign(n - 5.0, q);
    assert Times(n - 5.0, q) == Times(n, q) - 5.0 * q;
    assert Times(0.3125 * q, n - 1.0) == 0.3125 * Times(n, q) - 0.3125 * q;
  }

  // ---------------------------------------------------------------------------
  // The scan
  // ---------------------------------------------------------------------------

  datatype Distortion = Static | Oscillating

  datatype Finding = Finding(weight: string, distortion: Distortion, provenanceRatio: real, offset: real,
                             variance: real, thresholdUsed: real, observedContexts: set<string>)

  function NewValues(history: seq<HistoryEntry>): (values: seq<real>)
    ensures |values| == |history| && forall i :: 0 <= i < |history| ==> values[i] == history[i].newValue
  {
    seq(|history|, i requires 0 <= i < |history| => history[i].newValue)
  }

  function HistoryVariance(w: WeightState): real {
    Variance(NewValues(w.history))
  }

  predicate Suspicious(w: WeightState) {
    && |w.history| >= MIN_SAMPLES
    && Abs(w.value - w.baseline) > 0.0
    && ProvenanceRatio(w) < PROVENANCE_FLOOR
  }

  function Classify(w: WeightState): Distortion {
    if HistoryVariance(w) > w.varianceThreshold then Oscillating else Static
  }

  function FindingOn(name: string, w: WeightState): Finding {
    Finding(name, Classify(w), ProvenanceRatio(w), Abs(w.value - w.baseline), HistoryVariance(w),
            w.varianceThreshold, ObservedContexts(w))
  }

  function ScanNames(m: MatrixState, names: seq<string>): (findings: seq<Finding>)
    requires forall n :: n in names ==> n in m.weights
  {
    if names == [] then []
    else
      var name := names[|names| - 1];
      ScanNames(m, names[..|names| - 1])
      + if Suspicious(m.weights[name]) then [FindingOn(name, m.weights[name])] else []
  }

  /** The findings: one for each suspicious weight, nothing else, in registration order and without repetition. */
  lemma {:induction false} ScanIsExact(m: MatrixState, names: seq<string>)
    requires forall n :: n in names ==> n in m.weights
    requires forall i, j :: 0 <= i < j < |names| ==> names[i] != names[j]
    ensures var findings := ScanNames(m, names);
            && (forall n :: n in names && Suspicious(m.weights[n]) ==> FindingOn(n, m.weights[n]) in findings)
            && (forall f :: f in findings ==> f.weight in names && Suspicious(m.weights[f.weight])
                                              && f == FindingOn(f.weight, m.weights[f.weight]))
            && (forall i, j :: 0 <= i < j < |findings| ==> findings[i].weight != findings[j].weight)
  {
    if names != [] {
      var init, name := names[..|names| - 1], names[|names| - 1];
      assert names == init + [name];
      ScanIsExact(m, init);
      assert name !in init;
      var rest, findings := ScanNames(m, init), ScanNames(m, names);
      if Suspicious(m.weights[name]) {
        assert findings == rest + [FindingOn(name, m.weights[name])];
        assert forall f :: f in rest ==> f.weight != name;
      } else {
        assert findings == rest;
      }
    }
  }

  /** Findings come in the order of the names. */
  lemma {:induction false} ScanInOrder(m: MatrixState, a: seq<string>, b: seq<string>)
    requires forall n :: n in a + b ==> n in m.weights
    ensures (forall n :: n in a || n in b ==> n in m.weights)
            && ScanNames(m, a + b) == ScanNames(m, a) + ScanNames(m, b)
  {
    forall n | n in a || n in b
      ensures n in a + b
    {
    }
    if b == [] {
      assert a + b == a;
    } else {
      var init, last := b[..|b| - 1], b[|b| - 1];
      assert (a + b)[..|a + b| - 1] == a + init;
      ScanInOrder(m, a, init);
    }
  }

  lemma ScanStep(m: MatrixState, names: seq<string>, i: nat)
    requires i < |names| && forall n :: n in names ==> n in m.weights
    ensures ScanNames(m, names[..i + 1]) ==
            ScanNames(m, names[..i])
            + if Suspicious(m.weights[names[i]]) then [FindingOn(names[i], m.weights[names[i]])] else []
  {
    assert names[..i + 1][..i] == names[..i];
  }

  // ---------------------------------------------------------------------------
  // A finding in plain terms
  // ---------------------------------------------------------------------------

  /** How many writes are the system's own. */
  function OwnWrites(history: seq<HistoryEntry>): nat {
    if history == [] then 0
    else
      var source := history[|history| - 1].source;
      OwnWrites(history[..|history| - 1]) + if source == "update_loop" || source == "erythrocyte_correction" then 1 else 0
  }

  /** The sum of the values written, and of their squares. */
  function Total(history: seq<HistoryEntry>): real {
    if history == [] then 0.0 else Total(history[..|history| - 1]) + history[|history| - 1].newValue
  }

  function Squares(history: seq<HistoryEntry>): real {
    if history == [] then 0.0
    else
      var x := history[|history| - 1].newValue;
      Squares(history[..|history| - 1]) + Times(x, x)
  }

  /** `n (n - 1)` times the sample variance of `n` values. */
  function Spread(history: seq<HistoryEntry>): real {
    Times(|history| as real, Squares(history)) - Times(Total(history), Total(history))
  }

  function Pairs(n: nat): real {
    Times(n as real, n as real - 1.0)
  }

  /** An entry from outside that carries the context. */
  ghost predicate Brings(e: HistoryEntry, context: string) {
    e.source != "update_loop" && e.source != "erythrocyte_correction" && e.context == Some(context)
  }

  /** A finding is reported from five writes on, off the baseline, when fewer than seven in ten writes are the system's
      own; it is oscillating exactly when the values written vary by more than the weight's threshold. */
  ghost predicate Reports(name: string, w: WeightState, anomaly: Option<Finding>) {
    var n, k := |w.history|, Pairs(|w.history|);
    && (anomaly.Some? <==> n >= 5 && w.value != w.baseline && 10 * OwnWrites(w.history) < 7 * n)
    && (anomaly.Some? ==>
          var f := anomaly.value;
          && f.weight == name && f.thresholdUsed == w.varianceThreshold
          && (f.distortion == Oscillating <==> Spread(w.history) > Times(w.varianceThreshold, k))
          && Times(f.variance, k) == Spread(w.history)
          && Times(f.provenanceRatio, n as real) == OwnWrites(w.history) as real
          && (f.offset == w.value - w.baseline || f.offset == w.baseline - w.value) && f.offset > 0.0
          && forall c :: c in f.observedContexts <==> c != "" && exists e :: e in w.history && Brings(e, c))
  }

  lemma {:induction false} OwnWritesAreAccounted(history: seq<HistoryEntry>)
    ensures CountAccounted(history, LEGITIMATE_SOURCES, READING) == OwnWrites(history)
  {
    if history != [] {
      OwnWritesAreAccounted(history[..|history| - 1]);
    }
  }

  lemma {:induction false} SumsOf(history: seq<HistoryEntry>)
    ensures Sum(NewValues(history)) == Total(history)
    ensures Scatter(NewValues(history), 0.0) == Squares(history)
  {
    if history != [] {
      var init := history[..|history| - 1];
      SumsOf(init);
      assert NewValues(history)[..|history| - 1] == NewValues(init);
    }
  }

  /** The textbook form of the sample variance, free of the mean. */
  lemma VarianceInSums(history: seq<HistoryEntry>)
    requires |history| >= 2
    ensures Times(Variance(NewValues(history)), Pairs(|history|)) == Spread(history)
  {
    var values := NewValues(history);
    SumsOf(history);
    MeanTimes(values);
    ScatterExpands(values, Mean(values));
    VarianceTimes(values);
    ParabolaAtMean(|history| as real, Mean(values), Total(history), Squares(history), Variance(values));
  }

  lemma ParabolaAtMean(n: real, m: real, total: real, squares: real, v: real)
    requires Times(m, n) == total && Times(v, n - 1.0) == Parabola(squares, total, n, m)
    ensures Times(v, Times(n, n - 1.0)) == Times(n, squares) - Times(total, total)
  {
    assert Times(n, Square(m)) == Times(m, total);
    assert Times(v, Times(n, n - 1.0)) == Times(n, squares - Times(m, total));
    assert Times(n, Times(m, total)) == Times(total, total);
    assert Times(n, squares - Times(m, total)) == Times(n, squares) - Times(n, Times(m, total));
  }

  /** What the model's findings say, in plain terms. */
  lemma FindingInPlainTerms(name: string, w: WeightState)
    ensures Reports(name, w, if Suspicious(w) then Some(FindingOn(name, w)) else None)
  {
    SuspicionInWholeNumbers(w);
    OwnWritesAreAccounted(w.history);
    if |w.history| >= 5 {
      VarianceInSums(w.history);
      TimesSign(|w.history| as real, |w.history| as real - 1.0);
      ScaledOrder(HistoryVariance(w), w.varianceThreshold, Pairs(|w.history|));
      RatioTimes(OwnWrites(w.history), |w.history|);
      ContextsInPlainTerms(w);
    }
  }

  lemma RatioTimes(accounted: nat, total: nat)
    requires total > 0
    ensures Times(RatioOf(accounted, total), total as real) == accounted as real
  {
  }

  lemma ContextsInPlainTerms(w: WeightState)
    ensures forall c :: c in ObservedContexts(w) <==> c != "" && exists e :: e in w.history && Brings(e, c)
  {
    forall c
      ensures c in ObservedContexts(w) <==> c != "" && exists e :: e in w.history && Brings(e, c)
    {
      ContextsAreUntraced(w, c);
      if e :| e in w.history && Brings(e, c) {
        assert e.source !in LEGITIMATE_SOURCES;
      }
      if e :| e in w.history && e.source !in LEGITIMATE_SOURCES && e.context == Some(c) {
        assert Brings(e, c);
      }
    }
  }

  lemma ScaledOrder(x: real, y: real, k: real)
    requires k > 0.0
    ensures x > y <==> Times(x, k) > Times(y, k)
  {
    ProductSign(y - x, k);
    assert (y - x) * k == Times(y, k) - Times(x, k);
  }

  /** One pass of the scan's loop. */
  method ScanWeight(name: string, w: WeightState) returns (anomaly: Option<Finding>)
    ensures anomaly == if Suspicious(w) then Some(FindingOn(name, w)) else None
    ensures Reports(name, w, anomaly)
  {
    FindingInPlainTerms(name, w);
    if |w.history| < MIN_SAMPLES {
      return None;
    }
    var gap := MeasureGap(w.history, LEGITIMATE_SOURCES, READING);
    var offset := Abs(w.value - w.baseline);
    var variance := Variance(NewValues(w.history));
    if offset > 0.0 && gap.ratio < PROVENANCE_FLOOR {
      var distortion := if variance > w.varianceThreshold then Oscillating else Static;
      return Some(Finding(name, distortion, gap.ratio, offset, variance, w.varianceThreshold, gap.fingerprints));
    }
    return None;
  }

  method ScanMatrix(matrix: CriticalityMatrix) returns (anomalies: seq<Finding>)
    requires matrix.Valid()
    ensures anomalies == ScanNames(matrix.View(), matrix.order)
  {
    anomalies := [];
    ghost var m := matrix.View();
    for i := 0 to |matrix.order|
      invariant anomalies == ScanNames(m, matrix.order[..i])
    {
      ScanStep(m, matrix.order, i);
      var name := matrix.order[i];
      var anomaly := ScanWeight(name, matrix.weights[name].View());
      if anomaly.Some? {
        anomalies := anomalies + [anomaly.value];
      }
    }
    assert matrix.order[..|matrix.order|] == matrix.order;
  }

  // ---------------------------------------------------------------------------
  // What the scan cannot flag
  // ---------------------------------------------------------------------------

  /** The provenance test in whole numbers: fewer than seven in ten writes are the system's own. */
  lemma ProvenanceInWholeNumbers(w: WeightState)
    requires w.history != []
    ensures ProvenanceRatio(w) < PROVENANCE_FLOOR <==>
            10 * CountAccounted(w.history, LEGITIMATE_SOURCES, READING) < 7 * |w.history|
  {
    var n, t := CountAccounted(w.history, LEGITIMATE_SOURCES, READING), |w.history|;
    QuotientAtLeast(n as real, t as real, PROVENANCE_FLOOR);
    assert n as real >= 0.7 * t as real <==> 10 * n >= 7 * t;
  }

  /** The whole test in whole numbers: at least five writes, off the baseline, mostly untraced. */
  lemma SuspicionInWholeNumbers(w: WeightState)
    ensures Suspicious(w) <==>
            && |w.history| >= 5 && w.value != w.baseline
            && 10 * CountAccounted(w.history, {"update_loop", "erythrocyte_correction"}, READING) < 7 * |w.history|
  {
    if w.history != [] {
      ProvenanceInWholeNumbers(w);
    }
  }

  /** A weight written only by the system itself is never suspicious. */
  lemma OwnWritesAreTrusted(w: WeightState)
    requires forall e :: e in w.history ==> e.source in LEGITIMATE_SOURCES
    ensures !Suspicious(w) && ObservedContexts(w) == {}
  {
    ClosedGap(w.history, LEGITIMATE_SOURCES, READING);
    assert forall e :: e in w.history ==> IsAccounted(e, LEGITIMATE_SOURCES, READING);
  }

  /** An immutable weight has no variance to speak of: only a negative threshold could call it oscillating. */
  lemma ImmutableNeverOscillates(w: WeightState)
    requires w.isImmutable && Frozen(w)
    ensures HistoryVariance(w) == 0.0
    ensures Classify(w) == Oscillating <==> w.varianceThreshold < 0.0
  {
    VarianceSign(NewValues(w.history));
  }

  /** Nor does one whose recorded values stay in a band of width 0.4, under the default threshold of 0.05. */
  lemma NarrowWeightNeverOscillates(w: WeightState, lo: real)
    requires Suspicious(w) && w.varianceThreshold >= 0.05
    requires forall e :: e in w.history ==> lo <= e.newValue <= lo + 0.4
    ensures Classify(w) == Static
  {
    NarrowBandIsSteady(NewValues(w.history), lo, 0.4, w.varianceThreshold);
  }

  /** What an outside write leaves behind: its context is among the observed contexts at once, and remains so
      through the next nineteen writes, whoever makes them. */
  lemma ContextIsObserved(w: WeightState, written: Written, later: seq<Written>)
    requires |w.history| <= HISTORY_LIMIT && |later| < HISTORY_LIMIT
    requires written.source !in LEGITIMATE_SOURCES && written.context.Some? && written.context.value != ""
    ensures written.context.value in
              ObservedContexts(TouchedAll(Touched(w, written.value, written.source, written.context), later))
  {
    var touched := Touched(w, written.value, written.source, written.context);
    var entry := HistoryEntry(w.value, written.value, written.source, written.context);
    StaysInWindow(touched, entry, later);
    var end := TouchedAll(touched, later);
    assert entry in end.history;
    ContextsAreUntraced(end, written.context.value);
  }
}
