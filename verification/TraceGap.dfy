/** The cross-check shared by both tracks (trace_gap.py): how much of a witness a claim accounts for. */
module TraceGap {
  import opened Prelude

  /** A measurement, not a verdict. */
  datatype TraceGap = TraceGap(total: nat, accounted: nat, unaccounted: nat, ratio: real, fingerprints: set<string>)

  /** How events of a given kind are read. */
  datatype Reading<!E, !S> = Reading(source: E -> S, context: E -> Option<string>)

  predicate IsAccounted<E, S(==)>(e: E, sources: set<S>, reading: Reading<E, S>) {
    reading.source(e) in sources
  }

  /** A context leaves a fingerprint when it is there and not empty. */
  predicate LeavesPrint<E, S(==)>(e: E, sources: set<S>, reading: Reading<E, S>) {
    !IsAccounted(e, sources, reading) && reading.context(e).Some? && reading.context(e).value != ""
  }

  function CountAccounted<E, S(==)>(events: seq<E>, sources: set<S>, reading: Reading<E, S>): (n: nat)
    ensures n <= |events|
    ensures n == |events| <==> forall e :: e in events ==> IsAccounted(e, sources, reading)
  {
    if events == [] then 0
    else
      var init, last := events[..|events| - 1], events[|events| - 1];
      assert events == init + [last];
      CountAccounted(init, sources, reading) + if IsAccounted(last, sources, reading) then 1 else 0
  }

  function Prints<E, S(==)>(events: seq<E>, sources: set<S>, reading: Reading<E, S>): (prints: set<string>)
    ensures forall c :: c in prints <==>
      exists e :: e in events && LeavesPrint(e, sources, reading) && reading.context(e) == Some(c)
  {
    if events == [] then {}
    else
      var init, last := events[..|events| - 1], events[|events| - 1];
      assert events == init + [last];
      Prints(init, sources, reading) + if LeavesPrint(last, sources, reading) then {reading.context(last).value} else {}
  }

  function RatioOf(accounted: nat, total: nat): real {
    if total == 0 then 1.0 else accounted as real / total as real
  }

  /** What a cross-check of `events` against `sources` measures. */
  function Measure<E, S(==)>(events: seq<E>, sources: set<S>, reading: Reading<E, S>): TraceGap {
    var accounted := CountAccounted(events, sources, reading);
    TraceGap(|events|, accounted, |events| - accounted, RatioOf(accounted, |events|), Prints(events, sources, reading))
  }

  method MeasureGap<E, S(==)>(events: seq<E>, accountedSources: set<S>, reading: Reading<E, S>) returns (gap: TraceGap)
    ensures gap == Measure(events, accountedSources, reading)
  {
    var total := |events|;
    if total == 0 {
      return TraceGap(0, 0, 0, 1.0, {});
    }
    var accounted := 0;
    var fingerprints := {};
    for i := 0 to total
      invariant accounted == CountAccounted(events[..i], accountedSources, reading)
      invariant fingerprints == Prints(events[..i], accountedSources, reading)
    {
      assert events[..i + 1][..i] == events[..i];
      if reading.source(events[i]) in accountedSources {
        accounted := accounted + 1;
      } else {
        var context := reading.context(events[i]);
        if context.Some? && context.value != "" {
          fingerprints := fingerprints + {context.value};
        }
      }
    }
    assert events[..total] == events;
    return TraceGap(total, accounted, total - accounted, accounted as real / total as real, fingerprints);
  }

  /** The gap closes exactly when the claim covers every event, and then nothing leaves a fingerprint. */
  lemma ClosedGap<E, S>(events: seq<E>, sources: set<S>, reading: Reading<E, S>)
    ensures var gap := Measure(events, sources, reading);
            && 0.0 <= gap.ratio <= 1.0
            && (gap.unaccounted == 0 <==> forall e :: e in events ==> IsAccounted(e, sources, reading))
            && (gap.ratio == 1.0 <==> gap.unaccounted == 0)
            && (gap.unaccounted == 0 ==> gap.fingerprints == {})
  {
    var n := CountAccounted(events, sources, reading);
    if events != [] {
      QuotientAtLeast(n as real, |events| as real, 0.0);
      QuotientAtMost(n as real, |events| as real, 1.0);
      QuotientAtLeast(n as real, |events| as real, 1.0);
    }
  }

  /** The verdicts below rest on which events there are, not on their order or number. */
  lemma GapFollowsTheSet<E, S>(xs: seq<E>, ys: seq<E>, sources: set<S>, reading: Reading<E, S>)
    requires forall e :: e in xs <==> e in ys
    ensures Measure(xs, sources, reading).unaccounted == 0 <==> Measure(ys, sources, reading).unaccounted == 0
    ensures Measure(xs, sources, reading).fingerprints == Measure(ys, sources, reading).fingerprints
  {
    ClosedGap(xs, sources, reading);
    ClosedGap(ys, sources, reading);
    var p, q := Prints(xs, sources, reading), Prints(ys, sources, reading);
    assert forall c :: c in p <==> c in q;
  }

  /** A wider claim never accounts for less. */
  lemma {:induction false} WiderClaim<E, S>(events: seq<E>, sources: set<S>, wider: set<S>, reading: Reading<E, S>)
    requires sources <= wider
    ensures CountAccounted(events, sources, reading) <= CountAccounted(events, wider, reading)
    ensures Prints(events, wider, reading) <= Prints(events, sources, reading)
  {
    if events != [] {
      WiderClaim(events[..|events| - 1], sources, wider, reading);
    }
  }
}
