/** The client side of the relay connection (node_transport.py): the log buffer that survives a dropped
    connection, and the reconnect loop with exponential backoff. */
module NodeTransport {
  import opened Prelude

  datatype LogEntry = LogEntry(event: string, nodeId: string, targetWeight: string)

  // ---------------------------------------------------------------------------
  // The log buffer (lines 112-126), cut at the await inside a flush
  // ---------------------------------------------------------------------------

  /** `inFlight` holds the batches of the flushes that have taken the buffer and await their send. */
  datatype Logs = Logs(buffer: seq<LogEntry>, inFlight: seq<seq<LogEntry>>, sent: seq<LogEntry>)

  const NO_LOGS := Logs([], [], [])

  datatype LogStep =
    | Queue(entry: LogEntry)
    | Begin                // a flush takes the buffer and starts sending
    | Succeed(flush: nat)  // a send completes
    | Fail(flush: nat)     // a send finds the connection closed

  predicate LogEnabled(logs: Logs, step: LogStep) {
    match step
    case Queue(_) => true
    case Begin => logs.buffer != []
    case Succeed(i) => i < |logs.inFlight|
    case Fail(i) => i < |logs.inFlight|
  }

  function Drop<T>(xs: seq<T>, i: nat): seq<T>
    requires i < |xs|
  {
    xs[..i] + xs[i + 1..]
  }

  function LogApply(logs: Logs, step: LogStep): Logs
    requires LogEnabled(logs, step)
  {
    match step
    case Queue(entry) => logs.(buffer := logs.buffer + [entry])
    case Begin => logs.(buffer := [], inFlight := logs.inFlight + [logs.buffer])
    case Succeed(i) => logs.(inFlight := Drop(logs.inFlight, i), sent := logs.sent + logs.inFlight[i])
    case Fail(i) => logs.(inFlight := Drop(logs.inFlight, i), buffer := logs.inFlight[i] + logs.buffer)
  }

  ghost predicate LogRuns(logs: Logs, steps: seq<LogStep>)
    decreases |steps|
  {
    steps != [] ==> LogEnabled(logs, steps[0]) && LogRuns(LogApply(logs, steps[0]), steps[1..])
  }

  ghost function LogAfter(logs: Logs, steps: seq<LogStep>): Logs
    requires LogRuns(logs, steps)
    decreases |steps|
  {
    if steps == [] then logs else LogAfter(LogApply(logs, steps[0]), steps[1..])
  }

  /** Everything a run queues, in order. */
  function Queued(steps: seq<LogStep>): seq<LogEntry> {
    if steps == [] then []
    else (if steps[0].Queue? then [steps[0].entry] else []) + Queued(steps[1..])
  }

  /** A flush begins only when no other one is under way. */
  ghost predicate OneAtATime(logs: Logs, steps: seq<LogStep>)
    requires LogRuns(logs, steps)
    decreases |steps|
  {
    steps != [] ==>
      (steps[0].Begin? ==> logs.inFlight == []) && OneAtATime(LogApply(logs, steps[0]), steps[1..])
  }

  function Flatten(batches: seq<seq<LogEntry>>): seq<LogEntry> {
    if batches == [] then [] else batches[0] + Flatten(batches[1..])
  }

  /** All entries in the order in which a reader of the relay's file would wish to see them. */
  function Lineup(logs: Logs): seq<LogEntry> {
    logs.sent + Flatten(logs.inFlight) + logs.buffer
  }

  lemma {:induction false} FlattenConcat(xs: seq<seq<LogEntry>>, ys: seq<seq<LogEntry>>)
    ensures Flatten(xs + ys) == Flatten(xs) + Flatten(ys)
  {
    if xs == [] {
      assert xs + ys == ys;
    } else {
      assert (xs + ys)[1..] == xs[1..] + ys;
      FlattenConcat(xs[1..], ys);
    }
  }

  lemma FlattenOne(batch: seq<LogEntry>)
    ensures Flatten([batch]) == batch
  {
    assert [batch][1..] == [];
    assert batch + [] == batch;
  }

  lemma {:induction false} FlattenAt(xs: seq<seq<LogEntry>>, i: nat)
    requires i < |xs|
    ensures multiset(Flatten(xs)) == multiset(Flatten(Drop(xs, i))) + multiset(xs[i])
  {
    if i == 0 {
      assert Drop(xs, 0) == xs[1..];
    } else {
      FlattenAt(xs[1..], i - 1);
      FlattenRest(xs, Drop(xs, i), i);
      assert multiset(Flatten(xs)) == multiset(xs[0]) + multiset(Flatten(xs[1..]));
    }
  }

  lemma FlattenRest(xs: seq<seq<LogEntry>>, kept: seq<seq<LogEntry>>, i: nat)
    requires 0 < i < |xs| && kept == Drop(xs, i)
    ensures multiset(Flatten(kept)) == multiset(xs[0]) + multiset(Flatten(Drop(xs[1..], i - 1)))
  {
    assert kept[1..] == Drop(xs[1..], i - 1);
  }

  function Own(step: LogStep): seq<LogEntry> {
    if step.Queue? then [step.entry] else []
  }

  lemma StepConserves(logs: Logs, step: LogStep)
    requires LogEnabled(logs, step)
    ensures multiset(Lineup(LogApply(logs, step))) == multiset(Lineup(logs)) + multiset(Own(step))
  {
    match step
    case Queue(entry) =>
    case Begin =>
      FlattenConcat(logs.inFlight, [logs.buffer]);
      FlattenOne(logs.buffer);
    case Succeed(i) =>
      FlattenAt(logs.inFlight, i);
    case Fail(i) =>
      FlattenAt(logs.inFlight, i);
  }

  lemma {:induction false} RunConserves(logs: Logs, steps: seq<LogStep>)
    requires LogRuns(logs, steps)
    ensures multiset(Lineup(LogAfter(logs, steps))) == multiset(Lineup(logs)) + multiset(Queued(steps))
    decreases |steps|
  {
    if steps != [] {
      StepConserves(logs, steps[0]);
      RunConserves(LogApply(logs, steps[0]), steps[1..]);
      var own := if steps[0].Queue? then [steps[0].entry] else [];
      assert multiset(Queued(steps)) == multiset(own) + multiset(Queued(steps[1..]));
    }
  }

  /** No entry is ever lost or sent twice, however many flushes overlap and however each ends. */
  lemma NothingIsLost(steps: seq<LogStep>)
    requires LogRuns(NO_LOGS, steps)
    ensures multiset(Lineup(LogAfter(NO_LOGS, steps))) == multiset(Queued(steps))
  {
    RunConserves(NO_LOGS, steps);
    assert Lineup(NO_LOGS) == [];
  }

  /** The line-up only ever grows at its end. */
  predicate KeepsLineup(logs: Logs, step: LogStep)
    requires LogEnabled(logs, step)
  {
    Lineup(LogApply(logs, step)) == Lineup(logs) + Own(step)
  }

  /** Sends succeed oldest first and fail youngest first. */
  predicate InTurn(logs: Logs, step: LogStep) {
    && (step.Succeed? ==> step.flush == 0)
    && (step.Fail? ==> step.flush == |logs.inFlight| - 1)
  }

  predicate NoEmptyBatch(logs: Logs) {
    forall batch <- logs.inFlight :: batch != []
  }

  ghost predicate Distinct(entries: seq<LogEntry>) {
    forall e :: multiset(entries)[e] <= 1
  }

  lemma FlattenEnds(batches: seq<seq<LogEntry>>)
    requires batches != []
    ensures Flatten(batches) == batches[0] + Flatten(batches[1..])
    ensures Flatten(batches) == Flatten(batches[..|batches| - 1]) + batches[|batches| - 1]
  {
    var init, last := batches[..|batches| - 1], batches[|batches| - 1];
    assert batches == init + [last];
    FlattenConcat(init, [last]);
    FlattenOne(last);
  }

  lemma InTurnKeepsLineup(logs: Logs, step: LogStep)
    requires LogEnabled(logs, step) && InTurn(logs, step)
    ensures KeepsLineup(logs, step)
  {
    var flight := logs.inFlight;
    match step
    case Queue(entry) =>
      assert logs.sent + Flatten(flight) + (logs.buffer + [entry]) == Lineup(logs) + [entry];
    case Begin =>
      FlattenConcat(flight, [logs.buffer]);
      FlattenOne(logs.buffer);
      assert logs.sent + (Flatten(flight) + logs.buffer) + [] == Lineup(logs) + [];
    case Succeed(i) =>
      OldestSucceeds(logs);
    case Fail(i) =>
      YoungestFails(logs);
  }

  lemma OldestSucceeds(logs: Logs)
    requires logs.inFlight != []
    ensures KeepsLineup(logs, Succeed(0))
  {
    var flight := logs.inFlight;
    FlattenEnds(flight);
    assert Drop(flight, 0) == flight[1..];
    assert (logs.sent + flight[0]) + Flatten(flight[1..]) == logs.sent + (flight[0] + Flatten(flight[1..]));
    assert Lineup(logs) + [] == Lineup(logs);
  }

  lemma YoungestFails(logs: Logs)
    requires logs.inFlight != []
    ensures KeepsLineup(logs, Fail(|logs.inFlight| - 1))
  {
    var flight, i := logs.inFlight, |logs.inFlight| - 1;
    FlattenEnds(flight);
    assert Drop(flight, i) == flight[..i];
    assert logs.sent + Flatten(flight[..i]) + (flight[i] + logs.buffer)
        == logs.sent + (Flatten(flight[..i]) + flight[i]) + logs.buffer;
    assert Lineup(logs) + [] == Lineup(logs);
  }

  /** In a sequence without repetitions an entry has one place. */
  lemma OnePlace(entries: seq<LogEntry>, i: nat, j: nat)
    requires Distinct(entries) && i < j < |entries|
    ensures entries[i] != entries[j]
  {
    var front, back := entries[..j], entries[j..];
    assert entries == front + back && front[i] == entries[i] && back[0] == entries[j];
    assert multiset(front)[entries[i]] >= 1 && multiset(back)[entries[j]] >= 1;
    assert multiset(entries)[entries[i]] == multiset(front)[entries[i]] + multiset(back)[entries[i]];
  }

  lemma OutOfTurnSuccess(logs: Logs, i: nat)
    requires 0 < i < |logs.inFlight| && NoEmptyBatch(logs) && Distinct(Lineup(logs))
    ensures !KeepsLineup(logs, Succeed(i))
  {
    var flight, n := logs.inFlight, |logs.sent|;
    var after := LogApply(logs, Succeed(i));
    FlattenEnds(flight);
    assert flight[0] in flight && flight[i] in flight;
    assert Lineup(logs)[n] == flight[0][0];
    assert Lineup(after)[n] == flight[i][0];
    var at := PlaceOf(flight, i, 0);
    assert at > 0 && Lineup(logs)[n + at] == flight[i][0];
    OnePlace(Lineup(logs), n, n + at);
    assert Lineup(logs) + [] == Lineup(logs);
  }

  lemma DropSize(batches: seq<seq<LogEntry>>, i: nat)
    requires i < |batches|
    ensures |Flatten(Drop(batches, i))| + |batches[i]| == |Flatten(batches)|
  {
    FlattenAt(batches, i);
    assert |multiset(Flatten(batches))| == |multiset(Flatten(Drop(batches, i)))| + |multiset(batches[i])|;
  }

  /** What ends the flight before and after batch `i` is put back. */
  lemma EndOfFlight(logs: Logs, i: nat)
    requires i < |logs.inFlight| && NoEmptyBatch(logs)
    ensures var flight := logs.inFlight;
            var end, last := |logs.sent| + |Flatten(flight)| - 1, flight[|flight| - 1];
            && flight[i] != [] && last != []
            && 0 <= end < |Lineup(logs)| && end < |Lineup(LogApply(logs, Fail(i)))|
            && Lineup(logs)[end] == last[|last| - 1]
            && Lineup(LogApply(logs, Fail(i)))[end] == flight[i][|flight[i]| - 1]
  {
    var flight := logs.inFlight;
    assert flight[i] in flight && flight[|flight| - 1] in flight;
    FlattenEnds(flight);
    DropSize(flight, i);
  }

  lemma OutOfTurnFailure(logs: Logs, i: nat)
    requires i < |logs.inFlight| - 1 && NoEmptyBatch(logs) && Distinct(Lineup(logs))
    ensures !KeepsLineup(logs, Fail(i))
  {
    var flight := logs.inFlight;
    EndOfFlight(logs, i);
    FlattenEnds(flight);
    var at := PlaceOf(flight, i, |flight[i]| - 1);
    OnePlace(Lineup(logs), |logs.sent| + at, |logs.sent| + |Flatten(flight)| - 1);
    assert Lineup(logs) + [] == Lineup(logs);
  }

  /** Where entry `k` of batch `i` stands among all. */
  lemma {:induction false} PlaceOf(batches: seq<seq<LogEntry>>, i: nat, k: nat) returns (at: nat)
    requires i < |batches| && k < |batches[i]|
    ensures at < |Flatten(batches)| && Flatten(batches)[at] == batches[i][k]
    ensures i > 0 && batches[0] != [] ==> at > 0
    ensures i < |batches| - 1 ==> at < |Flatten(batches[..|batches| - 1])|
  {
    if i == 0 {
      at := k;
      if |batches| > 1 {
        assert batches[..|batches| - 1][0] == batches[0];
      }
    } else {
      at := PlaceOf(batches[1..], i - 1, k);
      assert batches[1..][..|batches| - 2] == batches[..|batches| - 1][1..];
      at := at + |batches[0]|;
    }
  }

  /** A step keeps the order of all entries if and only if it is in turn. */
  lemma StepKeepsLineupIff(logs: Logs, step: LogStep)
    requires LogEnabled(logs, step) && NoEmptyBatch(logs) && Distinct(Lineup(logs))
    ensures KeepsLineup(logs, step) <==> InTurn(logs, step)
  {
    if InTurn(logs, step) {
      InTurnKeepsLineup(logs, step);
    } else if step.Succeed? {
      OutOfTurnSuccess(logs, step.flush);
    } else {
      OutOfTurnFailure(logs, step.flush);
    }
  }

  ghost predicate AllInTurn(logs: Logs, steps: seq<LogStep>)
    requires LogRuns(logs, steps)
    decreases |steps|
  {
    steps != [] ==> InTurn(logs, steps[0]) && AllInTurn(LogApply(logs, steps[0]), steps[1..])
  }

  /** The line-up is at every moment what it was before plus what has been queued since. */
  ghost predicate AlwaysInOrder(logs: Logs, steps: seq<LogStep>)
    requires LogRuns(logs, steps)
    decreases |steps|
  {
    steps != [] ==> KeepsLineup(logs, steps[0]) && AlwaysInOrder(LogApply(logs, steps[0]), steps[1..])
  }

  /** Runs, with any overlap of flushes: nothing is ever out of order if and only if every send ends in turn. */
  lemma {:induction false} OrderIff(logs: Logs, steps: seq<LogStep>)
    requires LogRuns(logs, steps) && NoEmptyBatch(logs) && Distinct(Lineup(logs) + Queued(steps))
    ensures AlwaysInOrder(logs, steps) <==> AllInTurn(logs, steps)
    decreases |steps|
  {
    if steps != [] {
      DistinctNext(logs, steps[0], steps);
      StepKeepsLineupIff(logs, steps[0]);
      OrderIff(LogApply(logs, steps[0]), steps[1..]);
    }
  }

  lemma NoEmptyBatchNext(logs: Logs, step: LogStep)
    requires LogEnabled(logs, step) && NoEmptyBatch(logs)
    ensures NoEmptyBatch(LogApply(logs, step))
  {
    if step.Succeed? || step.Fail? {
      assert forall batch :: batch in Drop(logs.inFlight, step.flush) ==> batch in logs.inFlight;
    }
  }

  lemma DistinctNext(logs: Logs, step: LogStep, steps: seq<LogStep>)
    requires LogEnabled(logs, step) && NoEmptyBatch(logs)
    requires steps != [] && steps[0] == step && Distinct(Lineup(logs) + Queued(steps))
    ensures Distinct(Lineup(logs)) && NoEmptyBatch(LogApply(logs, step))
    ensures Distinct(Lineup(LogApply(logs, step)) + Queued(steps[1..]))
  {
    NoEmptyBatchNext(logs, step);
    StepConserves(logs, step);
    assert Queued(steps) == Own(step) + Queued(steps[1..]);
    DistinctPart(Lineup(logs), Queued(steps));
    DistinctMoved(Lineup(logs), Own(step), Queued(steps[1..]), Lineup(LogApply(logs, step)));
  }

  lemma DistinctMoved(xs: seq<LogEntry>, own: seq<LogEntry>, rest: seq<LogEntry>, ys: seq<LogEntry>)
    requires Distinct(xs + (own + rest)) && multiset(ys) == multiset(xs) + multiset(own)
    ensures Distinct(ys + rest)
  {
    assert multiset(xs + (own + rest)) == multiset(xs) + (multiset(own) + multiset(rest));
    assert multiset(ys + rest) == multiset(ys) + multiset(rest);
    assert multiset(ys + rest) == multiset(xs + (own + rest));
  }

  lemma DistinctPart(xs: seq<LogEntry>, ys: seq<LogEntry>)
    requires Distinct(xs + ys)
    ensures Distinct(xs)
  {
    assert multiset(xs + ys) == multiset(xs) + multiset(ys);
    forall e
      ensures multiset(xs)[e] <= 1
    {
      assert multiset(xs + ys)[e] == multiset(xs)[e] + multiset(ys)[e];
    }
  }

  lemma {:induction false} InTurnRunsKeepLineup(logs: Logs, steps: seq<LogStep>)
    requires LogRuns(logs, steps) && AllInTurn(logs, steps)
    ensures Lineup(LogAfter(logs, steps)) == Lineup(logs) + Queued(steps)
    decreases |steps|
  {
    if steps != [] {
      InTurnKeepsLineup(logs, steps[0]);
      InTurnRunsKeepLineup(LogApply(logs, steps[0]), steps[1..]);
    }
  }

  lemma {:induction false} OneAtATimeIsInTurn(logs: Logs, steps: seq<LogStep>)
    requires LogRuns(logs, steps) && OneAtATime(logs, steps) && |logs.inFlight| <= 1
    ensures AllInTurn(logs, steps)
    decreases |steps|
  {
    if steps != [] {
      OneAtATimeNext(logs, steps);
      OneAtATimeIsInTurn(LogApply(logs, steps[0]), steps[1..]);
    }
  }

  lemma {:induction false} OneAtATimeNext(logs: Logs, steps: seq<LogStep>)
    requires LogRuns(logs, steps) && OneAtATime(logs, steps) && |logs.inFlight| <= 1 && steps != []
    ensures var next := LogApply(logs, steps[0]);
            && |next.inFlight| <= 1 && LogRuns(next, steps[1..]) && OneAtATime(next, steps[1..])
            && (AllInTurn(next, steps[1..]) ==> AllInTurn(logs, steps))
  {
    StillOneAtATime(logs, steps[0]);
  }

  lemma StillOneAtATime(logs: Logs, step: LogStep)
    requires LogEnabled(logs, step) && |logs.inFlight| <= 1 && (step.Begin? ==> logs.inFlight == [])
    ensures |LogApply(logs, step).inFlight| <= 1 && InTurn(logs, step)
  {
  }

  /** With one flush at a time, what was sent, what is in flight and what is buffered line up, in order,
      to everything that was queued. */
  lemma OrderIsKept(steps: seq<LogStep>)
    requires LogRuns(NO_LOGS, steps) && OneAtATime(NO_LOGS, steps)
    ensures Lineup(LogAfter(NO_LOGS, steps)) == Queued(steps)
  {
    assert Lineup(NO_LOGS) == [];
    OneAtATimeIsInTurn(NO_LOGS, steps);
    InTurnRunsKeepLineup(NO_LOGS, steps);
  }

  /** Overlapping flushes can reorder: the younger batch may arrive first. */
  lemma OverlapReorders(a: LogEntry, b: LogEntry)
    requires a != b
    ensures var steps := [Queue(a), Begin, Queue(b), Begin, Succeed(1), Succeed(0)];
            LogRuns(NO_LOGS, steps) && LogAfter(NO_LOGS, steps).sent == [b, a] && Queued(steps) == [a, b]
  {
    var late := [Queue(b), Begin, Succeed(1), Succeed(0)];
    SecondFlush(a, b);
    RunFrom(Logs([a], [], []), Begin, Logs([], [[a]], []), late);
    RunFrom(NO_LOGS, Queue(a), Logs([a], [], []), [Begin] + late);
    assert [Queue(a)] + ([Begin] + late) == [Queue(a), Begin, Queue(b), Begin, Succeed(1), Succeed(0)];
  }

  lemma SecondFlush(a: LogEntry, b: LogEntry)
    ensures var one, late := Logs([], [[a]], []), [Queue(b), Begin, Succeed(1), Succeed(0)];
            LogRuns(one, late) && LogAfter(one, late) == Logs([], [], [b, a]) && Queued(late) == [b]
  {
    var ends := [Succeed(1), Succeed(0)];
    SendsOutOfOrder(a, b);
    RunFrom(Logs([b], [[a]], []), Begin, Logs([], [[a], [b]], []), ends);
    RunFrom(Logs([], [[a]], []), Queue(b), Logs([b], [[a]], []), [Begin] + ends);
    assert [Queue(b)] + ([Begin] + ends) == [Queue(b), Begin, Succeed(1), Succeed(0)];
  }

  lemma SendsOutOfOrder(a: LogEntry, b: LogEntry)
    ensures var both, ends := Logs([], [[a], [b]], []), [Succeed(1), Succeed(0)];
            LogRuns(both, ends) && LogAfter(both, ends) == Logs([], [], [b, a]) && Queued(ends) == []
  {
    assert Drop([[a], [b]], 1) == [[a]];
    assert Drop([[a]], 0) == [];
    RunFrom(Logs([], [[a]], [b]), Succeed(0), Logs([], [], [b, a]), []);
    RunFrom(Logs([], [[a], [b]], []), Succeed(1), Logs([], [[a]], [b]), [Succeed(0)]);
  }

  lemma RunFrom(logs: Logs, step: LogStep, next: Logs, rest: seq<LogStep>)
    requires LogEnabled(logs, step) && LogApply(logs, step) == next && LogRuns(next, rest)
    ensures LogRuns(logs, [step] + rest)
    ensures LogAfter(logs, [step] + rest) == LogAfter(next, rest)
    ensures Queued([step] + rest) == (if step.Queue? then [step.entry] else []) + Queued(rest)
  {
    assert ([step] + rest)[1..] == rest;
  }

  class LogBuffer {
    var connected: bool
    var logBuffer: seq<LogEntry>
    ghost var inFlight: seq<seq<LogEntry>>
    ghost var sent: seq<LogEntry>

    ghost function View(): Logs
      reads this
    {
      Logs(logBuffer, inFlight, sent)
    }

    constructor ()
      ensures View() == NO_LOGS && !connected
    {
      connected, logBuffer, inFlight, sent := false, [], [], [];
    }

    method QueueLog(entry: LogEntry)
      modifies this`logBuffer
      ensures View() == LogApply(old(View()), Queue(entry))
    {
      logBuffer := logBuffer + [entry];
    }

    /** A flush up to its await; without a connection or anything to send it does nothing. */
    method BeginFlush() returns (batch: Option<seq<LogEntry>>)
      modifies this`logBuffer, this`inFlight
      ensures batch.Some? <==> old(connected) && old(logBuffer) != []
      ensures batch.None? ==> View() == old(View())
      ensures batch.Some? ==> View() == LogApply(old(View()), Begin) && inFlight == old(inFlight) + [batch.value]
    {
      if logBuffer == [] || !connected {
        return None;
      }
      batch := Some(logBuffer);
      logBuffer, inFlight := [], inFlight + [logBuffer];
    }

    /** A flush from its await on. */
    method EndFlush(batch: seq<LogEntry>, closed: bool, ghost flush: nat)
      requires flush < |inFlight| && inFlight[flush] == batch
      modifies this`logBuffer, this`inFlight, this`sent
      ensures View() == LogApply(old(View()), if closed then Fail(flush) else Succeed(flush))
    {
      inFlight := Drop(inFlight, flush);
      if closed {
        logBuffer := batch + logBuffer;
      } else {
        sent := sent + batch;
      }
    }
  }

  // ---------------------------------------------------------------------------
  // Reconnecting (lines 158-223)
  // ---------------------------------------------------------------------------

  datatype Policy = Policy(initial: real, max: real, factor: real, jitter: real)

  /** How one pass of the loop goes: the handshake fails, is rejected for good, or succeeds and the
      session later drops or is stopped. */
  datatype Attempt = Refused | Rejected | Dropped | Stopped

  /** One pass, with whether a stop was requested by its end, and the draw of the jitter. */
  datatype Turn = Turn(attempt: Attempt, stopping: bool, draw: real)

  datatype Event =
    | Disconnected
    | Reconnecting(sleepFor: real)
    | Reconnected

  function SleepFor(backoff: real, draw: real): real {
    Max(0.0, backoff * (1.0 + draw))
  }

  function Scale(p: Policy, x: real): real {
    x * p.factor
  }

  function NextBackoff(p: Policy, backoff: real): real {
    Min(Scale(p, backoff), p.max)
  }

  /** The backoff after `k` sleeps without a handshake in between. */
  function Backoff(p: Policy, k: nat): real {
    if k == 0 then p.initial else NextBackoff(p, Backoff(p, k - 1))
  }

  /** The callbacks of one pass, and whether the loop goes on after it. */
  function Pass(p: Policy, turn: Turn, k: nat, retrying: bool): (seq<Event>, bool) {
    var back := if retrying then [Reconnected] else [];
    match turn.attempt
    case Rejected => ([], false)
    case Stopped => (back, false)
    case Refused =>
      if turn.stopping then ([Disconnected], false)
      else ([Disconnected, Reconnecting(SleepFor(Backoff(p, k), turn.draw))], true)
    case Dropped =>
      if turn.stopping then (back + [Disconnected], false)
      else (back + [Disconnected, Reconnecting(SleepFor(Backoff(p, 0), turn.draw))], true)
  }

  /** The callbacks of the loop over given turns, after `k` sleeps since the last handshake. */
  function Trace(p: Policy, turns: seq<Turn>, k: nat, retrying: bool): seq<Event> {
    if turns == [] then []
    else
      var (events, goesOn) := Pass(p, turns[0], k, retrying);
      events + if goesOn then Trace(p, turns[1..], if turns[0].attempt.Refused? then k + 1 else 1, true) else []
  }

  /** One pass takes its callbacks off the front of what is still to come. */
  lemma TraceStep(p: Policy, turns: seq<Turn>, i: nat, k: nat, retrying: bool, before: seq<Event>)
    requires i < |turns|
    ensures var (events, goesOn) := Pass(p, turns[i], k, retrying);
            before + Trace(p, turns[i..], k, retrying) == before + events +
              if goesOn then Trace(p, turns[i + 1..], if turns[i].attempt.Refused? then k + 1 else 1, true) else []
  {
    assert turns[i..][1..] == turns[i + 1..];
  }

  method JitteredSleep(backoff: real, draw: real) returns (sleepFor: real)
    ensures sleepFor == SleepFor(backoff, draw)
  {
    sleepFor := backoff * (1.0 + draw);
    if sleepFor < 0.0 {
      sleepFor := 0.0;
    }
  }

  method RunForever(p: Policy, turns: seq<Turn>) returns (events: seq<Event>)
    ensures events == Trace(p, turns, 0, false)
  {
    events := [];
    var backoff := p.initial;
    var isReconnect := false;
    ghost var sleeps := 0;
    assert turns[0..] == turns;
    for i := 0 to |turns|
      invariant backoff == Backoff(p, sleeps)
      invariant events + Trace(p, turns[i..], sleeps, isReconnect) == Trace(p, turns, 0, false)
    {
      TraceStep(p, turns, i, sleeps, isReconnect, events);
      var pass, goesOn;
      pass, goesOn, backoff, sleeps := RunOnce(p, turns[i], backoff, isReconnect, sleeps);
      events := events + pass;
      if !goesOn {
        return;
      }
      isReconnect := true;
    }
  }

  /** One pass of the loop: its callbacks, whether the loop goes on, and the next backoff. */
  method RunOnce(p: Policy, turn: Turn, current: real, isReconnect: bool, ghost before: nat)
    returns (events: seq<Event>, goesOn: bool, backoff: real, ghost sleeps: nat)
    requires current == Backoff(p, before)
    ensures (events, goesOn) == Pass(p, turn, before, isReconnect)
    ensures goesOn ==> sleeps == if turn.attempt.Refused? then before + 1 else 1
    ensures backoff == Backoff(p, sleeps)
  {
    events, goesOn, backoff, sleeps := [], false, current, before;
    if turn.attempt == Rejected {
      return;
    }
    if turn.attempt == Dropped || turn.attempt == Stopped {
      if isReconnect {
        events := [Reconnected];
      }
      backoff, sleeps := p.initial, 0;
      if turn.attempt == Stopped {
        return;
      }
    }
    ghost var back := events;
    events := events + [Disconnected];
    if turn.stopping {
      assert [] + [Disconnected] == [Disconnected];
      return;
    }
    var sleepFor := JitteredSleep(backoff, turn.draw);
    events, goesOn := events + [Reconnecting(sleepFor)], true;
    assert events == back + [Disconnected, Reconnecting(sleepFor)];
    assert [] + [Disconnected, Reconnecting(sleepFor)] == [Disconnected, Reconnecting(sleepFor)];
    backoff, sleeps := NextBackoff(p, backoff), sleeps + 1;
  }

  /** `x * factor^n`. */
  function Scaled(p: Policy, x: real, n: nat): real {
    if n == 0 then x else Scale(p, Scaled(p, x, n - 1))
  }

  lemma Monotone(a: real, b: real, c: real)
    requires a <= b && c >= 0.0
    ensures a * c <= b * c
  {
    assert (b - a) * c >= 0.0;
  }

  lemma ScaleMin(p: Policy, a: real, b: real)
    requires p.factor >= 0.0
    ensures Scale(p, Min(a, b)) == Min(Scale(p, a), Scale(p, b))
  {
    if a <= b {
      Monotone(a, b, p.factor);
    } else {
      Monotone(b, a, p.factor);
    }
  }

  lemma ScaleDirection(p: Policy, x: real)
    requires x >= 0.0 && p.factor >= 0.0
    ensures Scale(p, x) >= 0.0
    ensures if p.factor >= 1.0 then Scale(p, x) >= x else Scale(p, x) <= x
  {
    Monotone(0.0, x, p.factor);
    var f := p.factor;
    if f >= 1.0 {
      assert x * (f - 1.0) >= 0.0;
    } else {
      assert x * (1.0 - f) >= 0.0;
    }
    assert x * f == x + x * (f - 1.0) == x - x * (1.0 - f);
  }

  /** The ceiling after `k` sleeps under it: a shrinking factor also shrinks the ceiling. */
  function Ceiling(p: Policy, k: nat): real {
    if p.factor >= 1.0 then p.max else Scaled(p, p.max, k)
  }

  lemma {:induction false} CeilingBounds(p: Policy, k: nat)
    requires p.max >= 0.0 && p.factor >= 0.0
    ensures 0.0 <= Ceiling(p, k) <= p.max
    ensures Min(Scale(p, Ceiling(p, k)), p.max) == Ceiling(p, k + 1)
  {
    if k > 0 {
      CeilingBounds(p, k - 1);
      ScaleDirection(p, Ceiling(p, k - 1));
    }
    ScaleDirection(p, Ceiling(p, k));
  }

  /** The backoff in closed form, for any non-negative policy. */
  lemma {:induction false} BackoffClosedForm(p: Policy, k: nat)
    requires p.initial >= 0.0 && p.max >= 0.0 && p.factor >= 0.0
    ensures k > 0 ==> Backoff(p, k) == Min(Scaled(p, p.initial, k), Ceiling(p, k - 1))
  {
    if k == 1 {
      assert Backoff(p, 1) == NextBackoff(p, Backoff(p, 0));
      assert Scaled(p, p.initial, 1) == Scale(p, Scaled(p, p.initial, 0));
    } else if k > 1 {
      BackoffClosedForm(p, k - 1);
      ScaleMin(p, Scaled(p, p.initial, k - 1), Ceiling(p, k - 2));
      CeilingBounds(p, k - 2);
    }
  }

  /** The documented policy: for a growing factor, doubling up to a ceiling. */
  lemma BackoffIsCapped(p: Policy, k: nat)
    requires p.initial >= 0.0 && p.factor >= 1.0 && p.initial <= p.max
    ensures Backoff(p, k) == Min(Scaled(p, p.initial, k), p.max)
  {
    BackoffClosedForm(p, k);
  }

  /** A jitter of at most one keeps every sleep within its share of the backoff. */
  lemma SleepWithinJitter(backoff: real, draw: real, jitter: real)
    requires backoff >= 0.0 && -jitter <= draw <= jitter <= 1.0
    ensures backoff * (1.0 - jitter) <= SleepFor(backoff, draw) <= backoff * (1.0 + jitter)
  {
    Monotone(1.0 - jitter, 1.0 + draw, backoff);
    Monotone(1.0 + draw, 1.0 + jitter, backoff);
    Monotone(0.0, 1.0 + draw, backoff);
    assert backoff * (1.0 + draw) == (1.0 + draw) * backoff;
  }

  /** What may follow what; `retrying` stands for an event list that continues after "reconnecting". */
  ghost predicate WellOrdered(events: seq<Event>, retrying: bool) {
    events != [] ==>
      match events[0]
      case Reconnected => retrying && WellOrdered(events[1..], false)
      case Disconnected => events[1..] == [] || (events[1].Reconnecting? && WellOrdered(events[2..], true))
      case Reconnecting(_) => false
  }

  /** "Reconnected" is only ever reported right after "reconnecting", and "reconnecting" right after a drop. */
  lemma {:induction false} CallbacksAreOrdered(p: Policy, turns: seq<Turn>, k: nat, retrying: bool)
    ensures WellOrdered(Trace(p, turns, k, retrying), retrying)
  {
    if turns != [] {
      var (events, goesOn) := Pass(p, turns[0], k, retrying);
      if goesOn {
        var k' := if turns[0].attempt.Refused? then k + 1 else 1;
        var tail := Trace(p, turns[1..], k', true);
        CallbacksAreOrdered(p, turns[1..], k', true);
        DropIsOrdered(events[|events| - 1].sleepFor, tail);
        var drop := [Disconnected, events[|events| - 1]];
        assert events == (if |events| == 3 then [Reconnected] else []) + drop;
        assert events + tail == (if |events| == 3 then [Reconnected] else []) + (drop + tail);
        assert [] + (drop + tail) == drop + tail;
      } else {
        assert Trace(p, turns, k, retrying) == events;
        assert [Reconnected][1..] == [] && [Disconnected][1..] == [];
        assert ([Reconnected] + [Disconnected])[1..] == [Disconnected];
      }
    }
  }

  lemma DropIsOrdered(sleep: real, tail: seq<Event>)
    requires WellOrdered(tail, true)
    ensures WellOrdered([Disconnected, Reconnecting(sleep)] + tail, false)
    ensures WellOrdered([Disconnected, Reconnecting(sleep)] + tail, true)
    ensures WellOrdered([Reconnected] + ([Disconnected, Reconnecting(sleep)] + tail), true)
  {
    var all := [Disconnected, Reconnecting(sleep)] + tail;
    assert all[2..] == tail;
    assert ([Reconnected] + all)[1..] == all;
  }

  // ---------------------------------------------------------------------------
  // The callbacks against the turns
  // ---------------------------------------------------------------------------

  /** After this pass the loop goes on: the handshake failed or the session dropped, and no stop was requested. */
  predicate GoesOn(turn: Turn) {
    (turn.attempt == Refused || turn.attempt == Dropped) && !turn.stopping
  }

  /** How many of the turns the loop gets to. */
  function Begun(turns: seq<Turn>): (n: nat)
    ensures n <= |turns|
    ensures forall i :: 0 <= i < n - 1 ==> GoesOn(turns[i])
    ensures n < |turns| ==> n > 0 && !GoesOn(turns[n - 1])
  {
    if turns == [] then 0 else if GoesOn(turns[0]) then 1 + Begun(turns[1..]) else 1
  }

  /** The sleeps announced, in order. */
  function Sleeps(events: seq<Event>): seq<real> {
    if events == [] then []
    else (if events[0].Reconnecting? then [events[0].sleepFor] else []) + Sleeps(events[1..])
  }

  function Losses(events: seq<Event>): nat {
    if events == [] then 0 else (if events[0] == Disconnected then 1 else 0) + Losses(events[1..])
  }

  function Returns(events: seq<Event>): nat {
    if events == [] then 0 else (if events[0] == Reconnected then 1 else 0) + Returns(events[1..])
  }

  lemma {:induction false} EventsConcat(a: seq<Event>, b: seq<Event>)
    ensures Sleeps(a + b) == Sleeps(a) + Sleeps(b)
    ensures Losses(a + b) == Losses(a) + Losses(b) && Returns(a + b) == Returns(a) + Returns(b)
  {
    if a == [] {
      assert a + b == b;
    } else {
      assert (a + b)[1..] == a[1..] + b;
      EventsConcat(a[1..], b);
    }
  }

  /** How many turns ended in a failed handshake or a drop, how many got a session, and how many went on. */
  function Failures(turns: seq<Turn>): nat {
    if turns == [] then 0
    else (if turns[0].attempt == Refused || turns[0].attempt == Dropped then 1 else 0) + Failures(turns[1..])
  }

  function Sessions(turns: seq<Turn>): nat {
    if turns == [] then 0
    else (if turns[0].attempt == Dropped || turns[0].attempt == Stopped then 1 else 0) + Sessions(turns[1..])
  }

  /** What one pass reports. */
  lemma PassCounts(p: Policy, turn: Turn, k: nat, retrying: bool)
    ensures var (events, goesOn) := Pass(p, turn, k, retrying);
            && goesOn == GoesOn(turn)
            && Losses(events) == Failures([turn])
            && Returns(events) == (if retrying then Sessions([turn]) else 0)
            && Sleeps(events) == if GoesOn(turn)
                                 then [SleepFor(Backoff(p, if turn.attempt == Dropped then 0 else k), turn.draw)] else []
  {
    var sleep := SleepFor(Backoff(p, if turn.attempt == Dropped then 0 else k), turn.draw);
    assert [turn][1..] == [];
    assert [Disconnected][1..] == [] && [Reconnected][1..] == [];
    assert [Reconnecting(sleep)][1..] == [] && [Disconnected, Reconnecting(sleep)][1..] == [Reconnecting(sleep)];
    EventsConcat([Reconnected], [Disconnected]);
    EventsConcat([Reconnected], [Disconnected, Reconnecting(sleep)]);
    EventsConcat([], [Disconnected]);
    EventsConcat([], [Disconnected, Reconnecting(sleep)]);
  }

  lemma {:induction false} CountsConcat(a: seq<Turn>, b: seq<Turn>)
    ensures Failures(a + b) == Failures(a) + Failures(b) && Sessions(a + b) == Sessions(a) + Sessions(b)
  {
    if a == [] {
      assert a + b == b;
    } else {
      assert (a + b)[1..] == a[1..] + b;
      CountsConcat(a[1..], b);
    }
  }

  /** Over the turns the loop gets to, each failed handshake or drop is one "disconnected", and each session but one that
      opens the run is one "reconnected". */
  lemma {:induction false} CallbacksCount(p: Policy, turns: seq<Turn>, k: nat, retrying: bool)
    ensures var events, begun := Trace(p, turns, k, retrying), turns[..Begun(turns)];
            && Losses(events) == Failures(begun)
            && Returns(events) == Sessions(begun) - if retrying || begun == [] then 0 else Sessions(begun[..1])
  {
    if turns != [] {
      var (events, goesOn) := Pass(p, turns[0], k, retrying);
      PassCounts(p, turns[0], k, retrying);
      if goesOn {
        var k' := if turns[0].attempt.Refused? then k + 1 else 1;
        var later := turns[1..][..Begun(turns[1..])];
        CallbacksCount(p, turns[1..], k', true);
        EventsConcat(events, Trace(p, turns[1..], k', true));
        CountsConcat([turns[0]], later);
        BegunFurther(turns);
        assert ([turns[0]] + later)[..1] == [turns[0]];
      } else {
        LastPass(p, turns, k, retrying);
      }
    } else {
      assert turns[..0] == [];
    }
  }

  lemma BegunFurther(turns: seq<Turn>)
    requires turns != [] && GoesOn(turns[0])
    ensures turns[..Begun(turns)] == [turns[0]] + turns[1..][..Begun(turns[1..])]
  {
  }

  lemma LastPass(p: Policy, turns: seq<Turn>, k: nat, retrying: bool)
    requires turns != [] && !GoesOn(turns[0])
    ensures Trace(p, turns, k, retrying) == Pass(p, turns[0], k, retrying).0
    ensures turns[..Begun(turns)] == [turns[0]] && [turns[0]][..1] == [turns[0]]
  {
  }

  /** The sleeps since the last session, before the one that ends turn `i`, when there were `k` before the first turn. */
  function Waits(turns: seq<Turn>, i: nat, k: nat): nat
    requires i < |turns|
  {
    if turns[i].attempt == Dropped then 0 else if i == 0 then k else Waits(turns, i - 1, k) + 1
  }

  lemma {:induction false} WaitsShift(turns: seq<Turn>, i: nat, k: nat)
    requires 0 < i < |turns|
    ensures Waits(turns, i, k) == Waits(turns[1..], i - 1, if turns[0].attempt == Dropped then 1 else k + 1)
  {
    if i > 1 {
      WaitsShift(turns, i - 1, k);
    }
  }

  lemma {:induction false} SleepOfTurn(p: Policy, turns: seq<Turn>, i: nat, k: nat, retrying: bool)
    requires i < |turns| && forall m :: 0 <= m <= i ==> GoesOn(turns[m])
    ensures var sleeps := Sleeps(Trace(p, turns, k, retrying));
            i < |sleeps| && sleeps[i] == SleepFor(Backoff(p, Waits(turns, i, k)), turns[i].draw)
  {
    var k' := if turns[0].attempt == Dropped then 1 else k + 1;
    FirstSleep(p, turns, k, retrying);
    if i > 0 {
      SleepOfTurn(p, turns[1..], i - 1, k', true);
      WaitsShift(turns, i, k);
    }
  }

  lemma FirstSleep(p: Policy, turns: seq<Turn>, k: nat, retrying: bool)
    requires turns != [] && GoesOn(turns[0])
    ensures var turn := turns[0];
            Sleeps(Trace(p, turns, k, retrying))
            == [SleepFor(Backoff(p, if turn.attempt == Dropped then 0 else k), turn.draw)]
               + Sleeps(Trace(p, turns[1..], if turn.attempt == Dropped then 1 else k + 1, true))
  {
    var (events, goesOn) := Pass(p, turns[0], k, retrying);
    PassCounts(p, turns[0], k, retrying);
    EventsConcat(events, Trace(p, turns[1..], if turns[0].attempt == Dropped then 1 else k + 1, true));
  }

  lemma {:induction false} WaitsSince(turns: seq<Turn>, i: nat, j: nat)
    requires j <= i < |turns| && (j == 0 || turns[j].attempt == Dropped)
    requires forall m :: j < m <= i ==> turns[m].attempt == Refused
    ensures Waits(turns, i, 0) == i - j
  {
    if j < i {
      WaitsSince(turns, i - 1, j);
    }
  }

  /** In a run that has gone on for `i` turns, the sleep after turn `i` is the backoff for the failed handshakes since
      the last drop (or the start), which doubles up to its ceiling, jittered by that turn's own draw. */
  lemma {:induction false} SleepsFollowTheBackoff(p: Policy, turns: seq<Turn>, i: nat, j: nat)
    requires i < |turns| && forall m :: 0 <= m <= i ==> GoesOn(turns[m])
    requires j <= i && (j == 0 || turns[j].attempt == Dropped) && forall m :: j < m <= i ==> turns[m].attempt == Refused
    requires p.initial >= 0.0 && p.factor >= 1.0 && p.initial <= p.max && turns[i].draw >= -1.0
    ensures var sleeps := Sleeps(Trace(p, turns, 0, false));
            i < |sleeps| && sleeps[i] == Times(Min(Scaled(p, p.initial, i - j), p.max), 1.0 + turns[i].draw)
  {
    SleepOfTurn(p, turns, i, 0, false);
    WaitsSince(turns, i, j);
    JitteredBackoff(p, i - j, turns[i].draw);
  }

  lemma JitteredBackoff(p: Policy, n: nat, draw: real)
    requires p.initial >= 0.0 && p.factor >= 1.0 && p.initial <= p.max && draw >= -1.0
    ensures SleepFor(Backoff(p, n), draw) == Times(Min(Scaled(p, p.initial, n), p.max), 1.0 + draw)
  {
    BackoffIsCapped(p, n);
    ScaledSign(p, p.initial, n);
    TimesSign(Backoff(p, n), 1.0 + draw);
  }

  lemma {:induction false} ScaledSign(p: Policy, x: real, n: nat)
    requires x >= 0.0 && p.factor >= 0.0
    ensures Scaled(p, x, n) >= 0.0
  {
    if n > 0 {
      ScaledSign(p, x, n - 1);
      TimesSign(Scaled(p, x, n - 1), p.factor);
    }
  }
}
