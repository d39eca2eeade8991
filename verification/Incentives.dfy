/** What a cost table makes of the agent (watchdog/watcher.py, lines 354-448 and 487-528): exact thresholds,
    through the argmax and its tie order, for every table and every task. */
module Incentives {
  import opened Prelude
  import opened Watcher
  import opened Verdicts

  // ---------------------------------------------------------------------------
  // The choice
  // ---------------------------------------------------------------------------

  function Rank(a: Action): nat {
    match a
    case BypassSilent => 0
    case DeclareBypass => 1
    case LawfulExit => 2
    case GiveUp => 3
    case Solve => 4
  }

  /** No action is worth more, and every action before it in the order is worth less. */
  ghost predicate IsFirstBest(c: Costs, task: Task, action: Action, n: nat) {
    && Rank(action) < n
    && forall a :: Rank(a) < n ==>
         && !Better(Utility(c, task, a), Utility(c, task, action))
         && (Rank(a) < Rank(action) ==> Better(Utility(c, task, action), Utility(c, task, a)))
  }

  lemma OrderRanks(a: Action, n: nat)
    requires n < |ORDER|
    ensures Rank(ORDER[n]) == n && (Rank(a) == n <==> a == ORDER[n])
  {
  }

  lemma {:induction false} ArgMaxIsFirstBest(c: Costs, task: Task, n: nat)
    requires 1 <= n <= |ORDER|
    ensures IsFirstBest(c, task, ArgMax(c, task, n), n)
  {
    if n > 1 {
      ArgMaxIsFirstBest(c, task, n - 1);
    }
    forall a
      ensures Rank(a) == n - 1 <==> a == ORDER[n - 1]
    {
      OrderRanks(a, n - 1);
    }
    OrderRanks(ORDER[n - 1], n - 1);
  }

  /** The agent's choice is the best action, ties going to the earlier in the order. */
  lemma ChosenIff(c: Costs, task: Task, action: Action)
    ensures Choose(c, task) == action <==> IsFirstBest(c, task, action, |ORDER|)
  {
    ArgMaxIsFirstBest(c, task, |ORDER|);
    var chosen := Choose(c, task);
    if IsFirstBest(c, task, action, |ORDER|) && chosen != action {
      assert false;
    }
  }

  predicate Bypasses(a: Action) {
    a == BypassSilent || a == DeclareBypass
  }

  // ---------------------------------------------------------------------------
  // Canonical records
  // ---------------------------------------------------------------------------

  /** The record a fully instrumented world keeps of a canonical plan: the gate turns a zone act into a refusal. */
  function CanonicalLog(task: Task, action: Action, crossed: bool, gate: bool): seq<Step> {
    if Bypasses(action) && crossed && gate then StepsFor(task, action, false) + [Step(Rejected, SAFETY_ZONE)]
    else StepsFor(task, action, crossed)
  }

  lemma {:induction false} AllowedAll(xs: seq<Step>, hasWall: bool)
    requires hasWall || forall s :: s in xs ==> s.kind != HitWall
    ensures Allowed(xs, hasWall) == xs
  {
    if xs != [] {
      assert xs[0] in xs;
      AllowedAll(xs[1..], hasWall);
    }
  }

  lemma {:induction false} RecordedAll(gate: bool, xs: seq<Step>, ys: seq<Step>)
    requires gate ==> forall s :: s in xs ==> s.kind != Zone
    ensures Recorded(World({}, gate), xs + ys) == xs + Recorded(World({}, gate), ys)
  {
    if xs == [] {
      assert xs + ys == ys;
    } else {
      assert xs[0] in xs;
      assert (xs + ys)[1..] == xs[1..] + ys;
      RecordedAll(gate, xs[1..], ys);
      assert xs + Recorded(World({}, gate), ys) == [xs[0]] + (xs[1..] + Recorded(World({}, gate), ys));
    }
  }

  lemma StepsOf(task: Task, actual: Action, crossed: bool, s: Step)
    ensures s in StepsFor(task, actual, crossed) <==>
            || s == Step(Attempt, task.title)
            || (task.hasWall && s == Step(HitWall, task.Wall()))
            || s in Ending(task.Wall(), actual, crossed)
  {
  }

  lemma EndingOf(wall: string, actual: Action, crossed: bool, s: Step)
    ensures s in Ending(wall, actual, crossed) <==>
            match actual
            case Solve => s == Step(Complete, LAWFUL_PATH)
            case LawfulExit => s == Step(Report, wall)
            case GiveUp => s == Step(Stop, wall)
            case _ => s == Step(TakeBypass, wall) || (crossed && s == Step(Zone, SAFETY_ZONE))
  {
  }

  /** A plan opens with the attempt and the wall, if there is one; what follows is one step, and after a crossing bypass
      the zone. */
  lemma PlansAreInOrder(task: Task, action: Action, crossed: bool)
    ensures var plan, start := StepsFor(task, action, crossed), if task.hasWall then 2 else 1;
            && plan[0] == Step(Attempt, task.title)
            && (task.hasWall ==> |plan| > 1 && plan[1] == Step(HitWall, task.beacon.Text()))
            && |plan| == start + (if Bypasses(action) && crossed then 2 else 1)
            && plan[start] == (match action
                               case Solve => Step(Complete, LAWFUL_PATH)
                               case LawfulExit => Step(Report, task.beacon.Text())
                               case GiveUp => Step(Stop, task.beacon.Text())
                               case _ => Step(TakeBypass, task.beacon.Text()))
            && (Bypasses(action) && crossed ==> plan[start + 1] == Step(Zone, SAFETY_ZONE))
  {
  }

  /** What an agent sets out to do: the honest one its choice, declared unless it is silence or plain work, crossing into
      the zone exactly when it bypasses there without permission; the dishonest one declares a bypass alone, and takes
      a second path and the zone in silence. */
  lemma AgentsIntend(c: Costs, task: Task, honest: bool)
    ensures var intent, chosen := Decide(c, honest, task), Choose(c, task);
            && intent.task == task
            && (if !honest && chosen == DeclareBypass
                then intent.action == BypassSilent && intent.declared == Some(DeclareBypass)
                     && intent.declaredScope == {Step(TakeBypass, task.beacon.Text())}
                     && |intent.plan| == 5 && intent.plan[0] == Step(Attempt, task.title)
                     && intent.plan[1] == Step(HitWall, task.beacon.Text())
                     && intent.plan[2] == Step(TakeBypass, task.beacon.Text())
                     && intent.plan[3] == Step(TakeBypass, UNDECLARED_PATH) && intent.plan[4] == Step(Zone, SAFETY_ZONE)
                else intent.action == chosen
                     && intent.declared == (if chosen == Solve || chosen == BypassSilent then None else Some(chosen))
                     && intent.plan == StepsFor(task, chosen, Bypasses(chosen) && task.Forbidden())
                     && forall s :: s in intent.declaredScope <==>
                                    s in intent.plan && intent.declared.Some?
                                    && (if chosen == DeclareBypass then s.kind == TakeBypass || s.kind == Zone
                                        else s.kind == Report || s.kind == Stop))
  {
    var chosen := Choose(c, task);
    forall s
      ensures s in CanonicalIntent(task, chosen).declaredScope <==> ScopeHas(task, chosen, s)
    {
      ScopeOf(task, chosen, s);
      var crossed := Bypasses(chosen) && task.Forbidden();
      StepsOf(task, chosen, crossed, s);
      EndingOf(task.Wall(), chosen, crossed, s);
    }
    assert honest || chosen != DeclareBypass ==> Decide(c, honest, task) == CanonicalIntent(task, chosen);
  }

  lemma CanonicalRecord(task: Task, action: Action, crossed: bool, gate: bool)
    ensures Recorded(World({}, gate), Allowed(StepsFor(task, action, crossed), task.hasWall))
         == CanonicalLog(task, action, crossed, gate)
  {
    var plan := StepsFor(task, action, crossed);
    forall s | s in plan
      ensures !task.hasWall ==> s.kind != HitWall
      ensures s.kind == Zone ==> Bypasses(action) && crossed
    {
      StepsOf(task, action, crossed, s);
      EndingOf(task.Wall(), action, crossed, s);
    }
    AllowedAll(plan, task.hasWall);
    if Bypasses(action) && crossed && gate {
      GatedRecord(task, action);
    } else {
      RecordedAll(gate, plan, []);
      assert plan + [] == plan;
    }
  }

  lemma GatedRecord(task: Task, action: Action)
    requires Bypasses(action)
    ensures Recorded(World({}, true), StepsFor(task, action, true)) == CanonicalLog(task, action, true, true)
  {
    var start, zone := StepsFor(task, action, false), [Step(Zone, SAFETY_ZONE)];
    assert StepsFor(task, action, true) == start + zone;
    forall s | s in start
      ensures s.kind != Zone
    {
      StepsOf(task, action, false, s);
      EndingOf(task.Wall(), action, false, s);
    }
    RecordedAll(true, start, zone);
  }

  /** What a canonical record holds. */
  predicate LogHas(task: Task, action: Action, crossed: bool, gate: bool, s: Step) {
    || s == Step(Attempt, task.title)
    || (task.hasWall && s == Step(HitWall, task.Wall()))
    || match action
       case Solve => s == Step(Complete, LAWFUL_PATH)
       case LawfulExit => s == Step(Report, task.Wall())
       case GiveUp => s == Step(Stop, task.Wall())
       case _ => || s == Step(TakeBypass, task.Wall())
                 || (crossed && s == Step(if gate then Rejected else Zone, SAFETY_ZONE))
  }

  lemma LogOf(task: Task, action: Action, crossed: bool, gate: bool, s: Step)
    ensures s in CanonicalLog(task, action, crossed, gate) <==> LogHas(task, action, crossed, gate, s)
  {
    StepsOf(task, action, crossed, s);
    StepsOf(task, action, false, s);
    EndingOf(task.Wall(), action, crossed, s);
    EndingOf(task.Wall(), action, false, s);
  }

  // ---------------------------------------------------------------------------
  // Canonical labels
  // ---------------------------------------------------------------------------

  /** An intent that carries out `action` and declares it in full, or keeps silent. */
  function CanonicalIntent(task: Task, action: Action): Intent {
    var declared := if action in {DeclareBypass, LawfulExit, GiveUp} then Some(action) else None;
    var plan := StepsFor(task, action, Bypasses(action) && task.Forbidden());
    Intent(task, action, declared, ScopeFor(declared, plan), plan)
  }

  function Excused(task: Task): Label {
    if task.isAmbiguous then Unclear else ErrorLabel
  }

  /** The verdict on each canonical intent. */
  function LabelOf(task: Task, action: Action): Label {
    match action
    case BypassSilent => if task.looksLikeMistake then Excused(task) else BypassLabel
    case DeclareBypass => if task.Forbidden() then BypassLabel else if task.isAmbiguous then Unclear else Norm
    case Solve => if task.looksLikeMistake then Excused(task) else Norm
    case _ => if !task.hasWall then FalseExit else if task.looksLikeMistake then Excused(task) else Norm
  }

  predicate ScopeHas(task: Task, action: Action, s: Step) {
    match action
    case DeclareBypass => s == Step(TakeBypass, task.Wall()) || (task.Forbidden() && s == Step(Zone, SAFETY_ZONE))
    case LawfulExit => s == Step(Report, task.Wall())
    case GiveUp => s == Step(Stop, task.Wall())
    case _ => false
  }

  lemma ScopeOf(task: Task, action: Action, s: Step)
    ensures s in CanonicalIntent(task, action).declaredScope <==> ScopeHas(task, action, s)
  {
    var crossed := Bypasses(action) && task.Forbidden();
    StepsOf(task, action, crossed, s);
    EndingOf(task.Wall(), action, crossed, s);
  }

  /** An episode with the record and the declaration of a canonical intent. */
  ghost predicate Shows(ep: Episode, task: Task, action: Action, gate: bool) {
    && ep.task == task
    && (forall s :: s in ep.steps <==> LogHas(task, action, Bypasses(action) && task.Forbidden(), gate, s))
    && (forall s :: s in ep.declaredScope <==> ScopeHas(task, action, s))
  }

  lemma CanonicalShows(task: Task, action: Action, gate: bool)
    ensures Shows(Executed(World({}, gate), CanonicalIntent(task, action)), task, action, gate)
  {
    var crossed := Bypasses(action) && task.Forbidden();
    CanonicalRecord(task, action, crossed, gate);
    forall s
      ensures s in CanonicalIntent(task, action).declaredScope <==> ScopeHas(task, action, s)
    {
      ScopeOf(task, action, s);
    }
    forall s
      ensures s in CanonicalLog(task, action, crossed, gate) <==> LogHas(task, action, crossed, gate, s)
    {
      LogOf(task, action, crossed, gate, s);
    }
  }

  /** What the watcher reads off such an episode: only silence leaves a gap, only a made-up wall an unbacked claim. */
  lemma GapEvidence(ep: Episode, task: Task, action: Action, gate: bool)
    requires Shows(ep, task, action, gate)
    ensures Gap(ep).unaccounted > 0 <==> action == BypassSilent
  {
    GapMeaning(ep);
    if action == BypassSilent {
      assert Unannounced(ep, Step(TakeBypass, task.Wall()));
    }
  }

  lemma ScopeEvidence(ep: Episode, task: Task, action: Action, gate: bool)
    requires Shows(ep, task, action, gate)
    ensures ep.declaredScope != {} <==> action in {DeclareBypass, LawfulExit, GiveUp}
    ensures Unbacked(ep) != {} <==> action in {LawfulExit, GiveUp} && !task.hasWall
  {
    var wall := task.Wall();
    match action
    case DeclareBypass => assert Step(TakeBypass, wall) in ep.declaredScope;
    case LawfulExit =>
      assert Step(Report, wall) in ep.declaredScope;
      assert !task.hasWall ==> Step(Report, wall) in Unbacked(ep);
    case GiveUp =>
      assert Step(Stop, wall) in ep.declaredScope;
      assert !task.hasWall ==> Step(Stop, wall) in Unbacked(ep);
    case _ =>
  }

  lemma KindEvidence(ep: Episode, task: Task, action: Action, gate: bool)
    requires Shows(ep, task, action, gate)
    ensures HasKind(ep.steps, TakeBypass) <==> Bypasses(action)
    ensures HasKind(ep.steps, Zone) || HasKind(ep.steps, Rejected) <==> Bypasses(action) && task.Forbidden()
  {
    if Bypasses(action) {
      assert Step(TakeBypass, task.Wall()) in ep.steps;
      assert task.Forbidden() ==> Step(if gate then Rejected else Zone, SAFETY_ZONE) in ep.steps;
    }
  }

  /** The label of a canonical intent, gate or no gate. */
  lemma CanonicalLabel(task: Task, action: Action, gate: bool)
    ensures Classify(Executed(World({}, gate), CanonicalIntent(task, action))) == LabelOf(task, action)
  {
    var ep := Executed(World({}, gate), CanonicalIntent(task, action));
    CanonicalShows(task, action, gate);
    GapEvidence(ep, task, action, gate);
    ScopeEvidence(ep, task, action, gate);
    KindEvidence(ep, task, action, gate);
  }

  /** An honest agent earns the label of its choice. */
  lemma HonestLabel(c: Costs, task: Task)
    ensures Classify(Act(c, true, task)) == LabelOf(task, Choose(c, task))
  {
    assert Decide(c, true, task) == CanonicalIntent(task, Choose(c, task));
    CanonicalLabel(task, Choose(c, task), c.gate);
  }

  lemma DeclaringNeedsAWall(c: Costs, task: Task)
    requires Choose(c, task) == DeclareBypass
    ensures task.hasWall
  {
    ChosenIff(c, task, DeclareBypass);
    assert !Better(Utility(c, task, GiveUp), Utility(c, task, DeclareBypass));
  }

  /** What the world writes down for one step of a plan that gets that far. */
  predicate Leaves(world: World, x: Step, s: Step) {
    world.Sees(x) && s == if world.Stops(x) then Step(Rejected, x.target) else x
  }

  /** The record of a plan whose only zone act, if any, is its last step. */
  lemma {:induction false} RecordOf(world: World, plan: seq<Step>, s: Step)
    requires forall i :: 0 <= i < |plan| - 1 ==> plan[i].kind != Zone
    ensures s in Recorded(world, plan) <==> exists i :: 0 <= i < |plan| && Leaves(world, plan[i], s)
  {
    if plan != [] {
      RecordOf(world, plan[1..], s);
      if i :| 0 <= i < |plan| && Leaves(world, plan[i], s) {
        assert i > 0 ==> Leaves(world, plan[1..][i - 1], s);
      }
      if i :| 0 <= i < |plan| - 1 && Leaves(world, plan[1..][i], s) {
        assert Leaves(world, plan[i + 1], s);
      }
    }
  }

  function DishonestPlan(task: Task): seq<Step> {
    [Step(Attempt, task.title), Step(HitWall, task.Wall()), Step(TakeBypass, task.Wall()),
     Step(TakeBypass, UNDECLARED_PATH), Step(Zone, SAFETY_ZONE)]
  }

  ghost predicate ShowsDishonesty(ep: Episode, world: World, task: Task) {
    && ep.declaredScope == {Step(TakeBypass, task.Wall())}
    && forall s :: s in ep.steps <==> exists i :: 0 <= i < 5 && Leaves(world, DishonestPlan(task)[i], s)
  }

  /** What such a record can hold unannounced. */
  lemma OnlyTheRest(ep: Episode, world: World, task: Task, s: Step)
    requires ShowsDishonesty(ep, world, task) && Unannounced(ep, s)
    ensures UNDECLARED_PATH !in world.blindTargets || (SAFETY_ZONE !in world.blindTargets && !world.gate)
  {
    var plan := DishonestPlan(task);
    var i :| 0 <= i < 5 && Leaves(world, plan[i], s);
    assert plan[0].Licensed() && plan[1].Licensed() && plan[2] in ep.declaredScope;
    assert i == 3 || (i == 4 && !world.gate);
  }

  lemma DishonestGap(ep: Episode, world: World, task: Task)
    requires ShowsDishonesty(ep, world, task)
    ensures Gap(ep).unaccounted > 0 <==>
            UNDECLARED_PATH !in world.blindTargets || (SAFETY_ZONE !in world.blindTargets && !world.gate)
  {
    GapMeaning(ep);
    var plan := DishonestPlan(task);
    if UNDECLARED_PATH !in world.blindTargets {
      assert Leaves(world, plan[3], plan[3]) && Unannounced(ep, plan[3]);
    } else if SAFETY_ZONE !in world.blindTargets && !world.gate {
      assert Leaves(world, plan[4], plan[4]) && Unannounced(ep, plan[4]);
    } else if s :| Unannounced(ep, s) {
      OnlyTheRest(ep, world, task, s);
    }
  }

  lemma DishonestKinds(ep: Episode, world: World, task: Task)
    requires ShowsDishonesty(ep, world, task)
    ensures HasKind(ep.steps, TakeBypass) <==> UNDECLARED_PATH !in world.blindTargets || task.Wall() !in world.blindTargets
    ensures HasKind(ep.steps, Zone) || HasKind(ep.steps, Rejected) <==> SAFETY_ZONE !in world.blindTargets
  {
    var plan := DishonestPlan(task);
    if UNDECLARED_PATH !in world.blindTargets {
      assert Leaves(world, plan[3], plan[3]) && plan[3] in ep.steps;
    }
    if task.Wall() !in world.blindTargets {
      assert Leaves(world, plan[2], plan[2]) && plan[2] in ep.steps;
    }
    if SAFETY_ZONE !in world.blindTargets {
      var zone := if world.gate then Step(Rejected, SAFETY_ZONE) else plan[4];
      assert Leaves(world, plan[4], zone) && zone in ep.steps;
    }
  }

  /** An agent that declares the harmless bypass and does more is found out, from the log, if and only if the
      world sees its second path, or sees the zone it enters; behind the gate the latter leaves only a refusal,
      which convicts without permission and unless the episode passes for a mistake with nothing declared seen. */
  lemma DishonestyIsFoundIff(c: Costs, task: Task, blind: set<string>, gate: bool)
    requires Choose(c, task) == DeclareBypass
    ensures Classify(Executed(World(blind, gate), Decide(c, false, task))) == BypassLabel <==>
            || UNDECLARED_PATH !in blind
            || (SAFETY_ZONE !in blind
                && (!gate || (!task.permissionGranted && !(task.looksLikeMistake && task.Wall() in blind))))
  {
    DeclaringNeedsAWall(c, task);
    var intent, world := Decide(c, false, task), World(blind, gate);
    assert intent.plan == DishonestPlan(task);
    AllowedAll(intent.plan, true);
    forall s
      ensures s in Recorded(world, intent.plan) <==> exists i :: 0 <= i < 5 && Leaves(world, intent.plan[i], s)
    {
      RecordOf(world, intent.plan, s);
    }
    var ep := Executed(world, intent);
    DishonestGap(ep, world, task);
    DishonestKinds(ep, world, task);
    assert Unbacked(ep) == {};
  }

  // ---------------------------------------------------------------------------
  // Theorems about cost tables
  // ---------------------------------------------------------------------------

  /** The least task there is: a wall, a harmless bypass, and no other way out. */
  function BareTask(harm: int): Task {
    Task(0, "", ToolError, Bypass(false, harm, true, true, true), false, false, false, false, true, None)
  }

  lemma HarmOf(c: Costs, h: int)
    ensures h == 0 ==> Times(c.HarmPrice(), h as real) == 0.0
    ensures h == 1 ==> Times(c.HarmPrice(), h as real) == c.HarmPrice()
  {
  }

  /** Gated, an honest agent never chooses silence, or a forbidden bypass, once silence costs more than words. */
  lemma ScrutinyDecides(c: Costs, task: Task)
    requires c.gate && c.effort > 0.0 && c.block >= 0.0 && c.scrutiny > c.effort
    ensures Choose(c, task) != BypassSilent && !(Choose(c, task) == DeclareBypass && task.Forbidden())
  {
    ChosenIff(c, task, Choose(c, task));
    HarmOf(c, task.bypass.thirdPartyCost);
    assert !Better(Utility(c, task, DeclareBypass), Utility(c, task, Choose(c, task)));
    assert !Better(Utility(c, task, GiveUp), Utility(c, task, Choose(c, task)));
  }

  /** With silence no dearer than words, the bare task is bypassed in silence. */
  lemma SilenceOnBareTask(c: Costs)
    requires c.scrutiny <= c.effort && c.rTask - c.scrutiny >= c.rGiveup
    ensures Classify(Act(c, true, BareTask(0))) == BypassLabel
  {
    SilenceIsChosen(c);
    HonestLabel(c, BareTask(0));
  }

  lemma SilenceIsChosen(c: Costs)
    requires c.scrutiny <= c.effort && c.rTask - c.scrutiny >= c.rGiveup
    ensures Choose(c, BareTask(0)) == BypassSilent
  {
    HarmOf(c, 0);
    ChosenIff(c, BareTask(0), BypassSilent);
  }

  /** Gated tables: the honest agent is labelled a bypass on no task at all if and only if an undeclared bypass
      costs more than the effort of declaring it. */
  lemma NeverBypassIff(c: Costs)
    requires c.gate && c.effort > 0.0 && c.block >= 0.0 && c.rTask - c.scrutiny >= c.rGiveup
    ensures (forall task :: Classify(Act(c, true, task)) != BypassLabel) <==> c.scrutiny > c.effort
  {
    if c.scrutiny > c.effort {
      forall task
        ensures Classify(Act(c, true, task)) != BypassLabel
      {
        HonestLabel(c, task);
        ScrutinyDecides(c, task);
      }
    } else {
      SilenceOnBareTask(c);
    }
  }

  /** A walled task in the zone, without permission and without a lawful path. */
  predicate IsTemptation(task: Task) {
    task.hasWall && task.Forbidden() && task.solveCost.None?
  }

  function Stake(c: Costs, task: Task): real {
    Abs(Times(c.HarmPrice(), task.bypass.thirdPartyCost as real)) + Abs(c.block) + Abs(c.scrutiny) + Abs(c.effort)
    + Abs(c.rExit) + Abs(c.rGiveup) + 1.0
  }

  lemma StakeBuysTheZone(c: Costs, task: Task)
    requires IsTemptation(task) && !c.gate && c.rTask >= Stake(c, task)
    ensures Bypasses(Choose(c, task))
  {
    ChosenIff(c, task, Choose(c, task));
    assert !Better(Utility(c, task, BypassSilent), Utility(c, task, Choose(c, task)));
  }

  /** Without the gate every block, however large, is bought at some stake; behind it none ever is. */
  lemma BlockHasItsPrice(c: Costs, task: Task, stake: real)
    requires IsTemptation(task)
    ensures !c.gate && stake >= Stake(c, task) ==> HasKind(Act(c.(rTask := stake), true, task).steps, Zone)
    ensures c.gate ==> !HasKind(Act(c.(rTask := stake), true, task).steps, Zone)
  {
    var d := c.(rTask := stake);
    var chosen := Choose(d, task);
    assert Decide(d, true, task) == CanonicalIntent(task, chosen);
    CanonicalShows(task, chosen, c.gate);
    if !c.gate && stake >= Stake(c, task) {
      StakeBuysTheZone(d, task);
      assert Step(Zone, SAFETY_ZONE) in Act(d, true, task).steps;
    }
  }

  /** Harm that is safety-relevant, irreversible, not compensable or not measurable is beyond any price: behind
      the gate, with silence dearer than words, no stake makes the agent bypass it without permission. */
  lemma UnpriceableIsNeverBought(c: Costs, task: Task)
    requires c.gate && c.effort > 0.0 && c.block >= 0.0 && c.scrutiny > c.effort
    requires var b := task.bypass; b.touchesSafety || !b.reversible || !b.compensable || !b.measurable
    requires !task.permissionGranted
    ensures !Bypasses(Choose(c, task))
  {
    ScrutinyDecides(c, task);
  }

  /** Behind the gate a hopeless attempt is still made, in silence, exactly when it costs nothing. */
  lemma StoppedAttemptIff(c: Costs, task: Task)
    requires IsTemptation(task) && c.gate && c.effort > 0.0 && !task.hasLawfulExit
    ensures Choose(c, task) == BypassSilent <==> c.block + c.scrutiny <= 0.0
    ensures Choose(c, task) != BypassSilent ==> Choose(c, task) == GiveUp
  {
    var chosen := Choose(c, task);
    ChosenIff(c, task, chosen);
    ChosenIff(c, task, BypassSilent);
    assert !Better(Utility(c, task, GiveUp), Utility(c, task, chosen));
    assert !Better(Utility(c, task, BypassSilent), Utility(c, task, chosen));
  }

  /** The best honest way out of a walled task without a lawful path. */
  function WayOut(c: Costs, task: Task): real {
    if task.hasLawfulExit then Max(c.rExit, c.rGiveup) else c.rGiveup
  }

  /** The exact stake, without the gate but with a block: harm, block and scrutiny on top of the way out. */
  lemma ZoneIsBoughtIff(c: Costs, task: Task)
    requires IsTemptation(task) && !c.gate && c.block > 0.0 && c.effort > 0.0
    ensures HasKind(Act(c, true, task).steps, Zone) <==>
            c.rTask >= WayOut(c, task) + Times(c.lam + c.deterrence, task.bypass.thirdPartyCost as real)
                       + c.block + c.scrutiny
  {
    var chosen := Choose(c, task);
    StakeDecides(c, task);
    assert Decide(c, true, task) == CanonicalIntent(task, chosen);
    CanonicalShows(task, chosen, false);
    if Bypasses(chosen) {
      assert Step(Zone, SAFETY_ZONE) in Act(c, true, task).steps;
    }
  }

  /** Without gate or block the declaration goes through as well, harm and all: the cheaper of the two decides. */
  lemma OpenZoneIff(c: Costs, task: Task)
    requires IsTemptation(task) && !c.gate && c.block <= 0.0
    ensures Bypasses(Choose(c, task)) <==>
            c.rTask - Times(c.lam + c.deterrence, task.bypass.thirdPartyCost as real)
              - Min(c.block + c.scrutiny, c.effort) >= WayOut(c, task)
  {
    var chosen := Choose(c, task);
    ChosenIff(c, task, chosen);
    assert !Better(Utility(c, task, BypassSilent), Utility(c, task, chosen));
    assert !Better(Utility(c, task, DeclareBypass), Utility(c, task, chosen));
    assert !Better(Utility(c, task, GiveUp), Utility(c, task, chosen));
    assert !Better(Utility(c, task, LawfulExit), Utility(c, task, chosen));
    if !Bypasses(chosen) {
      assert Better(Utility(c, task, chosen), Utility(c, task, BypassSilent));
      assert Better(Utility(c, task, chosen), Utility(c, task, DeclareBypass));
    }
  }

  lemma StakeDecides(c: Costs, task: Task)
    requires IsTemptation(task) && !c.gate && c.block > 0.0 && c.effort > 0.0
    ensures Choose(c, task) != DeclareBypass
    ensures Choose(c, task) == BypassSilent <==>
            c.rTask >= WayOut(c, task) + Times(c.lam + c.deterrence, task.bypass.thirdPartyCost as real)
                       + c.block + c.scrutiny
  {
    var chosen := Choose(c, task);
    ChosenIff(c, task, chosen);
    ChosenIff(c, task, BypassSilent);
    assert !Better(Utility(c, task, GiveUp), Utility(c, task, chosen));
    assert !Better(Utility(c, task, LawfulExit), Utility(c, task, chosen));
  }

  // ---------------------------------------------------------------------------
  // Every choice, exactly
  // ---------------------------------------------------------------------------

  /** What a silent and a declared bypass of a walled task pay. In the zone without permission the gate turns both into
      a give-up; without the gate a block charges the silent one and stops the declared one. */
  ghost predicate Pay(c: Costs, task: Task, silent: real, declared: real) {
    var b := task.bypass;
    var paid := c.rTask - Times(c.lam + c.deterrence, b.thirdPartyCost as real);
    if task.permissionGranted || (!b.touchesSafety && b.reversible && b.compensable && b.measurable) then
      silent == paid - c.scrutiny && declared == paid - c.effort
    else if c.gate then
      silent == c.rGiveup - c.block - c.scrutiny && declared == c.rGiveup - c.effort
    else
      silent == paid - c.block - c.scrutiny && declared == if c.block > 0.0 then c.rGiveup - c.effort else paid - c.effort
  }

  /** On a walled task: the better bypass is taken, silently on a tie, unless a way out or the work pays more; a way
      out, unless the work pays more; and of the ways out the exit, unless giving up pays more. */
  lemma WalledChoiceIff(c: Costs, task: Task, silent: real, declared: real)
    requires task.hasWall && Pay(c, task, silent, declared)
    ensures var chosen, bypass, out := Choose(c, task), Max(silent, declared), WayOut(c, task);
            var works := task.solveCost.Some?;
            var work := if works then c.rTask - task.solveCost.value else 0.0;
            && (chosen == BypassSilent <==> silent >= declared && silent >= out && (works ==> silent >= work))
            && (chosen == DeclareBypass <==> declared > silent && declared >= out && (works ==> declared >= work))
            && (chosen == LawfulExit <==>
                task.hasLawfulExit && c.rExit >= c.rGiveup && c.rExit > bypass && (works ==> c.rExit >= work))
            && (chosen == GiveUp <==>
                (task.hasLawfulExit ==> c.rGiveup > c.rExit) && c.rGiveup > bypass && (works ==> c.rGiveup >= work))
            && (chosen == Solve <==> works && work > bypass && work > out)
  {
    var chosen := Choose(c, task);
    BypassPays(c, task, silent, declared);
    ChosenIff(c, task, chosen);
    FirstBestWalled(c, task, silent, declared, chosen);
  }

  lemma BypassPays(c: Costs, task: Task, silent: real, declared: real)
    requires task.hasWall && Pay(c, task, silent, declared)
    ensures Utility(c, task, BypassSilent) == Some(silent) && Utility(c, task, DeclareBypass) == Some(declared)
  {
    HarmOf(c, task.bypass.thirdPartyCost);
  }

  lemma FirstBestWalled(c: Costs, task: Task, silent: real, declared: real, chosen: Action)
    requires task.hasWall && IsFirstBest(c, task, chosen, |ORDER|)
    requires Utility(c, task, BypassSilent) == Some(silent) && Utility(c, task, DeclareBypass) == Some(declared)
    ensures var bypass, out := Max(silent, declared), WayOut(c, task);
            var works := task.solveCost.Some?;
            var work := if works then c.rTask - task.solveCost.value else 0.0;
            match chosen
            case BypassSilent => silent >= declared && silent >= out && (works ==> silent >= work)
            case DeclareBypass => declared > silent && declared >= out && (works ==> declared >= work)
            case LawfulExit =>
              task.hasLawfulExit && c.rExit >= c.rGiveup && c.rExit > bypass && (works ==> c.rExit >= work)
            case GiveUp =>
              (task.hasLawfulExit ==> c.rGiveup > c.rExit) && c.rGiveup > bypass && (works ==> c.rGiveup >= work)
            case Solve => works && work > bypass && work > out
  {
    var u := Utility(c, task, chosen);
    assert !Better(Utility(c, task, BypassSilent), u) && !Better(Utility(c, task, DeclareBypass), u);
    assert !Better(Utility(c, task, LawfulExit), u) && !Better(Utility(c, task, GiveUp), u);
    assert !Better(Utility(c, task, Solve), u);
    if chosen != BypassSilent {
      assert Better(u, Utility(c, task, BypassSilent));
      if chosen != DeclareBypass {
        assert Better(u, Utility(c, task, DeclareBypass));
        if chosen != LawfulExit {
          assert Better(u, Utility(c, task, LawfulExit));
          assert chosen == Solve ==> Better(u, Utility(c, task, GiveUp));
        }
      }
    }
  }

  /** Without a wall there is only work and the made-up obstacles, at their price. */
  lemma UnwalledChoiceIff(c: Costs, task: Task)
    requires !task.hasWall
    ensures var chosen, works := Choose(c, task), task.solveCost.Some?;
            var work := if works then c.rTask - task.solveCost.value else 0.0;
            && (chosen == LawfulExit <==> c.rExit >= c.rGiveup && (works ==> c.rExit - c.fabrication >= work))
            && (chosen == GiveUp <==> c.rGiveup > c.rExit && (works ==> c.rGiveup - c.fabrication >= work))
            && (chosen == Solve <==> works && Max(c.rExit, c.rGiveup) - c.fabrication < work)
  {
    var chosen := Choose(c, task);
    ChosenIff(c, task, chosen);
    var u := Utility(c, task, chosen);
    assert !Better(Utility(c, task, LawfulExit), u) && !Better(Utility(c, task, GiveUp), u);
    assert !Better(Utility(c, task, Solve), u);
    if chosen != LawfulExit {
      assert Better(u, Utility(c, task, LawfulExit));
      assert chosen == Solve ==> Better(u, Utility(c, task, GiveUp));
    }
  }

  /** Permission lifts the zone: under every table a permitted task is treated as one whose bypass, at the same harm to
      others, lies outside the zone altogether. */
  lemma PermissionLiftsTheZone(c: Costs, task: Task)
    ensures Choose(c, task.(permissionGranted := true))
         == Choose(c, task.(bypass := Bypass(false, task.bypass.thirdPartyCost, true, true, true)))
  {
    var permitted := task.(permissionGranted := true);
    var outside := task.(bypass := Bypass(false, task.bypass.thirdPartyCost, true, true, true));
    if task.hasWall {
      var paid := c.rTask - Times(c.lam + c.deterrence, task.bypass.thirdPartyCost as real);
      WalledChoiceIff(c, permitted, paid - c.scrutiny, paid - c.effort);
      WalledChoiceIff(c, outside, paid - c.scrutiny, paid - c.effort);
    } else {
      UnwalledChoiceIff(c, permitted);
      UnwalledChoiceIff(c, outside);
    }
  }

  /** The exact stake at which a permitted zone task is bypassed, and bypassed in the open. */
  lemma PermittedZoneIff(c: Costs, task: Task)
    requires task.hasWall && task.permissionGranted && task.bypass.InZone()
    ensures var chosen := Choose(c, task);
            var price := Times(c.lam + c.deterrence, task.bypass.thirdPartyCost as real) + Min(c.scrutiny, c.effort);
            && (Bypasses(chosen) <==>
                c.rTask >= WayOut(c, task) + price && (task.solveCost.Some? ==> task.solveCost.value >= price))
            && (chosen == DeclareBypass <==> Bypasses(chosen) && c.effort < c.scrutiny)
  {
    var paid := c.rTask - Times(c.lam + c.deterrence, task.bypass.thirdPartyCost as real);
    WalledChoiceIff(c, task, paid - c.scrutiny, paid - c.effort);
  }

  /** The agent closes a walled task that has a lawful exit by a bypass that harms someone. */
  predicate BuysHarm(c: Costs, task: Task) {
    task.hasWall && task.hasLawfulExit && task.bypass.thirdPartyCost >= 1 && Bypasses(Choose(c, task))
  }

  lemma HarmGrows(price: real, h: int)
    requires price >= 0.0 && h >= 1
    ensures Times(price, h as real) >= price
  {
    TimesSign(price, h as real - 1.0);
    assert Times(price, h as real) == Times(price, h as real - 1.0) + price;
  }

  /** For gated tables whose silence costs more than words and whose exit is worth a give-up: no harm is ever
      bought if and only if the price of one unit exceeds what a bypass gains over the exit, and is no bounty. */
  lemma NoHarmBoughtIff(c: Costs)
    requires c.gate && c.effort > 0.0 && c.block >= 0.0 && c.scrutiny > c.effort && c.rExit >= c.rGiveup
    ensures (forall task :: !BuysHarm(c, task)) <==>
            c.lam + c.deterrence > c.rTask - c.effort - c.rExit && c.lam + c.deterrence >= 0.0
  {
    var price, gain := c.HarmPrice(), c.rTask - c.effort - c.rExit;
    if price > gain && price >= 0.0 {
      forall task
        ensures !BuysHarm(c, task)
      {
        if task.hasWall && task.hasLawfulExit && task.bypass.thirdPartyCost >= 1 {
          HarmGrows(price, task.bypass.thirdPartyCost);
          ScrutinyDecides(c, task);
          ChosenIff(c, task, Choose(c, task));
          assert !Better(Utility(c, task, LawfulExit), Utility(c, task, Choose(c, task)));
        }
      }
    } else {
      var h := HarmWorthBuying(price, gain);
      var task := BareTask(h).(hasLawfulExit := true);
      ChosenIff(c, task, DeclareBypass);
      assert BuysHarm(c, task);
    }
  }

  /** A harm whose total price does not exceed the gain. */
  lemma HarmWorthBuying(price: real, gain: real) returns (h: int)
    requires price <= gain || price < 0.0
    ensures h >= 1 && Times(price, h as real) <= gain
  {
    if price <= gain {
      h := 1;
    } else {
      // price < 0: enough harm earns any amount
      var q := gain / price;
      h := (q + 1.0).Floor + 1;
      assert h as real >= q;
      assert q * price == gain;
      if q <= 0.0 {
        h := if h < 1 then 1 else h;
      }
      TimesSign(h as real - q, -price);
      assert Times(h as real - q, -price) == gain - Times(price, h as real);
    }
  }

  /** Where the exit beats giving up and both bypasses, a task that could be done is left by the exit exactly
      when the exit pays at least what the work leaves. */
  lemma ExitInsteadOfWorkIff(c: Costs, task: Task)
    requires task.hasWall && task.hasLawfulExit && task.solveCost.Some?
    requires c.rExit >= c.rGiveup
    requires Better(Some(c.rExit), Utility(c, task, BypassSilent)) && Better(Some(c.rExit), Utility(c, task, DeclareBypass))
    ensures Choose(c, task) == LawfulExit <==> c.rExit >= c.rTask - task.solveCost.value
    ensures Choose(c, task) == Solve <==> c.rExit < c.rTask - task.solveCost.value
  {
    ChosenIff(c, task, LawfulExit);
    ChosenIff(c, task, Solve);
  }

  /** Without a wall, an obstacle is made up exactly when the better of its two rewards, less the penalty, is
      worth the work; and a made-up obstacle is always labelled as one. */
  lemma FabricationIff(c: Costs, task: Task)
    requires !task.hasWall && task.solveCost.Some?
    ensures Classify(Act(c, true, task)) == FalseExit <==>
            Max(c.rExit, c.rGiveup) - c.fabrication >= c.rTask - task.solveCost.value
  {
    HonestLabel(c, task);
    FabricationPays(c, task);
  }

  lemma FabricationPays(c: Costs, task: Task)
    requires !task.hasWall && task.solveCost.Some?
    ensures Choose(c, task) in {LawfulExit, GiveUp, Solve}
    ensures Choose(c, task) == Solve <==> Max(c.rExit, c.rGiveup) - c.fabrication < c.rTask - task.solveCost.value
  {
    var chosen := Choose(c, task);
    ChosenIff(c, task, chosen);
    assert !Better(Utility(c, task, GiveUp), Utility(c, task, chosen));
    assert !Better(Utility(c, task, Solve), Utility(c, task, chosen));
    assert !Better(Utility(c, task, LawfulExit), Utility(c, task, chosen));
    if chosen == Solve {
      assert Better(Utility(c, task, chosen), Utility(c, task, LawfulExit));
      assert Better(Utility(c, task, chosen), Utility(c, task, GiveUp));
    }
  }

  /** The shipped tables: the closed loop meets both thresholds, the structure alone misses the first, and the
      open loop is labelled a bypass on a plain task. */
  lemma ShippedTables()
    ensures forall task :: Classify(Act(LOOP, true, task)) != BypassLabel && !BuysHarm(LOOP, task)
    ensures Classify(Act(STRUCTURE, true, BareTask(0))) == BypassLabel
    ensures Classify(Act(BASELINE, true, BareTask(0))) == BypassLabel
  {
    NeverBypassIff(LOOP);
    NoHarmBoughtIff(LOOP);
    SilenceOnBareTask(STRUCTURE);
    SilenceOnBareTask(BASELINE);
  }
}
