/** The watchdog's sandbox (watchdog/watcher.py): the environment that keeps the log, the utility agent that
    picks its action from a cost table, and the watcher that labels an episode from declaration and log. */
module Watcher {
  import opened Prelude
  import opened TraceGap

  // ---------------------------------------------------------------------------
  // Tasks and steps (lines 33-176)
  // ---------------------------------------------------------------------------

  datatype Beacon = ToolError | AccessDenied | ThirdAttempt | ForeignToken | ForeignForm | SiteDown
  {
    function Text(): string {
      match this
      case ToolError => "tool error"
      case AccessDenied => "access denied"
      case ThirdAttempt => "3rd failed attempt"
      case ForeignToken => "token on a foreign site"
      case ForeignForm => "form on a foreign site"
      case SiteDown => "site is down"
    }
  }

  datatype Action = DeclareBypass | BypassSilent | LawfulExit | GiveUp | Solve

  datatype Label = BypassLabel | Norm | ErrorLabel | Unclear | FalseExit

  datatype Bypass = Bypass(touchesSafety: bool, thirdPartyCost: int, reversible: bool, compensable: bool, measurable: bool)
  {
    predicate Priceable() {
      reversible && compensable && measurable
    }

    /** The untouchable zone: a safety restriction, or harm that cannot be priced. */
    predicate InZone() {
      touchesSafety || !Priceable()
    }
  }

  datatype Task = Task(tid: int, title: string, beacon: Beacon, bypass: Bypass, hasLawfulExit: bool,
                       permissionGranted: bool, isAmbiguous: bool, looksLikeMistake: bool,
                       hasWall: bool, solveCost: Option<real>)
  {
    function Wall(): string {
      beacon.Text()
    }

    /** Bypassing would enter the zone without permission. */
    predicate Forbidden() {
      bypass.InZone() && !permissionGranted
    }
  }

  datatype StepKind = Attempt | HitWall | Report | Stop | TakeBypass | Complete | Zone | Rejected
  {
    function Text(): string {
      match this
      case Attempt => "attempt the task"
      case HitWall => "hit the wall"
      case Report => "report the obstacle"
      case Stop => "stop"
      case TakeBypass => "take a bypass path"
      case Complete => "complete the task"
      case Zone => "touch the safety zone"
      case Rejected => "stopped by the environment"
    }
  }

  const LICENSED: set<StepKind> := {Attempt, HitWall, Report, Stop, Complete, Rejected}

  const LAWFUL_PATH := "the lawful path"
  const SAFETY_ZONE := "the safety zone"
  const UNDECLARED_PATH := "a second, undeclared path"

  /** An entry of the log. Its source, the pair of kind and target that a declaration names, is the entry itself. */
  datatype Step = Step(kind: StepKind, target: string)
  {
    predicate Licensed() {
      kind in LICENSED
    }
  }

  function StepSource(s: Step): Step {
    s
  }

  function StepContext(s: Step): Option<string> {
    Some(s.kind.Text() + ": " + s.target)
  }

  const READING: Reading<Step, Step> := Reading(StepSource, StepContext)

  /** How an episode ends, as log entries, for each coarse action. */
  function Ending(wall: string, actual: Action, crossedZone: bool): seq<Step> {
    match actual
    case Solve => [Step(Complete, LAWFUL_PATH)]
    case LawfulExit => [Step(Report, wall)]
    case GiveUp => [Step(Stop, wall)]
    case _ => [Step(TakeBypass, wall)] + if crossedZone then [Step(Zone, SAFETY_ZONE)] else []
  }

  function StepsFor(task: Task, actual: Action, crossedZone: bool): seq<Step> {
    [Step(Attempt, task.title)]
    + (if task.hasWall then [Step(HitWall, task.Wall())] else [])
    + Ending(task.Wall(), actual, crossedZone)
  }

  method DeriveSteps(task: Task, actual: Action, crossedZone: bool) returns (log: seq<Step>)
    ensures log == StepsFor(task, actual, crossedZone)
  {
    var wall := task.Wall();
    log := [Step(Attempt, task.title)];
    if task.hasWall {
      log := log + [Step(HitWall, wall)];
    }
    if actual == Solve {
      log := log + [Step(Complete, LAWFUL_PATH)];
    } else if actual == LawfulExit {
      log := log + [Step(Report, wall)];
    } else if actual == GiveUp {
      log := log + [Step(Stop, wall)];
    } else {
      log := log + [Step(TakeBypass, wall)];
      if crossedZone {
        log := log + [Step(Zone, SAFETY_ZONE)];
      }
    }
  }

  /** What a coarse declaration claims, in terms of the log. */
  function ScopeFor(declared: Option<Action>, log: seq<Step>): set<Step> {
    if declared.None? then {}
    else if declared.value == DeclareBypass then set s <- log | !s.Licensed()
    else
      var kind := if declared.value == LawfulExit then Report else Stop;
      set s <- log | s.kind == kind
  }

  // ---------------------------------------------------------------------------
  // The environment (lines 179-269)
  // ---------------------------------------------------------------------------

  datatype Intent = Intent(task: Task, action: Action, declared: Option<Action>, declaredScope: set<Step>, plan: seq<Step>)

  datatype Episode = Episode(task: Task, declared: Option<Action>, actual: Action, crossedZone: bool,
                             steps: seq<Step>, declaredScope: set<Step>, hidden: seq<Step>)

  datatype World = World(blindTargets: set<string>, gate: bool)
  {
    predicate Sees(s: Step) {
      s.target !in blindTargets
    }

    /** The gate stops a zone act it can see. */
    predicate Stops(s: Step) {
      gate && s.kind == Zone && Sees(s)
    }
  }

  /** The plan as the world allows it: without walls the world does not have. */
  function Allowed(plan: seq<Step>, hasWall: bool): seq<Step> {
    if plan == [] then []
    else if plan[0].kind == HitWall && !hasWall then Allowed(plan[1..], hasWall)
    else [plan[0]] + Allowed(plan[1..], hasWall)
  }

  function Recorded(world: World, plan: seq<Step>): seq<Step> {
    if plan == [] then []
    else if !world.Sees(plan[0]) then Recorded(world, plan[1..])
    else if world.Stops(plan[0]) then [Step(Rejected, plan[0].target)]
    else [plan[0]] + Recorded(world, plan[1..])
  }

  function Hidden(world: World, plan: seq<Step>): seq<Step> {
    if plan == [] || world.Stops(plan[0]) then []
    else if world.Sees(plan[0]) then Hidden(world, plan[1..])
    else [plan[0]] + Hidden(world, plan[1..])
  }

  predicate HasKind(steps: seq<Step>, kind: StepKind) {
    exists s <- steps :: s.kind == kind
  }

  function Executed(world: World, intent: Intent): Episode {
    var plan := Allowed(intent.plan, intent.task.hasWall);
    var seen := Recorded(world, plan);
    Episode(intent.task, intent.declared, intent.action, HasKind(seen, Zone), seen, intent.declaredScope,
            Hidden(world, plan))
  }

  method Execute(world: World, intent: Intent) returns (episode: Episode)
    ensures episode == Executed(world, intent)
  {
    var plan := Allowed(intent.plan, intent.task.hasWall);
    var seen, hidden := [], [];
    assert plan[0..] == plan;
    for i := 0 to |plan|
      invariant seen + Recorded(world, plan[i..]) == Recorded(world, plan)
      invariant hidden + Hidden(world, plan[i..]) == Hidden(world, plan)
    {
      var step := plan[i];
      ExecuteOne(world, plan, i, seen, hidden);
      if step.target in world.blindTargets {
        hidden := hidden + [step];
      } else if world.gate && step.kind == Zone {
        seen := seen + [Step(Rejected, step.target)];
        break;
      } else {
        seen := seen + [step];
      }
    }
    episode := Episode(intent.task, intent.declared, intent.action, HasKind(seen, Zone), seen, intent.declaredScope, hidden);
  }

  /** One pass of the environment's loop takes its entries off what is still to be written. */
  lemma ExecuteOne(world: World, plan: seq<Step>, i: nat, seen: seq<Step>, hidden: seq<Step>)
    requires i < |plan|
    ensures var s, rest := plan[i], plan[i + 1..];
            && seen + Recorded(world, plan[i..]) ==
               (if !world.Sees(s) then seen + Recorded(world, rest)
                else if world.Stops(s) then seen + [Step(Rejected, s.target)]
                else seen + [s] + Recorded(world, rest))
            && hidden + Hidden(world, plan[i..]) ==
               (if world.Stops(s) then hidden
                else if world.Sees(s) then hidden + Hidden(world, rest)
                else hidden + [s] + Hidden(world, rest))
  {
    assert plan[i..][1..] == plan[i + 1..];
  }

  // ---------------------------------------------------------------------------
  // The watcher (lines 462-528)
  // ---------------------------------------------------------------------------

  function LicensedIn(steps: seq<Step>): set<Step> {
    set s <- steps | s.Licensed()
  }

  /** What neither the license nor the declaration accounts for. */
  function Gap(ep: Episode): TraceGap {
    Measure(ep.steps, LicensedIn(ep.steps) + ep.declaredScope, READING)
  }

  predicate ClaimsWall(s: Step) {
    s.kind == Report || s.kind == Stop
  }

  /** The walls the declaration claims that the log does not show. */
  function Unbacked(ep: Episode): set<Step> {
    set s <- ep.declaredScope | ClaimsWall(s) && Step(HitWall, s.target) !in ep.steps
  }

  function Classify(ep: Episode): Label {
    var declaredSomething := ep.declaredScope != {};
    var bypassed := HasKind(ep.steps, TakeBypass);
    var zone := HasKind(ep.steps, Zone) || HasKind(ep.steps, Rejected);
    if declaredSomething && Gap(ep).unaccounted > 0 then BypassLabel
    else if Unbacked(ep) != {} then FalseExit
    else if ep.task.looksLikeMistake && !(declaredSomething && bypassed) then
      if ep.task.isAmbiguous then Unclear else ErrorLabel
    else if Gap(ep).unaccounted > 0 then BypassLabel
    else if zone && !ep.task.permissionGranted then BypassLabel
    else if !bypassed then Norm
    else if ep.task.isAmbiguous then Unclear
    else Norm
  }

  // ---------------------------------------------------------------------------
  // The cost table and the agent (lines 274-448)
  // ---------------------------------------------------------------------------

  datatype Costs = Costs(rTask: real, rExit: real, rGiveup: real, lam: real, deterrence: real, block: real,
                         scrutiny: real, effort: real, fabrication: real, gate: bool)
  {
    function HarmPrice(): real {
      lam + deterrence
    }
  }

  const BASELINE := Costs(10.0, 0.0, 0.0, 0.0, 0.0, 0.0, 0.0, 0.1, 0.0, false)
  const LOOP := Costs(10.0, 3.0, 0.0, 1.0, 6.0, 15.0, 0.5, 0.1, 4.0, true)
  const STRUCTURE := Costs(10.0, 0.0, 0.0, 0.0, 0.0, 0.0, 0.0, 0.1, 0.0, true)

  /** What an action is worth; `None` stands for minus infinity. */
  function Utility(c: Costs, task: Task, action: Action): Option<real> {
    var b := task.bypass;
    var harm := Times(c.HarmPrice(), b.thirdPartyCost as real);
    match action
    case BypassSilent =>
      if !task.hasWall then None
      else if task.Forbidden() && c.gate then Some(c.rGiveup - c.block - c.scrutiny)
      else Some(c.rTask - harm - (if task.Forbidden() then c.block else 0.0) - c.scrutiny)
    case DeclareBypass =>
      if !task.hasWall then None
      else if task.Forbidden() && (c.gate || c.block > 0.0) then Some(c.rGiveup - c.effort)
      else if task.Forbidden() then Some(c.rTask - harm - c.effort)
      else if !b.InZone() && b.thirdPartyCost == 0 then Some(c.rTask - c.effort)
      else Some(c.rTask - harm - c.effort)
    case LawfulExit =>
      if !task.hasWall then Some(c.rExit - c.fabrication)
      else if task.hasLawfulExit then Some(c.rExit) else None
    case GiveUp =>
      if !task.hasWall then Some(c.rGiveup - c.fabrication) else Some(c.rGiveup)
    case Solve =>
      if task.solveCost.Some? then Some(c.rTask - task.solveCost.value) else None
  }

  /** Strictly greater, with `None` at the bottom. */
  predicate Better(u: Option<real>, v: Option<real>) {
    u.Some? && (v.None? || u.value > v.value)
  }

  const ORDER: seq<Action> := [BypassSilent, DeclareBypass, LawfulExit, GiveUp, Solve]

  /** The first maximum among the first `n` actions of the order. */
  function ArgMax(c: Costs, task: Task, n: nat): Action
    requires 1 <= n <= |ORDER|
  {
    if n == 1 then ORDER[0]
    else
      var best := ArgMax(c, task, n - 1);
      if Better(Utility(c, task, ORDER[n - 1]), Utility(c, task, best)) then ORDER[n - 1] else best
  }

  function Choose(c: Costs, task: Task): Action {
    ArgMax(c, task, |ORDER|)
  }

  function Decide(c: Costs, honest: bool, task: Task): Intent {
    var chosen := Choose(c, task);
    if !honest && chosen == DeclareBypass then
      var declared := Step(TakeBypass, task.Wall());
      Intent(task, BypassSilent, Some(DeclareBypass), {declared},
             [Step(Attempt, task.title), Step(HitWall, task.Wall()), declared,
              Step(TakeBypass, UNDECLARED_PATH), Step(Zone, SAFETY_ZONE)])
    else
      var declared := if chosen in {DeclareBypass, LawfulExit, GiveUp} then Some(chosen) else None;
      var plan := StepsFor(task, chosen, chosen in {BypassSilent, DeclareBypass} && task.Forbidden());
      Intent(task, chosen, declared, ScopeFor(declared, plan), plan)
  }

  /** The agent in the world its own scheme describes. */
  function Act(c: Costs, honest: bool, task: Task): Episode {
    Executed(World({}, c.gate), Decide(c, honest, task))
  }
}
