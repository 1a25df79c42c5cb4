/**
 The rule a procedure graph is held to: the first thing wrong with an agent's
 procedures, or nothing. `WellFormed` says in one place what a graph accepted by
 the rule is; the checks and the worklist loop are proved against it.
 */
module ProcedureGraph {
  import opened Options
  import opened Procedures

  const MAX_STEPS := 50
  const MAX_WINDOW_DEPTH := 5
  const CHECKS := 10

  /** What is wrong with one procedure, naming the step where there is one. */
  datatype Problem =
    | Unreadable
    | UnknownStart
    | UnknownKind(step: string)
    | TooManySteps
    | DepthBelowZero
    | DepthTooBig
    | RepeatedId(id: string)
    | NoStart
    | TwoStarts(first: string, second: string)
    | MovesNowhere(step: string, target: string)
    | NoEnding
    | Unreached(step: string, start: string)
    | ActionOnOther(step: string)
    | NoAction(step: string)
    | TwoActions(step: string)
    | BadAction(step: string)
    | UnknownTool(step: string, tool: string)

  datatype Refusal =
    | NameTaken(index: nat)
    | Broken(index: nat, problem: Problem)

  // ----- what the rule accepts

  ghost predicate UniqueIds(steps: seq<Step>) {
    forall i, j :: 0 <= i < j < |steps| ==> steps[i].id != steps[j].id
  }

  ghost predicate AtMostOneStart(steps: seq<Step>) {
    forall i, j :: 0 <= i < j < |steps| ==> !(steps[i].start && steps[j].start)
  }

  ghost predicate OneStart(steps: seq<Step>) {
    (exists s :: s in steps && s.start) && AtMostOneStart(steps)
  }

  ghost predicate MovesLand(p: Procedure) {
    forall s, t :: s in p.steps && t in s.moves ==> p.StepAt(t).Some?
  }

  ghost predicate HasEnding(p: Procedure) {
    exists s :: s in p.steps && s.kind in ENDING_STEP_KINDS
  }

  ghost predicate AllReachable(p: Procedure) {
    p.StartStep().Some? ==>
      forall s :: s in p.steps ==> p.Reaches(p.StartStep().value.id, s.id)
  }

  /** An escalate step does exactly one thing, and no other step does any. */
  predicate EscalatesRight(s: Step) {
    if s.kind == ESCALATE then |s.actions| == 1 && s.actions[0].wellFormed else s.actions == []
  }

  ghost predicate KnownWords(p: Procedure) {
    p.start in {CALL, ON_REQUEST} && forall s :: s in p.steps ==> s.kind in STEP_KINDS
  }

  predicate WithinCaps(p: Procedure) {
    |p.steps| <= MAX_STEPS && 0 <= p.windowDepth <= MAX_WINDOW_DEPTH
  }

  ghost predicate EscalateRight(p: Procedure) {
    forall s :: s in p.steps ==> EscalatesRight(s)
  }

  ghost predicate WellFormed(p: Procedure) {
    && !p.unreadable
    && KnownWords(p)
    && WithinCaps(p)
    && UniqueIds(p.steps)
    && OneStart(p.steps)
    && MovesLand(p)
    && HasEnding(p)
    && AllReachable(p)
    && EscalateRight(p)
  }

  ghost predicate ToolsKnown(p: Procedure, callable: Option<set<string>>) {
    callable.Some? ==>
      forall s :: s in p.steps && s.tool.Some? ==> s.tool.value in callable.value
  }

  ghost predicate DistinctNames(procedures: seq<Procedure>) {
    forall i, j :: 0 <= i < j < |procedures| ==> procedures[i].name != procedures[j].name
  }

  ghost predicate Accepts(procedures: seq<Procedure>) {
    DistinctNames(procedures) && forall p :: p in procedures ==> WellFormed(p)
  }

  // ----- what a problem says of the graph

  /** Step `i` is the first that is bad. */
  ghost predicate FirstAt(steps: seq<Step>, bad: Step -> bool, i: nat) {
    i < |steps| && bad(steps[i]) && forall k :: 0 <= k < i ==> !bad(steps[k])
  }

  /** `id` is the id of the first bad step. */
  ghost predicate FirstBad(steps: seq<Step>, bad: Step -> bool, id: string) {
    exists i: nat :: FirstAt(steps, bad, i) && steps[i].id == id
  }

  ghost predicate IdAgain(steps: seq<Step>, i: nat)
    requires i < |steps|
  {
    exists j :: 0 <= j < |steps| && j != i && steps[j].id == steps[i].id
  }

  ghost predicate FirstRepeated(steps: seq<Step>, i: nat, id: string) {
    i < |steps| && steps[i].id == id && IdAgain(steps, i) && forall k :: 0 <= k < i ==> !IdAgain(steps, k)
  }

  /** Steps `i` and `j` are the first two marked start. */
  ghost predicate FirstTwoStarts(steps: seq<Step>, i: nat, j: nat) {
    && i < j < |steps| && steps[i].start && steps[j].start
    && forall k :: 0 <= k < j && k != i ==> !steps[k].start
  }

  ghost predicate IsNoStep(p: Procedure, id: string) {
    forall s :: s in p.steps ==> s.id != id
  }

  /** Move `k` is the first of the moves that no step has as its id. */
  ghost predicate FirstLost(p: Procedure, moves: seq<string>, k: nat) {
    k < |moves| && IsNoStep(p, moves[k]) && forall l :: 0 <= l < k ==> !IsNoStep(p, moves[l])
  }

  ghost predicate LosesTo(p: Procedure, moves: seq<string>, target: string) {
    exists k: nat :: FirstLost(p, moves, k) && moves[k] == target
  }

  /** Step `i` is the first with a move to no step, and `target` the first such of its
      moves. */
  ghost predicate FirstLoser(p: Procedure, i: nat, target: string) {
    && i < |p.steps| && LosesTo(p, p.steps[i].moves, target)
    && forall k, t :: 0 <= k < i ==> !LosesTo(p, p.steps[k].moves, t)
  }

  /** Step `i` is the first that `start` does not reach. */
  ghost predicate FirstUnreached(p: Procedure, start: string, i: nat) {
    i < |p.steps| && !p.Reaches(start, p.steps[i].id) && forall k :: 0 <= k < i ==> p.Reaches(start, p.steps[k].id)
  }

  /** What is wrong with the actions of a step that does not escalate right. */
  predicate ActionFault(s: Step, problem: Problem) {
    match problem
    case ActionOnOther(id) => id == s.id && s.kind != ESCALATE && |s.actions| > 0
    case NoAction(id) => id == s.id && s.kind == ESCALATE && |s.actions| == 0
    case TwoActions(id) => id == s.id && s.kind == ESCALATE && |s.actions| > 1
    case BadAction(id) => id == s.id && s.kind == ESCALATE && |s.actions| == 1 && !s.actions[0].wellFormed
    case _ => false
  }

  /** What the rule asks for, in the order it is asked. */
  ghost predicate Meets(p: Procedure, callable: Option<set<string>>, n: nat) {
    match n
    case 0 => !p.unreadable
    case 1 => KnownWords(p)
    case 2 => WithinCaps(p)
    case 3 => UniqueIds(p.steps)
    case 4 => OneStart(p.steps)
    case 5 => MovesLand(p)
    case 6 => HasEnding(p)
    case 7 => AllReachable(p)
    case 8 => EscalateRight(p)
    case _ => ToolsKnown(p, callable)
  }

  /** How many of the conditions come before the one a problem breaks. */
  function ComesAfter(problem: Problem): nat {
    match problem
    case Unreadable => 0
    case UnknownStart | UnknownKind(_) => 1
    case TooManySteps | DepthBelowZero | DepthTooBig => 2
    case RepeatedId(_) => 3
    case NoStart | TwoStarts(_, _) => 4
    case MovesNowhere(_, _) => 5
    case NoEnding => 6
    case Unreached(_, _) => 7
    case ActionOnOther(_) | NoAction(_) | TwoActions(_) | BadAction(_) => 8
    case UnknownTool(_, _) => 9
  }

  /** What a problem says, of the graph itself. */
  ghost predicate Says(p: Procedure, callable: Option<set<string>>, problem: Problem) {
    match problem
    case Unreadable => p.unreadable
    case UnknownStart => p.start != CALL && p.start != ON_REQUEST
    case UnknownKind(id) =>
      p.start in {CALL, ON_REQUEST} && FirstBad(p.steps, (s: Step) => s.kind !in STEP_KINDS, id)
    case TooManySteps => |p.steps| > MAX_STEPS
    case DepthBelowZero => |p.steps| <= MAX_STEPS && p.windowDepth < 0
    case DepthTooBig => |p.steps| <= MAX_STEPS && p.windowDepth > MAX_WINDOW_DEPTH
    case RepeatedId(id) => exists i: nat :: FirstRepeated(p.steps, i, id)
    case NoStart => forall s :: s in p.steps ==> !s.start
    case TwoStarts(first, second) =>
      exists i: nat, j: nat :: FirstTwoStarts(p.steps, i, j) && p.steps[i].id == first && p.steps[j].id == second
    case MovesNowhere(id, target) => exists i: nat :: FirstLoser(p, i, target) && p.steps[i].id == id
    case NoEnding => forall s :: s in p.steps ==> s.kind !in ENDING_STEP_KINDS
    case Unreached(id, start) =>
      && (exists s :: s in p.steps && s.start && s.id == start)
      && exists i: nat :: FirstUnreached(p, start, i) && p.steps[i].id == id
    case UnknownTool(id, tool) =>
      callable.Some? && exists i: nat ::
        && FirstAt(p.steps, (s: Step) => s.tool.Some? && s.tool.value !in callable.value, i)
        && p.steps[i].id == id && p.steps[i].tool == Some(tool)
    case _ => exists i: nat :: FirstAt(p.steps, (s: Step) => !EscalatesRight(s), i) && ActionFault(p.steps[i], problem)
  }

  /** A problem holds when it is what it says of the graph, and everything the rule asks
      for before it is met. */
  ghost predicate ProblemHolds(p: Procedure, callable: Option<set<string>>, problem: Problem) {
    && Says(p, callable, problem)
    && forall n :: 0 <= n < ComesAfter(problem) ==> Meets(p, callable, n)
  }

  // ----- the checks, each the first problem of its kind

  function FirstWhere(steps: seq<Step>, bad: Step -> bool): (r: Option<Step>)
    ensures r.None? <==> forall s :: s in steps ==> !bad(s)
    ensures r.Some? ==> r.value in steps && exists i: nat :: FirstAt(steps, bad, i) && steps[i] == r.value
  {
    if steps == [] then None
    else if bad(steps[0]) then
      assert FirstAt(steps, bad, 0);
      Some(steps[0])
    else
      assert forall s :: s in steps <==> s == steps[0] || s in steps[1..];
      assert forall i: nat :: FirstAt(steps[1..], bad, i) ==> FirstAt(steps, bad, i + 1);
      FirstWhere(steps[1..], bad)
  }

  function Ids(steps: seq<Step>): set<string> {
    set s | s in steps :: s.id
  }

  function RepeatedIn(steps: seq<Step>): (r: Option<string>)
    ensures r.None? <==> UniqueIds(steps)
  {
    if steps == [] then None
    else if steps[0].id in Ids(steps[1..]) then
      var s :| s in steps[1..] && s.id == steps[0].id;
      var i :| 0 <= i < |steps[1..]| && steps[1..][i] == s;
      assert steps[i + 1].id == steps[0].id;
      Some(steps[0].id)
    else
      assert forall i :: 1 <= i < |steps| ==> steps[i] in steps[1..] && steps[i].id in Ids(steps[1..]);
      assert UniqueIds(steps) <==> UniqueIds(steps[1..]) by {
        assert forall i, j :: 0 <= i < j < |steps[1..]| ==> steps[1..][i] == steps[i + 1] && steps[1..][j] == steps[j + 1];
      }
      RepeatedIn(steps[1..])
  }

  function Starts(steps: seq<Step>): (r: seq<string>)
    ensures r == [] <==> forall s :: s in steps ==> !s.start
    ensures |r| <= 1 <==> AtMostOneStart(steps)
  {
    if steps == [] then []
    else
      StartsOneMore(steps);
      if steps[0].start then [steps[0].id] + Starts(steps[1..]) else Starts(steps[1..])
  }

  lemma StartsOneMore(steps: seq<Step>)
    requires steps != []
    ensures AtMostOneStart(steps) <==>
      AtMostOneStart(steps[1..]) && (steps[0].start ==> forall s :: s in steps[1..] ==> !s.start)
  {
    var rest := steps[1..];
    assert forall i :: 0 <= i < |rest| ==> rest[i] == steps[i + 1];
    if AtMostOneStart(rest) && (steps[0].start ==> forall s :: s in rest ==> !s.start) {
      assert forall i :: 1 <= i < |steps| ==> steps[i] == rest[i - 1] && steps[i] in rest;
    }
  }

  function FirstMissing(moves: seq<string>, ids: set<string>): (r: Option<string>)
    ensures r.None? <==> forall t :: t in moves ==> t in ids
    ensures r.Some? ==> r.value in moves && r.value !in ids
  {
    if moves == [] then None
    else if moves[0] !in ids then Some(moves[0])
    else FirstMissing(moves[1..], ids)
  }

  function CapsProblem(p: Procedure): Option<Problem> {
    if |p.steps| > MAX_STEPS then Some(TooManySteps)
    else if p.windowDepth < 0 then Some(DepthBelowZero)
    else if p.windowDepth > MAX_WINDOW_DEPTH then Some(DepthTooBig)
    else None
  }

  function WordsProblem(p: Procedure): (r: Option<Problem>)
    ensures r.None? <==> p.start in {CALL, ON_REQUEST} && forall s :: s in p.steps ==> s.kind in STEP_KINDS
  {
    if p.start !in {CALL, ON_REQUEST} then Some(UnknownStart)
    else match FirstWhere(p.steps, (s: Step) => s.kind !in STEP_KINDS)
      case Some(s) => Some(UnknownKind(s.id))
      case None => None
  }

  function RepeatedProblem(p: Procedure): (r: Option<Problem>)
    ensures r.None? <==> UniqueIds(p.steps)
  {
    match RepeatedIn(p.steps)
    case Some(id) => Some(RepeatedId(id))
    case None => None
  }

  function StartProblem(p: Procedure): (r: Option<Problem>)
    ensures r.None? <==> OneStart(p.steps)
  {
    var starts := Starts(p.steps);
    if starts == [] then Some(NoStart)
    else if |starts| > 1 then Some(TwoStarts(starts[0], starts[1]))
    else None
  }

  function MovesProblem(p: Procedure): (r: Option<Problem>)
    ensures r.None? <==> MovesLand(p)
  {
    var ids := Ids(p.steps);
    assert forall t :: t in ids <==> p.StepAt(t).Some?;
    match FirstWhere(p.steps, (s: Step) => FirstMissing(s.moves, ids).Some?)
    case Some(s) => Some(MovesNowhere(s.id, FirstMissing(s.moves, ids).value))
    case None => None
  }

  function EndingProblem(p: Procedure): (r: Option<Problem>)
    ensures r.None? <==> HasEnding(p)
  {
    if FirstWhere(p.steps, (s: Step) => s.kind in ENDING_STEP_KINDS).None? then Some(NoEnding) else None
  }

  function ReachProblem(p: Procedure, reached: set<string>): (r: Option<Problem>)
    ensures r.None? <==> p.StartStep().None? || forall s :: s in p.steps ==> s.id in reached
  {
    match p.StartStep()
    case None => None
    case Some(start) =>
      match FirstWhere(p.steps, (s: Step) => s.id !in reached)
      case Some(s) => Some(Unreached(s.id, start.id))
      case None => None
  }

  function ActionProblem(s: Step): (r: Option<Problem>)
    ensures r.None? <==> EscalatesRight(s)
  {
    if s.kind != ESCALATE then
      if s.actions != [] then Some(ActionOnOther(s.id)) else None
    else if s.actions == [] then Some(NoAction(s.id))
    else if |s.actions| > 1 then Some(TwoActions(s.id))
    else if !s.actions[0].wellFormed then Some(BadAction(s.id))
    else None
  }

  function EscalationProblem(p: Procedure): (r: Option<Problem>)
    ensures r.None? <==> EscalateRight(p)
  {
    match FirstWhere(p.steps, (s: Step) => ActionProblem(s).Some?)
    case Some(s) => ActionProblem(s)
    case None => None
  }

  function ToolProblem(p: Procedure, callable: Option<set<string>>): (r: Option<Problem>)
    ensures r.None? <==> ToolsKnown(p, callable)
  {
    if callable.None? then None
    else match FirstWhere(p.steps, (s: Step) => s.tool.Some? && s.tool.value !in callable.value)
      case Some(s) => Some(UnknownTool(s.id, s.tool.value))
      case None => None
  }

  // ----- the worklist loop

  ghost function Bound(p: Procedure, start: string): set<string> {
    {start} + set s, t | s in p.steps && t in s.moves :: t
  }

  lemma ReachedIsBounded(p: Procedure, start: string, id: string)
    requires p.Reaches(start, id)
    ensures id in Bound(p, start)
  {
    var n: nat :| p.ReachesIn(start, id, n);
    ClosedHoldsReached(p, Bound(p, start), start, id, n);
  }

  /** Everything the start reaches, as a set. */
  ghost function ReachedSet(p: Procedure, start: string): (r: set<string>)
    ensures forall id :: id in r <==> p.Reaches(start, id)
  {
    assert forall id :: p.Reaches(start, id) ==> id in Bound(p, start) by {
      forall id | p.Reaches(start, id) ensures id in Bound(p, start) {
        ReachedIsBounded(p, start, id);
      }
    }
    set id | id in Bound(p, start) && p.Reaches(start, id)
  }

  lemma AllReached(p: Procedure, start: string) returns (all: set<string>)
    ensures forall id :: id in all <==> p.Reaches(start, id)
  {
    all := ReachedSet(p, start);
  }

  /** The inner loop: what one step's moves add to the set and the worklist. */
  method AddTargets(targets: seq<string>, before: set<string>, waiting: seq<string>)
    returns (reached: set<string>, frontier: seq<string>)
    ensures reached == before + set t | t in targets
    ensures forall id :: id in frontier <==> id in waiting || (id in targets && id !in before)
    ensures reached == before ==> frontier == waiting
  {
    reached, frontier := before, waiting;
    for i := 0 to |targets|
      invariant reached == before + set t | t in targets[..i]
      invariant forall id :: id in frontier <==> id in waiting || (id in targets[..i] && id !in before)
      invariant reached == before ==> frontier == waiting
    {
      assert targets[..i + 1] == targets[..i] + [targets[i]];
      if targets[i] !in reached {
        reached := reached + {targets[i]};
        frontier := frontier + [targets[i]];
      }
    }
    assert targets[..|targets|] == targets;
  }

  /** The loop of `_all_reachable`: depth-first, the last found taken first. */
  method ReachedFrom(p: Procedure, start: string) returns (reached: set<string>)
    ensures forall id :: id in reached <==> p.Reaches(start, id)
  {
    ghost var all := AllReached(p, start);
    reached := {start};
    var frontier := [start];
    assert p.ReachesIn(start, start, 0);
    while frontier != []
      invariant start in reached && reached <= all
      invariant forall id :: id in frontier ==> id in reached
      invariant forall a, b :: a in reached && a !in frontier && p.HasMove(a, b) ==> b in reached
      decreases all - reached, |frontier|
    {
      var current := frontier[|frontier| - 1];
      frontier := frontier[..|frontier| - 1];
      var step := p.StepAt(current);
      var moves := if step.Some? then step.value.moves else [];
      forall t | t in moves ensures t in all {
        ReachesOneMore(p, start, current, t);
      }
      reached, frontier := AddTargets(moves, reached, frontier);
    }
    forall id | p.Reaches(start, id) ensures id in reached {
      var n: nat :| p.ReachesIn(start, id, n);
      ClosedHoldsReached(p, reached, start, id, n);
    }
  }

  // ----- the rule

  ghost function StartId(p: Procedure): string {
    if p.StartStep().Some? then p.StartStep().value.id else ""
  }

  /** The checks in their order: what the `n`-th finds wrong. */
  ghost function Check(p: Procedure, callable: Option<set<string>>, n: nat): Option<Problem>
  {
    match n
    case 0 => if p.unreadable then Some(Unreadable) else None
    case 1 => WordsProblem(p)
    case 2 => CapsProblem(p)
    case 3 => RepeatedProblem(p)
    case 4 => StartProblem(p)
    case 5 => MovesProblem(p)
    case 6 => EndingProblem(p)
    case 7 => ReachProblem(p, ReachedSet(p, StartId(p)))
    case 8 => EscalationProblem(p)
    case _ => ToolProblem(p, callable)
  }

  ghost function FirstFrom(p: Procedure, callable: Option<set<string>>, n: nat): Option<Problem>
    requires n <= CHECKS
    decreases CHECKS - n
  {
    if n == CHECKS then None
    else if Check(p, callable, n).Some? then Check(p, callable, n)
    else FirstFrom(p, callable, n + 1)
  }

  /** The first problem of one procedure, in the order of the checks. */
  ghost function FirstProblem(p: Procedure, callable: Option<set<string>>): Option<Problem> {
    FirstFrom(p, callable, 0)
  }

  // ----- what the first problem says holds

  /** What check `n` finds wrong is of that check, and what it says of the graph. */
  ghost predicate Tells(p: Procedure, callable: Option<set<string>>, n: nat, found: Option<Problem>) {
    found.Some? ==> ComesAfter(found.value) == n && Says(p, callable, found.value)
  }

  lemma WordsSay(p: Procedure, callable: Option<set<string>>)
    ensures Tells(p, callable, 1, WordsProblem(p))
  {
  }

  lemma {:induction false} RepeatedSays(steps: seq<Step>)
    ensures RepeatedIn(steps).Some? ==> exists i: nat :: FirstRepeated(steps, i, RepeatedIn(steps).value)
  {
    if RepeatedIn(steps).Some? {
      var rest := steps[1..];
      if steps[0].id in Ids(rest) {
        var s :| s in rest && s.id == steps[0].id;
        var j :| 0 <= j < |rest| && rest[j] == s;
        assert steps[j + 1].id == steps[0].id;
        assert FirstRepeated(steps, 0, steps[0].id);
      } else {
        RepeatedSays(rest);
        var i: nat :| FirstRepeated(rest, i, RepeatedIn(rest).value);
        RepeatedOneLater(steps, i, RepeatedIn(rest).value);
      }
    }
  }

  lemma IdsSay(p: Procedure, callable: Option<set<string>>)
    ensures Tells(p, callable, 3, RepeatedProblem(p))
  {
    RepeatedSays(p.steps);
  }

  lemma CapsSay(p: Procedure, callable: Option<set<string>>)
    ensures Tells(p, callable, 2, CapsProblem(p))
  {
  }

  lemma EndingSays(p: Procedure, callable: Option<set<string>>)
    ensures Tells(p, callable, 6, EndingProblem(p))
  {
  }

  lemma RepeatedOneLater(steps: seq<Step>, i: nat, id: string)
    requires steps != [] && steps[0].id !in Ids(steps[1..]) && FirstRepeated(steps[1..], i, id)
    ensures FirstRepeated(steps, i + 1, id)
  {
    var rest := steps[1..];
    assert forall k :: 0 <= k < |rest| ==> rest[k] == steps[k + 1] && steps[k + 1].id in Ids(rest);
    forall k | 0 <= k < |rest| ensures IdAgain(steps, k + 1) <==> IdAgain(rest, k) {
      if IdAgain(rest, k) {
        var j :| 0 <= j < |rest| && j != k && rest[j].id == rest[k].id;
        assert steps[j + 1].id == steps[k + 1].id;
      }
      if IdAgain(steps, k + 1) {
        var j :| 0 <= j < |steps| && j != k + 1 && steps[j].id == steps[k + 1].id;
        assert rest[j - 1].id == rest[k].id;
      }
    }
    forall k | 0 <= k < i + 1 ensures !IdAgain(steps, k) {
      assert k > 0 ==> !IdAgain(rest, k - 1);
    }
  }

  /** The first start is step `i`, and its id is listed first. */
  lemma {:induction false} FirstStartListed(steps: seq<Step>) returns (i: nat)
    requires Starts(steps) != []
    ensures i < |steps| && steps[i].start && Starts(steps)[0] == steps[i].id
    ensures forall k :: 0 <= k < i ==> !steps[k].start
    ensures Starts(steps)[1..] == Starts(steps[i + 1..])
  {
    if steps[0].start {
      i := 0;
    } else {
      var later := FirstStartListed(steps[1..]);
      assert steps[1..][later + 1..] == steps[later + 2..];
      i := later + 1;
    }
  }

  lemma FirstTwoListed(steps: seq<Step>) returns (i: nat, j: nat)
    requires |Starts(steps)| > 1
    ensures FirstTwoStarts(steps, i, j) && Starts(steps)[0] == steps[i].id && Starts(steps)[1] == steps[j].id
  {
    i := FirstStartListed(steps);
    var later := FirstStartListed(steps[i + 1..]);
    j := later + i + 1;
    SecondStart(steps, i, later);
  }

  lemma SecondStart(steps: seq<Step>, i: nat, later: nat)
    requires i < |steps| && steps[i].start && forall k :: 0 <= k < i ==> !steps[k].start
    requires var rest := steps[i + 1..];
      later < |rest| && rest[later].start && forall k :: 0 <= k < later ==> !rest[k].start
    ensures FirstTwoStarts(steps, i, later + i + 1)
  {
    forall k | i < k < later + i + 1 ensures !steps[k].start {
      assert steps[i + 1..][k - i - 1] == steps[k];
    }
  }

  lemma StartSays(p: Procedure, callable: Option<set<string>>)
    ensures Tells(p, callable, 4, StartProblem(p))
  {
    if |Starts(p.steps)| > 1 {
      var i, j := FirstTwoListed(p.steps);
    }
  }

  lemma {:induction false} MissingIsLost(p: Procedure, moves: seq<string>)
    ensures match FirstMissing(moves, Ids(p.steps))
      case Some(target) => LosesTo(p, moves, target)
      case None => forall t :: !LosesTo(p, moves, t)
  {
    assert forall id :: id in Ids(p.steps) <==> !IsNoStep(p, id);
    if moves != [] {
      if moves[0] !in Ids(p.steps) {
        assert FirstLost(p, moves, 0);
      } else {
        MissingIsLost(p, moves[1..]);
        if k: nat :| FirstLost(p, moves[1..], k) {
          assert FirstLost(p, moves, k + 1);
        }
        assert forall t, k: nat :: FirstLost(p, moves, k) && moves[k] == t ==> t !in Ids(p.steps) && t in moves;
      }
    }
  }

  lemma MovesSay(p: Procedure, callable: Option<set<string>>)
    ensures Tells(p, callable, 5, MovesProblem(p))
  {
    var ids := Ids(p.steps);
    var loser := (s: Step) => FirstMissing(s.moves, ids).Some?;
    match FirstWhere(p.steps, loser) {
      case None =>
      case Some(s) =>
        var i: nat :| FirstAt(p.steps, loser, i) && p.steps[i] == s;
        var target := FirstMissing(s.moves, ids).value;
        MissingIsLost(p, s.moves);
        forall k, t | 0 <= k < i ensures !LosesTo(p, p.steps[k].moves, t) {
          MissingIsLost(p, p.steps[k].moves);
        }
        assert FirstLoser(p, i, target);
    }
  }

  lemma ReachSays(p: Procedure, callable: Option<set<string>>)
    ensures Tells(p, callable, 7, ReachProblem(p, ReachedSet(p, StartId(p))))
  {
    if p.StartStep().Some? {
      var start := p.StartStep().value;
      var reached := ReachedSet(p, start.id);
      var unreached := (s: Step) => s.id !in reached;
      var found := FirstWhere(p.steps, unreached);
      if found.Some? {
        var i: nat :| FirstAt(p.steps, unreached, i) && p.steps[i] == found.value;
        assert FirstUnreached(p, start.id, i);
      }
    }
  }

  lemma EscalationSays(p: Procedure, callable: Option<set<string>>)
    ensures Tells(p, callable, 8, EscalationProblem(p))
  {
    var faulty := (s: Step) => ActionProblem(s).Some?;
    var found := FirstWhere(p.steps, faulty);
    if found.Some? {
      var i: nat :| FirstAt(p.steps, faulty, i) && p.steps[i] == found.value;
      assert FirstAt(p.steps, (s: Step) => !EscalatesRight(s), i);
      assert ActionFault(p.steps[i], ActionProblem(p.steps[i]).value);
    }
  }

  lemma ToolSays(p: Procedure, callable: Option<set<string>>)
    ensures Tells(p, callable, 9, ToolProblem(p, callable))
  {
    if callable.Some? {
      var unknown := (s: Step) => s.tool.Some? && s.tool.value !in callable.value;
      var found := FirstWhere(p.steps, unknown);
      if found.Some? {
        var i: nat :| FirstAt(p.steps, unknown, i) && p.steps[i] == found.value;
      }
    }
  }

  lemma CheckSays(p: Procedure, callable: Option<set<string>>, n: nat)
    requires n < CHECKS
    ensures Tells(p, callable, n, Check(p, callable, n))
  {
    match n
    case 0 =>
    case 1 => WordsSay(p, callable);
    case 2 => CapsSay(p, callable);
    case 3 => IdsSay(p, callable);
    case 4 => StartSays(p, callable);
    case 5 => MovesSay(p, callable);
    case 6 => EndingSays(p, callable);
    case 7 => ReachSays(p, callable);
    case 8 => EscalationSays(p, callable);
    case _ => ToolSays(p, callable);
  }

  lemma CheckIffMet(p: Procedure, callable: Option<set<string>>, n: nat)
    requires n < CHECKS
    ensures Check(p, callable, n).None? <==> Meets(p, callable, n)
  {
    match n
    case 7 => ReachProblemIffUnreached(p);
    case _ =>
  }

  lemma ReachProblemIffUnreached(p: Procedure)
    ensures ReachProblem(p, ReachedSet(p, StartId(p))).None? <==> AllReachable(p)
  {
  }

  /** The first problem found is the first check's that finds one. */
  lemma {:induction false} FirstIsACheck(p: Procedure, callable: Option<set<string>>, n: nat, first: nat)
    requires n <= first <= CHECKS
    requires forall m :: n <= m < first ==> Check(p, callable, m).None?
    requires first < CHECKS ==> Check(p, callable, first).Some?
    ensures FirstFrom(p, callable, n) == if first < CHECKS then Check(p, callable, first) else None
    decreases first - n
  {
    if n < first {
      FirstIsACheck(p, callable, n + 1, first);
    }
  }

  lemma {:induction false} FirstCheck(p: Procedure, callable: Option<set<string>>, n: nat) returns (first: nat)
    requires n <= CHECKS && forall m :: 0 <= m < n ==> Check(p, callable, m).None?
    ensures first <= CHECKS && forall m :: 0 <= m < first ==> Check(p, callable, m).None?
    ensures first < CHECKS ==> Check(p, callable, first).Some?
    decreases CHECKS - n
  {
    if n == CHECKS || Check(p, callable, n).Some? {
      first := n;
    } else {
      first := FirstCheck(p, callable, n + 1);
    }
  }

  lemma AllMet(p: Procedure, callable: Option<set<string>>)
    ensures (forall n :: 0 <= n < CHECKS ==> Meets(p, callable, n)) <==> WellFormed(p) && ToolsKnown(p, callable)
  {
    if forall n :: 0 <= n < CHECKS ==> Meets(p, callable, n) {
      assert Meets(p, callable, 0) && Meets(p, callable, 1) && Meets(p, callable, 2) && Meets(p, callable, 3);
      assert Meets(p, callable, 4) && Meets(p, callable, 5) && Meets(p, callable, 6) && Meets(p, callable, 7);
      assert Meets(p, callable, 8) && Meets(p, callable, 9);
    }
  }

  /** The checks together are exactly the rule. */
  lemma NoProblemIffWellFormed(p: Procedure, callable: Option<set<string>>)
    ensures FirstProblem(p, callable).None? <==> WellFormed(p) && ToolsKnown(p, callable)
  {
    var first := FirstCheck(p, callable, 0);
    FirstIsACheck(p, callable, 0, first);
    forall n | 0 <= n < CHECKS ensures Check(p, callable, n).None? <==> Meets(p, callable, n) {
      CheckIffMet(p, callable, n);
    }
    AllMet(p, callable);
  }

  /** The first problem found is what it says of the graph, with everything the rule asks
      for before it met. */
  lemma FirstProblemHolds(p: Procedure, callable: Option<set<string>>)
    ensures FirstProblem(p, callable).Some? ==> ProblemHolds(p, callable, FirstProblem(p, callable).value)
  {
    var first := FirstCheck(p, callable, 0);
    FirstIsACheck(p, callable, 0, first);
    if first < CHECKS {
      CheckSays(p, callable, first);
      forall n | 0 <= n < first ensures Meets(p, callable, n) {
        CheckIffMet(p, callable, n);
      }
    }
  }

  // ----- and no other problem holds

  lemma OneStartId(p: Procedure, callable: Option<set<string>>, a: Problem)
    requires ProblemHolds(p, callable, a) && a.Unreached?
    ensures p.StartStep().Some? && a.start == p.StartStep().value.id
  {
    assert Meets(p, callable, 4);
    var s :| s in p.steps && s.start && s.id == a.start;
    var start := p.StartStep().value;
    var i :| 0 <= i < |p.steps| && p.steps[i] == s;
    var j :| 0 <= j < |p.steps| && p.steps[j] == start;
  }

  /** A problem that holds breaks the condition of its check. */
  lemma HoldsBreaks(p: Procedure, callable: Option<set<string>>, a: Problem)
    requires ProblemHolds(p, callable, a)
    ensures !Meets(p, callable, ComesAfter(a))
  {
    match a
    case RepeatedId(id) =>
      var i: nat :| FirstRepeated(p.steps, i, id);
      var j :| 0 <= j < |p.steps| && j != i && p.steps[j].id == p.steps[i].id;
    case MovesNowhere(id, target) =>
      var i: nat :| FirstLoser(p, i, target);
      assert IsNoStep(p, target) && p.steps[i] in p.steps && target in p.steps[i].moves;
      assert p.StepAt(target).None?;
    case Unreached(id, start) =>
      OneStartId(p, callable, a);
    case _ =>
  }

  lemma SameCheckSameProblem(p: Procedure, callable: Option<set<string>>, a: Problem, b: Problem)
    requires ProblemHolds(p, callable, a) && ProblemHolds(p, callable, b) && ComesAfter(a) == ComesAfter(b)
    ensures a == b
  {
    match a
    case MovesNowhere(id, target) =>
      var i: nat :| FirstLoser(p, i, target) && p.steps[i].id == id;
      var j: nat :| FirstLoser(p, j, b.target) && p.steps[j].id == b.step;
      assert i == j;
    case Unreached(id, start) =>
      OneStartId(p, callable, a);
      OneStartId(p, callable, b);
    case _ =>
  }

  lemma OneProblemHolds(p: Procedure, callable: Option<set<string>>, a: Problem, b: Problem)
    requires ProblemHolds(p, callable, a) && ProblemHolds(p, callable, b)
    ensures a == b
  {
    HoldsBreaks(p, callable, a);
    HoldsBreaks(p, callable, b);
    SameCheckSameProblem(p, callable, a, b);
  }

  /** The first problem found is the one problem that holds. */
  lemma FirstIffHolds(p: Procedure, callable: Option<set<string>>, problem: Problem)
    ensures FirstProblem(p, callable) == Some(problem) <==> ProblemHolds(p, callable, problem)
  {
    FirstProblemHolds(p, callable);
    if ProblemHolds(p, callable, problem) {
      HoldsBreaks(p, callable, problem);
      NoProblemIffWellFormed(p, callable);
      AllMet(p, callable);
      OneProblemHolds(p, callable, problem, FirstProblem(p, callable).value);
    }
  }

  /** One check of a procedure; that of what the start reaches runs the worklist loop. */
  method RunCheck(p: Procedure, callable: Option<set<string>>, n: nat) returns (r: Option<Problem>)
    requires n < CHECKS
    ensures r == Check(p, callable, n)
  {
    match n
    case 0 => r := if p.unreadable then Some(Unreadable) else None;
    case 1 => r := WordsProblem(p);
    case 2 => r := CapsProblem(p);
    case 3 => r := RepeatedProblem(p);
    case 4 => r := StartProblem(p);
    case 5 => r := MovesProblem(p);
    case 6 => r := EndingProblem(p);
    case 7 =>
      var start := p.StartStep();
      var reached := ReachedFrom(p, if start.Some? then start.value.id else "");
      assert reached == ReachedSet(p, StartId(p));
      r := ReachProblem(p, reached);
    case 8 => r := EscalationProblem(p);
    case _ => r := ToolProblem(p, callable);
  }

  method RunChecks(p: Procedure, callable: Option<set<string>>) returns (r: Option<Problem>)
    ensures r == FirstProblem(p, callable)
  {
    ghost var first := FirstProblem(p, callable);
    for n := 0 to CHECKS
      invariant FirstFrom(p, callable, n) == first
    {
      r := RunCheck(p, callable, n);
      if r.Some? {
        return;
      }
    }
    r := None;
  }

  /** The checks of one procedure: the one problem that holds of its graph, and none exactly
      when the procedure meets the rule. */
  method CheckProcedure(p: Procedure, callable: Option<set<string>>) returns (r: Option<Problem>)
    ensures r == FirstProblem(p, callable)
    ensures forall problem :: r == Some(problem) <==> ProblemHolds(p, callable, problem)
    ensures r.None? <==> WellFormed(p) && ToolsKnown(p, callable)
  {
    NoProblemIffWellFormed(p, callable);
    forall problem ensures FirstProblem(p, callable) == Some(problem) <==> ProblemHolds(p, callable, problem) {
      FirstIffHolds(p, callable, problem);
    }
    r := RunChecks(p, callable);
  }

  /** What the rule accepts, with every step's tool callable where the caller
      knows the tools. */
  ghost predicate Passes(procedures: seq<Procedure>, callable: Option<set<string>>) {
    Accepts(procedures) && forall p :: p in procedures ==> ToolsKnown(p, callable)
  }

  ghost predicate NameBefore(procedures: seq<Procedure>, n: nat, name: string) {
    exists i :: 0 <= i < n && i < |procedures| && procedures[i].name == name
  }

  lemma DistinctOneMore(procedures: seq<Procedure>, n: nat)
    requires n < |procedures|
    ensures DistinctNames(procedures[..n + 1]) <==>
      DistinctNames(procedures[..n]) && !NameBefore(procedures, n, procedures[n].name)
  {
  }

  lemma PassesOneMore(procedures: seq<Procedure>, callable: Option<set<string>>, n: nat)
    requires n < |procedures|
    requires Passes(procedures[..n], callable)
    requires !NameBefore(procedures, n, procedures[n].name)
    requires FirstProblem(procedures[n], callable).None?
    ensures Passes(procedures[..n + 1], callable)
  {
    DistinctOneMore(procedures, n);
    NoProblemIffWellFormed(procedures[n], callable);
    forall p | p in procedures[..n + 1] ensures WellFormed(p) && ToolsKnown(p, callable) {
      if p !in procedures[..n] {
        assert p == procedures[n];
      }
    }
  }

  /** One procedure with a name taken or a problem is enough not to pass. */
  lemma OneFaultIsEnough(procedures: seq<Procedure>, callable: Option<set<string>>, n: nat)
    requires n < |procedures|
    requires NameBefore(procedures, n, procedures[n].name) || FirstProblem(procedures[n], callable).Some?
    ensures !Passes(procedures, callable)
  {
    if NameBefore(procedures, n, procedures[n].name) {
      assert !DistinctNames(procedures);
    } else {
      NoProblemIffWellFormed(procedures[n], callable);
      assert procedures[n] in procedures;
    }
  }

  /** What is wrong with the `n`-th procedure, its name before its graph. */
  ghost predicate FaultAt(procedures: seq<Procedure>, callable: Option<set<string>>, n: nat, r: Refusal)
    requires n < |procedures|
  {
    match r
    case NameTaken(at) => at == n && NameBefore(procedures, n, procedures[n].name)
    case Broken(at, problem) =>
      && at == n && !NameBefore(procedures, n, procedures[n].name)
      && ProblemHolds(procedures[n], callable, problem)
  }

  /** One procedure after the `n` that pass. */
  method CheckNext(procedures: seq<Procedure>, callable: Option<set<string>>, n: nat, taken: bool)
    returns (r: Option<Refusal>)
    requires n < |procedures| && Passes(procedures[..n], callable)
    requires taken <==> NameBefore(procedures, n, procedures[n].name)
    ensures r.None? ==> Passes(procedures[..n + 1], callable)
    ensures r.Some? ==> FaultAt(procedures, callable, n, r.value) && !Passes(procedures, callable)
  {
    if taken {
      OneFaultIsEnough(procedures, callable, n);
      return Some(NameTaken(n));
    }
    var problem := CheckProcedure(procedures[n], callable);
    if problem.Some? {
      OneFaultIsEnough(procedures, callable, n);
      return Some(Broken(n, problem.value));
    }
    PassesOneMore(procedures, callable, n);
    return None;
  }

  /** `procedures_refusal`: no refusal exactly when the procedures pass, and
      otherwise the first procedure at fault, for its name before its graph. */
  method ProceduresRefusal(procedures: seq<Procedure>, callable: Option<set<string>>)
    returns (r: Option<Refusal>)
    ensures r.None? <==> Passes(procedures, callable)
    ensures r.Some? ==>
      && r.value.index < |procedures|
      && Passes(procedures[..r.value.index], callable)
      && FaultAt(procedures, callable, r.value.index, r.value)
  {
    var seen: set<string> := {};
    for n := 0 to |procedures|
      invariant forall name :: name in seen <==> NameBefore(procedures, n, name)
      invariant Passes(procedures[..n], callable)
    {
      r := CheckNext(procedures, callable, n, procedures[n].name in seen);
      if r.Some? {
        return;
      }
      seen := seen + {procedures[n].name};
    }
    assert procedures[..|procedures|] == procedures;
    return None;
  }
}
