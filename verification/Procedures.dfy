/**
 Guided procedures: a graph of steps an agent follows on a call, and the one
 relation everything else is about, "n moves lead from step a to step b".

 The texts a model reads (a step's text, a move's condition) are not modelled;
 a move is the id of the step it goes to.
 */
module Procedures {
  import opened Options

  /** One action an `escalate` step names: its tool, and whether its arguments
      have the formats the rule asks for. */
  datatype Action = Action(tool: string, wellFormed: bool)

  datatype Step = Step(
    id: string,
    kind: string,
    start: bool,
    tool: Option<string>,
    moves: seq<string>,
    actions: seq<Action>)

  const ESCALATE := "escalate"
  const STEP_KINDS: set<string> := {"ask", "instruct", "check", ESCALATE, "end"}
  const ENDING_STEP_KINDS: set<string> := {"end", ESCALATE}

  const CALL := "call"
  const ON_REQUEST := "on_request"

  datatype Procedure = Procedure(
    name: string,
    start: string,
    windowDepth: int,
    steps: seq<Step>,
    unreadable: bool)
  {
    /** The first step with this id. */
    function StepAt(id: string): Option<Step> {
      FirstWithId(steps, id)
    }

    /** The first step marked start. */
    function StartStep(): Option<Step> {
      FirstStart(steps)
    }

    predicate EndsAt(id: string) {
      StepAt(id).Some? && StepAt(id).value.kind in ENDING_STEP_KINDS
    }

    /** Step `a` exists and lists a move to `b`; `b` itself may be missing. */
    predicate HasMove(a: string, b: string) {
      StepAt(a).Some? && b in StepAt(a).value.moves
    }

    ghost predicate ReachesIn(a: string, b: string, n: nat)
      decreases n
    {
      if n == 0 then a == b
      else exists m :: ReachesIn(a, m, n - 1) && HasMove(m, b)
    }

    /** The reflexive-transitive closure of the moves. */
    ghost predicate Reaches(a: string, b: string) {
      exists n: nat :: ReachesIn(a, b, n)
    }
  }

  function FirstWithId(steps: seq<Step>, id: string): (r: Option<Step>)
    ensures r.Some? ==> exists i ::
      0 <= i < |steps| && steps[i] == r.value && steps[i].id == id
      && forall j :: 0 <= j < i ==> steps[j].id != id
    ensures r.None? ==> forall s :: s in steps ==> s.id != id
  {
    if steps == [] then None
    else if steps[0].id == id then Some(steps[0])
    else
      var rest := FirstWithId(steps[1..], id);
      assert rest.Some? ==> exists i ::
        0 <= i < |steps[1..]| && steps[1..][i] == rest.value && steps[i + 1] == rest.value
        && forall j :: 0 <= j < i ==> steps[1..][j].id != id;
      rest
  }

  function FirstStart(steps: seq<Step>): (r: Option<Step>)
    ensures r.Some? ==> r.value in steps && r.value.start
    ensures r.None? ==> forall s :: s in steps ==> !s.start
  {
    if steps == [] then None
    else if steps[0].start then Some(steps[0])
    else FirstStart(steps[1..])
  }

  function FindProcedure(procedures: seq<Procedure>, name: string): (r: Option<Procedure>)
    ensures r.Some? ==> r.value in procedures && r.value.name == name
    ensures r.None? ==> forall p :: p in procedures ==> p.name != name
  {
    if procedures == [] then None
    else if procedures[0].name == name then Some(procedures[0])
    else FindProcedure(procedures[1..], name)
  }

  /** One more move at the end of a way. */
  lemma ReachesOneMore(p: Procedure, a: string, m: string, b: string)
    requires p.Reaches(a, m) && p.HasMove(m, b)
    ensures p.Reaches(a, b)
  {
    var n: nat :| p.ReachesIn(a, m, n);
    assert p.ReachesIn(a, b, n + 1);
  }

  /** A set holding `a` and closed under moves holds everything `a` reaches. */
  lemma {:induction false} ClosedHoldsReached(p: Procedure, closed: set<string>, a: string, b: string, n: nat)
    requires a in closed
    requires forall x, y :: x in closed && p.HasMove(x, y) ==> y in closed
    requires p.ReachesIn(a, b, n)
    ensures b in closed
    decreases n
  {
    if n > 0 {
      var m :| p.ReachesIn(a, m, n - 1) && p.HasMove(m, b);
      ClosedHoldsReached(p, closed, a, m, n - 1);
    }
  }
}
