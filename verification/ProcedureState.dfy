/**
 A call's place in its procedures, and what a reported move does to it. A state
 is a value: a move answers a new one, a refused move the one it was given.
 */
module ProcedureState {
  import opened Options
  import opened Procedures

  /** The steps a running procedure came by, the current one last. */
  type Path = p: seq<string> | p != [] witness [""]

  datatype Run = Run(name: string, path: Path) {
    function Current(): string {
      path[|path| - 1]
    }

    /** The step a move back goes to. */
    function Back(): Option<string> {
      if |path| > 1 then Some(path[|path| - 2]) else None
    }
  }

  datatype State = State(procedures: seq<Procedure>, runs: seq<Run>, finished: seq<Run>)

  function FindRun(runs: seq<Run>, name: string): (r: Option<Run>)
    ensures r.Some? ==> r.value in runs && r.value.name == name
    ensures r.None? <==> forall q :: q in runs ==> q.name != name
  {
    if runs == [] then None
    else if runs[0].name == name then Some(runs[0])
    else FindRun(runs[1..], name)
  }

  /** `runs` without the procedure `name`, the others in their order. */
  function Without(runs: seq<Run>, name: string): (r: seq<Run>)
    ensures forall q :: q in r <==> q in runs && q.name != name
  {
    if runs == [] then []
    else if runs[0].name == name then Without(runs[1..], name)
    else [runs[0]] + Without(runs[1..], name)
  }

  /** `run` in the place of the procedure's run so far. */
  function Replaced(runs: seq<Run>, run: Run): (r: seq<Run>)
    ensures |r| == |runs|
    ensures forall i :: 0 <= i < |runs| ==> r[i] == if runs[i].name == run.name then run else runs[i]
  {
    seq(|runs|, i requires 0 <= i < |runs| => if runs[i].name == run.name then run else runs[i])
  }

  predicate EndsAt(procedures: seq<Procedure>, run: Run) {
    var p := FindProcedure(procedures, run.name);
    p.Some? && p.value.EndsAt(run.Current())
  }

  /** The state with `run` where it now stands: running in its place, or last if
      newly started, or finished at an ending step. */
  function Placed(s: State, run: Run): State {
    if EndsAt(s.procedures, run) then s.(runs := Without(s.runs, run.name), finished := s.finished + [run])
    else if FindRun(s.runs, run.name).None? then s.(runs := s.runs + [run])
    else s.(runs := Replaced(s.runs, run))
  }

  /** The first `n` procedures started, those that start with the call. */
  function StartedUpTo(procedures: seq<Procedure>, n: nat): State
    requires n <= |procedures|
  {
    if n == 0 then State(procedures, [], [])
    else
      var s, p := StartedUpTo(procedures, n - 1), procedures[n - 1];
      if p.start == CALL && p.StartStep().Some? then Placed(s, Run(p.name, [p.StartStep().value.id])) else s
  }

  function CallStart(procedures: seq<Procedure>): State {
    StartedUpTo(procedures, |procedures|)
  }

  /** `at_call_start`. */
  method AtCallStart(procedures: seq<Procedure>) returns (state: State)
    ensures state == CallStart(procedures)
  {
    state := State(procedures, [], []);
    for n := 0 to |procedures|
      invariant state == StartedUpTo(procedures, n)
    {
      var start := procedures[n].StartStep();
      if procedures[n].start == CALL && start.Some? {
        state := Placed(state, Run(procedures[n].name, [start.value.id]));
      }
    }
  }

  /** What the model is told of a move, without its wording: that it arrived,
      that it stays, or where it is and what is allowed. */
  datatype Reply =
    | Arrived
    | Stays
    | Refused(at: Option<string>, allowed: seq<string>)

  datatype Outcome = Outcome(
    reply: Reply,
    state: State,
    fromStep: Option<string>,
    toStep: string,
    kind: Option<string>)
  {
    predicate Accepted() {
      reply.Arrived?
    }
  }

  /** The moves a refusal names: the step's own, and the way back if not among them. */
  function Allowed(current: Option<Step>, back: Option<string>): seq<string> {
    var moves := if current.Some? then current.value.moves else [];
    if back.Some? && back.value !in moves then moves + [back.value] else moves
  }

  function Refuse(s: State, at: Option<string>, to: string, allowed: seq<string>): Outcome {
    Outcome(Refused(at, allowed), s, at, to, None)
  }

  /** A move in a procedure not running: an `on_request` one starts at its start step. */
  function Start(s: State, p: Procedure, to: string): Outcome {
    var start := if p.start == ON_REQUEST then p.StartStep() else None;
    if start.None? || to != start.value.id then
      Refuse(s, None, to, if start.Some? then [start.value.id] else [])
    else
      Outcome(Arrived, Placed(s, Run(p.name, [to])), None, to, Some(start.value.kind))
  }

  /** A move in a running procedure. */
  function MoveRun(s: State, p: Procedure, run: Run, to: string): Outcome {
    var current, target, back := p.StepAt(run.Current()), p.StepAt(to), run.Back();
    if current.None? || target.None? then Refuse(s, Some(run.Current()), to, Allowed(current, back))
    else if to == run.Current() then Outcome(Stays, s, Some(to), to, None)
    else if back == Some(to) then
      var shorter := Run(run.name, run.path[..|run.path| - 1]);
      Outcome(Arrived, Placed(s, shorter), Some(run.Current()), to, Some(target.value.kind))
    else if to in current.value.moves then
      Outcome(Arrived, Placed(s, Run(run.name, run.path + [to])), Some(run.Current()), to, Some(target.value.kind))
    else Refuse(s, Some(run.Current()), to, Allowed(current, back))
  }

  /** `move`: a finished procedure takes no move at all. */
  function Move(s: State, name: string, to: string): Outcome {
    var run, graph, done := FindRun(s.runs, name), FindProcedure(s.procedures, name), FindRun(s.finished, name);
    if done.Some? then Refuse(s, Some(done.value.Current()), to, [])
    else if graph.Some? && run.None? then Start(s, graph.value, to)
    else if graph.None? || run.None? then Refuse(s, None, to, [])
    else MoveRun(s, graph.value, run.value, to)
  }

  // ----- what every run of moves keeps

  /** A walk along declared moves from the start, never standing still, never
      turning straight back, never through an ending. */
  ghost predicate GoodPath(p: Procedure, path: Path) {
    && p.StartStep().Some? && path[0] == p.StartStep().value.id
    && (forall i :: 0 <= i < |path| ==> p.StepAt(path[i]).Some?)
    && (forall i :: 0 <= i < |path| - 1 ==> p.HasMove(path[i], path[i + 1]))
    && (forall i :: 0 <= i < |path| - 1 ==> path[i] != path[i + 1] && !p.EndsAt(path[i]))
    && (forall i :: 0 <= i < |path| - 2 ==> path[i] != path[i + 2])
  }

  ghost predicate GoodRun(procedures: seq<Procedure>, run: Run) {
    var p := FindProcedure(procedures, run.name);
    p.Some? && GoodPath(p.value, run.path)
  }

  ghost predicate NoNameTwice(runs: seq<Run>) {
    forall i, j :: 0 <= i < j < |runs| ==> runs[i].name != runs[j].name
  }

  ghost predicate Started(s: State, name: string) {
    FindRun(s.runs, name).Some? || FindRun(s.finished, name).Some?
  }

  /** No procedure is listed twice, nor both running and finished. */
  ghost predicate ListedOnce(s: State) {
    && NoNameTwice(s.runs) && NoNameTwice(s.finished)
    && forall r :: r in s.finished ==> FindRun(s.runs, r.name).None?
  }

  /** Every run came by a good path, and is finished exactly when it stands at an
      ending. */
  ghost predicate RunsAreGood(procedures: seq<Procedure>, s: State) {
    && (forall r :: r in s.runs ==> GoodRun(procedures, r) && !EndsAt(procedures, r))
    && (forall r :: r in s.finished ==> GoodRun(procedures, r) && EndsAt(procedures, r))
  }

  ghost predicate Orderly(procedures: seq<Procedure>, s: State) {
    s.procedures == procedures && ListedOnce(s) && RunsAreGood(procedures, s)
  }

  ghost predicate CallsStarted(procedures: seq<Procedure>, s: State) {
    forall p :: p in procedures && p.start == CALL && p.StartStep().Some? ==> Started(s, p.name)
  }

  lemma {:induction false} WithoutKeepsNames(runs: seq<Run>, name: string)
    requires NoNameTwice(runs)
    ensures NoNameTwice(Without(runs, name))
  {
    if runs != [] {
      WithoutKeepsNames(runs[1..], name);
      var rest := Without(runs[1..], name);
      assert forall q :: q in rest ==> q.name != runs[0].name;
    }
  }

  lemma ReplacedHolds(runs: seq<Run>, run: Run)
    requires NoNameTwice(runs)
    ensures NoNameTwice(Replaced(runs, run))
    ensures forall q :: q in Replaced(runs, run) ==> q == run || (q in runs && q.name != run.name)
    ensures FindRun(runs, run.name).Some? ==> run in Replaced(runs, run)
    ensures forall n :: FindRun(Replaced(runs, run), n).Some? <==> FindRun(runs, n).Some?
  {
    var now := Replaced(runs, run);
    if FindRun(runs, run.name).Some? {
      var i :| 0 <= i < |runs| && runs[i].name == run.name;
      assert now[i] == run;
    }
    forall n ensures FindRun(now, n).Some? <==> FindRun(runs, n).Some? {
      if FindRun(runs, n).Some? {
        var i :| 0 <= i < |runs| && runs[i].name == n;
        assert now[i] in now && now[i].name == n;
      }
    }
  }

  lemma PlacedIsListedOnce(s: State, run: Run)
    requires ListedOnce(s) && FindRun(s.finished, run.name).None?
    ensures ListedOnce(Placed(s, run))
  {
    if EndsAt(s.procedures, run) {
      WithoutKeepsNames(s.runs, run.name);
    } else if FindRun(s.runs, run.name).Some? {
      ReplacedHolds(s.runs, run);
    }
  }

  lemma PlacedIsStarted(s: State, run: Run, n: string)
    requires ListedOnce(s) && FindRun(s.finished, run.name).None?
    ensures Started(Placed(s, run), n) <==> Started(s, n) || n == run.name
  {
    if !EndsAt(s.procedures, run) && FindRun(s.runs, run.name).Some? {
      ReplacedHolds(s.runs, run);
    } else if EndsAt(s.procedures, run) {
      assert run in Placed(s, run).finished;
    } else {
      assert run in Placed(s, run).runs;
    }
  }

  lemma PlacedIsGood(procedures: seq<Procedure>, s: State, run: Run)
    requires Orderly(procedures, s) && GoodRun(procedures, run)
    ensures RunsAreGood(procedures, Placed(s, run))
  {
    ReplacedHolds(s.runs, run);
    forall r | r in Placed(s, run).runs ensures r == run || r in s.runs {
    }
  }

  /** Placing a good run of a procedure not finished keeps the state orderly, and
      starts that procedure and no other. */
  lemma PlacedIsOrderly(procedures: seq<Procedure>, s: State, run: Run)
    requires Orderly(procedures, s) && GoodRun(procedures, run)
    requires FindRun(s.finished, run.name).None?
    ensures Orderly(procedures, Placed(s, run))
    ensures forall n :: Started(Placed(s, run), n) <==> Started(s, n) || n == run.name
  {
    PlacedIsListedOnce(s, run);
    forall n ensures Started(Placed(s, run), n) <==> Started(s, n) || n == run.name {
      PlacedIsStarted(s, run, n);
    }
    PlacedIsGood(procedures, s, run);
  }
}
