/**
 Whole calls: any sequence of reported moves from a call's start. What every such
 run keeps, what the model is shown against what is accepted, and that a call
 whose procedures the graph rule accepts can always still finish all of them.
 */
module ProcedureRuns {
  import opened Options
  import opened Procedures
  import opened ProcedureGraph
  import opened ProcedureState

  /** One `move_to_step` the model reports. */
  datatype Request = Request(procedure: string, to: string)

  function After(s: State, said: seq<Request>): State
    decreases |said|
  {
    if said == [] then s else After(Move(s, said[0].procedure, said[0].to).state, said[1..])
  }

  predicate AllAccepted(s: State, said: seq<Request>)
    decreases |said|
  {
    said == [] ||
    var first := Move(s, said[0].procedure, said[0].to);
    first.Accepted() && AllAccepted(first.state, said[1..])
  }

  lemma {:induction false} AfterBoth(s: State, first: seq<Request>, then_: seq<Request>)
    ensures After(s, first + then_) == After(After(s, first), then_)
    ensures AllAccepted(s, first + then_) <==> AllAccepted(s, first) && AllAccepted(After(s, first), then_)
    decreases |first|
  {
    if first == [] {
      assert first + then_ == then_;
    } else {
      assert (first + then_)[1..] == first[1..] + then_;
      AfterBoth(Move(s, first[0].procedure, first[0].to).state, first[1..], then_);
    }
  }

  // ----- the call's start

  lemma FindByName(procedures: seq<Procedure>, p: Procedure)
    requires DistinctNames(procedures) && p in procedures
    ensures FindProcedure(procedures, p.name) == Some(p)
  {
    var q := FindProcedure(procedures, p.name).value;
    var i :| 0 <= i < |procedures| && procedures[i] == p;
    var j :| 0 <= j < |procedures| && procedures[j] == q;
  }

  lemma StartIsGood(p: Procedure)
    requires p.StartStep().Some?
    ensures GoodPath(p, [p.StartStep().value.id])
  {
    assert p.StartStep().value in p.steps;
  }

  /** The procedure starts with the call. */
  predicate StartsWithCall(p: Procedure) {
    p.start == CALL && p.StartStep().Some?
  }

  /** Of the first `n` procedures those are started that start with the call. */
  ghost predicate StartedExactly(procedures: seq<Procedure>, s: State, n: nat)
    requires n <= |procedures|
  {
    forall name :: Started(s, name) <==>
      exists i :: 0 <= i < n && procedures[i].name == name && StartsWithCall(procedures[i])
  }

  lemma OneStartMore(procedures: seq<Procedure>, s: State, now: State, n: nat)
    requires n < |procedures| && StartedExactly(procedures, s, n)
    requires forall name :: Started(now, name) <==>
      Started(s, name) || (name == procedures[n].name && StartsWithCall(procedures[n]))
    ensures StartedExactly(procedures, now, n + 1)
  {
  }

  lemma {:induction false} CallStartIsOrderly(procedures: seq<Procedure>, n: nat)
    requires DistinctNames(procedures) && n <= |procedures|
    ensures Orderly(procedures, StartedUpTo(procedures, n))
    ensures StartedExactly(procedures, StartedUpTo(procedures, n), n)
  {
    if n > 0 {
      CallStartIsOrderly(procedures, n - 1);
      var s, p := StartedUpTo(procedures, n - 1), procedures[n - 1];
      FindByName(procedures, p);
      assert !Started(s, p.name);
      if StartsWithCall(p) {
        StartIsGood(p);
        PlacedIsOrderly(procedures, s, Run(p.name, [p.StartStep().value.id]));
      }
      OneStartMore(procedures, s, StartedUpTo(procedures, n), n - 1);
    }
  }

  // ----- one move

  lemma {:induction false} WithoutReplaced(runs: seq<Run>, run: Run)
    ensures Without(Replaced(runs, run), run.name) == Without(runs, run.name)
  {
    if runs != [] {
      WithoutReplaced(runs[1..], run);
      assert Replaced(runs, run)[1..] == Replaced(runs[1..], run);
    }
  }

  lemma {:induction false} WithoutAdded(runs: seq<Run>, run: Run)
    ensures Without(runs + [run], run.name) == Without(runs, run.name)
  {
    if runs != [] {
      WithoutAdded(runs[1..], run);
      assert (runs + [run])[1..] == runs[1..] + [run];
    }
  }

  lemma {:induction false} WithoutTwice(runs: seq<Run>, name: string)
    ensures Without(Without(runs, name), name) == Without(runs, name)
  {
    if runs != [] {
      WithoutTwice(runs[1..], name);
    }
  }

  /** `now` differs from `s` only in the procedure `name`, which may have finished. */
  ghost predicate OthersUntouched(s: State, now: State, name: string) {
    && now.procedures == s.procedures
    && Without(now.runs, name) == Without(s.runs, name)
    && s.finished <= now.finished
    && Without(now.finished, name) == Without(s.finished, name)
  }

  lemma PlacedLeavesOthers(s: State, run: Run)
    ensures OthersUntouched(s, Placed(s, run), run.name)
  {
    WithoutReplaced(s.runs, run);
    WithoutAdded(s.runs, run);
    WithoutAdded(s.finished, run);
    WithoutTwice(s.runs, run.name);
  }

  /** The run an accepted move places, if the move is accepted. */
  function NextRun(s: State, name: string, to: string): (next: Option<Run>)
    ensures next.Some? ==> next.value.name == name
  {
    var run, graph := FindRun(s.runs, name), FindProcedure(s.procedures, name);
    if FindRun(s.finished, name).Some? || graph.None? then None
    else if run.None? then
      if graph.value.start == ON_REQUEST && graph.value.StartStep().Some? && graph.value.StartStep().value.id == to
      then Some(Run(name, [to])) else None
    else if to == run.value.Current() then None
    else if graph.value.StepAt(to).None? || graph.value.StepAt(run.value.Current()).None? then None
    else if run.value.Back() == Some(to) then Some(Run(name, run.value.path[..|run.value.path| - 1]))
    else if graph.value.HasMove(run.value.Current(), to) then Some(Run(name, run.value.path + [to]))
    else None
  }

  lemma MovePlacesNextRun(s: State, name: string, to: string)
    ensures var out, next := Move(s, name, to), NextRun(s, name, to);
      && (out.Accepted() <==> next.Some?)
      && out.state == if next.Some? then Placed(s, next.value) else s
  {
    var run, graph := FindRun(s.runs, name), FindProcedure(s.procedures, name);
    if FindRun(s.finished, name).Some? || graph.None? {
    } else if run.None? {
    } else {
      MoveRunPlacesNextRun(s, graph.value, run.value, to);
    }
  }

  lemma MoveRunPlacesNextRun(s: State, p: Procedure, run: Run, to: string)
    requires FindRun(s.finished, run.name).None?
    requires FindRun(s.runs, run.name) == Some(run) && FindProcedure(s.procedures, run.name) == Some(p)
    ensures var out, next := MoveRun(s, p, run, to), NextRun(s, run.name, to);
      && (out.Accepted() <==> next.Some?)
      && out.state == if next.Some? then Placed(s, next.value) else s
  {
  }

  lemma NextLeavesOthers(s: State, next: Option<Run>, name: string)
    requires next.Some? ==> next.value.name == name
    ensures OthersUntouched(s, if next.Some? then Placed(s, next.value) else s, name)
  {
    if next.Some? {
      PlacedLeavesOthers(s, next.value);
    }
  }

  /** A move, refused or not, touches only its own procedure. */
  lemma MoveLeavesOthers(s: State, name: string, to: string)
    ensures OthersUntouched(s, Move(s, name, to).state, name)
  {
    MovePlacesNextRun(s, name, to);
    NextLeavesOthers(s, NextRun(s, name, to), name);
  }

  /** A refused or stayed move changes nothing at all. */
  lemma RefusedChangesNothing(s: State, name: string, to: string)
    ensures !Move(s, name, to).Accepted() ==> Move(s, name, to).state == s
  {
    MovePlacesNextRun(s, name, to);
  }

  lemma StepBackIsGood(p: Procedure, path: Path)
    requires GoodPath(p, path) && |path| > 1
    ensures GoodPath(p, path[..|path| - 1])
  {
  }

  lemma StepOnIsGood(p: Procedure, path: Path, to: string)
    requires GoodPath(p, path)
    requires var here := path[|path| - 1]; !p.EndsAt(here) && to != here && p.HasMove(here, to)
    requires p.StepAt(to).Some? && (|path| > 1 ==> path[|path| - 2] != to)
    ensures GoodPath(p, path + [to])
  {
    var on: Path := path + [to];
    assert forall i :: 0 <= i < |path| ==> on[i] == path[i];
    assert on[|path|] == to;
    forall i | 0 <= i < |on| - 1 ensures GoodMove(p, on[i], on[i + 1]) {
      assert i < |path| - 1 ==> GoodMove(p, path[i], path[i + 1]);
    }
    forall i | 0 <= i < |on| - 2 ensures on[i] != on[i + 2] {
    }
  }

  predicate GoodMove(p: Procedure, from: string, to: string) {
    p.HasMove(from, to) && from != to && !p.EndsAt(from)
  }

  lemma NextRunIsGood(procedures: seq<Procedure>, s: State, name: string, to: string)
    requires Orderly(procedures, s) && NextRun(s, name, to).Some?
    ensures GoodRun(procedures, NextRun(s, name, to).value)
  {
    var run := FindRun(s.runs, name);
    var p := FindProcedure(procedures, name).value;
    if run.None? {
      StartIsGood(p);
    } else if run.value.Back() == Some(to) {
      StepBackIsGood(p, run.value.path);
    } else {
      assert !EndsAt(procedures, run.value);
      StepOnIsGood(p, run.value.path, to);
    }
  }

  lemma MoveKeepsOrder(procedures: seq<Procedure>, s: State, name: string, to: string)
    requires Orderly(procedures, s)
    ensures Orderly(procedures, Move(s, name, to).state)
    ensures forall n :: Started(s, n) ==> Started(Move(s, name, to).state, n)
  {
    MovePlacesNextRun(s, name, to);
    if NextRun(s, name, to).Some? {
      NextRunIsGood(procedures, s, name, to);
      PlacedIsOrderly(procedures, s, NextRun(s, name, to).value);
    }
  }

  // ----- every run of moves

  lemma {:induction false} MovesKeepOrder(procedures: seq<Procedure>, s: State, said: seq<Request>)
    requires Orderly(procedures, s)
    ensures Orderly(procedures, After(s, said))
    ensures forall n :: Started(s, n) ==> Started(After(s, said), n)
    ensures s.finished <= After(s, said).finished
    decreases |said|
  {
    if said != [] {
      MoveKeepsOrder(procedures, s, said[0].procedure, said[0].to);
      MoveLeavesOthers(s, said[0].procedure, said[0].to);
      MovesKeepOrder(procedures, Move(s, said[0].procedure, said[0].to).state, said[1..]);
    }
  }

  /** Whatever the model reports, over a whole call: no procedure is listed twice
      or both running and finished; every path is a good one; a run is finished
      exactly when it stands at an ending; and every procedure that starts with
      the call has started. */
  lemma EveryCallIsOrderly(procedures: seq<Procedure>, said: seq<Request>)
    requires DistinctNames(procedures)
    ensures Orderly(procedures, After(CallStart(procedures), said))
    ensures CallsStarted(procedures, After(CallStart(procedures), said))
  {
    CallStartIsOrderly(procedures, |procedures|);
    MovesKeepOrder(procedures, CallStart(procedures), said);
  }

  /** What a procedure reached stands: finished runs are never lost, changed or
      reordered, however the call goes on. */
  lemma FinishedForGood(procedures: seq<Procedure>, said: seq<Request>, more: seq<Request>)
    requires DistinctNames(procedures)
    ensures After(CallStart(procedures), said).finished <= After(CallStart(procedures), said + more).finished
  {
    EveryCallIsOrderly(procedures, said);
    AfterBoth(CallStart(procedures), said, more);
    MovesKeepOrder(procedures, After(CallStart(procedures), said), more);
  }

  // ----- which moves are accepted, and what undoes one

  /** What may be reported of a procedure that is not finished: while it runs, any other
      step that exists and is allowed from the current one; before it runs, its start step
      if it starts on request. */
  predicate MayMove(s: State, name: string, to: string) {
    var run, graph := FindRun(s.runs, name), FindProcedure(s.procedures, name);
    && FindRun(s.finished, name).None? && graph.Some?
    && if run.None? then
         graph.value.start == ON_REQUEST && graph.value.StartStep().Some? && graph.value.StartStep().value.id == to
       else
         var here := graph.value.StepAt(run.value.Current());
         here.Some? && graph.value.StepAt(to).Some? && to != run.value.Current() && to in Allowed(here, run.value.Back())
  }

  /** Where the procedure has come to, running or finished. */
  ghost predicate StandsAt(s: State, name: string, id: string) {
    exists r: Run :: (r in s.runs || r in s.finished) && r.name == name && r.Current() == id
  }

  /** A move is accepted exactly when it may be made, and then its procedure is at the
      step it names. */
  lemma AcceptedIff(s: State, name: string, to: string)
    ensures Move(s, name, to).Accepted() <==> MayMove(s, name, to)
    ensures Move(s, name, to).Accepted() ==> StandsAt(Move(s, name, to).state, name, to)
  {
    MovePlacesNextRun(s, name, to);
    var next := NextRun(s, name, to);
    if next.Some? {
      assert next.value.Current() == to;
      PlacedIsThere(s, next.value);
    }
  }

  lemma PlacedIsThere(s: State, run: Run)
    ensures StandsAt(Placed(s, run), run.name, run.Current())
  {
    var now := Placed(s, run);
    if EndsAt(s.procedures, run) {
      assert run in now.finished;
    } else if FindRun(s.runs, run.name).None? {
      assert run in now.runs;
    } else {
      var i :| 0 <= i < |s.runs| && s.runs[i].name == run.name;
      assert now.runs[i] == run;
    }
  }

  /** One run in the place of another, and the other in its place again. */
  lemma ReplacedBack(runs: seq<Run>, was: Run, now: Run)
    requires NoNameTwice(runs) && FindRun(runs, was.name) == Some(was) && now.name == was.name
    ensures Replaced(Replaced(runs, now), was) == runs
    ensures FindRun(Replaced(runs, now), was.name) == Some(now)
  {
    var i :| 0 <= i < |runs| && runs[i] == was;
    var mid := Replaced(runs, now);
    assert mid[i] == now;
    var found := FindRun(mid, was.name);
    assert found.Some?;
    var j :| 0 <= j < |mid| && mid[j] == found.value;
    assert runs[j].name == was.name;
    assert Replaced(mid, was) == runs;
  }

  /** The step of a running procedure that its path came from, or would go back to. */
  lemma NextBack(procedures: seq<Procedure>, s: State, was: Run, to: string)
    requires Orderly(procedures, s) && FindRun(s.runs, was.name) == Some(was)
    requires NextRun(s, was.name, to).Some? && !EndsAt(procedures, NextRun(s, was.name, to).value)
    ensures
      var next := NextRun(s, was.name, to).value;
      NextRun(Placed(s, next), was.name, was.Current()) == Some(was)
  {
    var next := NextRun(s, was.name, to).value;
    var p := FindProcedure(procedures, was.name).value;
    assert GoodPath(p, was.path);
    ReplacedBack(s.runs, was, next);
    if was.Back() == Some(to) {
      BackAndOn(p, was.path);
    } else {
      assert next.path[..|next.path| - 1] == was.path;
    }
  }

  /** From one step back the path leads on to where it was, and not back again. */
  lemma BackAndOn(p: Procedure, path: Path)
    requires GoodPath(p, path) && |path| > 1
    ensures
      var here, back := path[|path| - 1], path[..|path| - 1];
      && p.HasMove(back[|back| - 1], here) && back[|back| - 1] != here && back + [here] == path
      && (|back| > 1 ==> back[|back| - 2] != here)
      && p.StepAt(here).Some? && p.StepAt(back[|back| - 1]).Some?
  {
    var n := |path|;
    assert p.HasMove(path[n - 2], path[n - 1]);
    assert n > 2 ==> path[n - 3] != path[n - 3 + 2];
  }

  /** A move within a running procedure is undone by the move to the step it left, unless
      it finished the procedure: the state is then exactly what it was. */
  lemma MoveIsUndone(procedures: seq<Procedure>, s: State, name: string, to: string)
    requires Orderly(procedures, s) && FindRun(s.runs, name).Some?
    requires Move(s, name, to).Accepted() && FindRun(Move(s, name, to).state.runs, name).Some?
    ensures
      var back := Move(Move(s, name, to).state, name, FindRun(s.runs, name).value.Current());
      back.Accepted() && back.state == s
  {
    var was := FindRun(s.runs, name).value;
    MovePlacesNextRun(s, name, to);
    var next := NextRun(s, name, to).value;
    FinishedRunsNoMore(s, next);
    NextBack(procedures, s, was, to);
    ReplacedBack(s.runs, was, next);
    MovePlacesNextRun(Placed(s, next), name, was.Current());
  }

  lemma FinishedRunsNoMore(s: State, run: Run)
    ensures EndsAt(s.procedures, run) ==> FindRun(Placed(s, run).runs, run.name).None?
  {
  }
}
