/**
 What a move answers besides the state after it: the step it names, where the
 procedure stood, the kind of the step reached, and what a refusal says is allowed.
 An escalate step's action is run on that kind, so it is tied here to the step itself.
 */
module ProcedureOutcomes {
  import opened Options
  import opened Procedures
  import opened ProcedureGraph
  import opened ProcedureState
  import opened ProcedureRuns
  import opened ProcedureFinish

  /** A procedure that is finished, not known or not running has no current step to move
      from. */
  predicate Underway(s: State, name: string) {
    && FindRun(s.finished, name).None?
    && FindRun(s.runs, name).Some? && FindProcedure(s.procedures, name).Some?
  }

  /** The step with id `to` that a move reaches: the first of that id, or the start step
      of a procedure being started. */
  function ReachedStep(s: State, name: string, to: string): Option<Step> {
    match FindProcedure(s.procedures, name)
    case None => None
    case Some(p) => if Underway(s, name) then p.StepAt(to) else p.StartStep()
  }

  /** Whatever the state and whatever is reported: the outcome names the step asked for;
      it has a kind exactly when the move is accepted, the kind of the step reached; and
      it is a stay exactly when the step asked for is the current one. */
  lemma OutcomeTells(s: State, name: string, to: string)
    ensures
      var out := Move(s, name, to);
      && out.toStep == to
      && (out.kind.Some? <==> out.Accepted())
      && (out.Accepted() ==>
            && ReachedStep(s, name, to).Some? && ReachedStep(s, name, to).value.id == to
            && out.kind == Some(ReachedStep(s, name, to).value.kind))
      && (out.reply.Stays? <==>
            && Underway(s, name) && to == FindRun(s.runs, name).value.Current()
            && FindProcedure(s.procedures, name).value.StepAt(to).Some?)
  {
  }

  /** With no id twice, the start step is the step its id names. */
  lemma StartIsFirst(p: Procedure)
    requires UniqueIds(p.steps)
    ensures p.StartStep().Some? ==> p.StepAt(p.StartStep().value.id) == p.StartStep()
  {
    if p.StartStep().Some? {
      var start := p.StartStep().value;
      var found := p.StepAt(start.id).value;
      var i :| 0 <= i < |p.steps| && p.steps[i] == start;
      var j :| 0 <= j < |p.steps| && p.steps[j] == found;
    }
  }

  lemma PlacedEndsOrRuns(s: State, run: Run)
    requires FindRun(s.finished, run.name).None?
    ensures EndsAt(s.procedures, run) <==> FindRun(Placed(s, run).finished, run.name).Some?
    ensures EndsAt(s.procedures, run) <==> FindRun(Placed(s, run).runs, run.name).None?
  {
    if EndsAt(s.procedures, run) {
      assert run in Placed(s, run).finished;
    } else {
      PlacedIsThere(s, run);
    }
  }

  lemma NextEndsOrRuns(s: State, name: string, to: string)
    requires NextRun(s, name, to).Some?
    ensures
      var now, p := Placed(s, NextRun(s, name, to).value), FindProcedure(s.procedures, name);
      && p.Some? && p.value.StepAt(to) == p.value.StepAt(NextRun(s, name, to).value.Current())
      && (p.value.EndsAt(to) <==> FindRun(now.finished, name).Some?)
      && (p.value.EndsAt(to) <==> FindRun(now.runs, name).None?)
  {
    var next := NextRun(s, name, to).value;
    assert next.Current() == to;
    PlacedEndsOrRuns(s, next);
  }

  lemma KindIsOfTheStep(s: State, name: string, to: string)
    requires Accepts(s.procedures) && Move(s, name, to).Accepted()
    ensures
      var p := FindProcedure(s.procedures, name);
      p.Some? && p.value.StepAt(to).Some? && Move(s, name, to).kind == Some(p.value.StepAt(to).value.kind)
  {
    OutcomeTells(s, name, to);
    var p := FindProcedure(s.procedures, name).value;
    assert WellFormed(p);
    StartIsFirst(p);
  }

  /** Of procedures the rule accepts a move answers the kind of the step `to` it reaches,
      and finishes its procedure exactly when that is a kind that ends one. */
  lemma KindTellsTheEnd(s: State, name: string, to: string)
    requires Accepts(s.procedures) && Move(s, name, to).Accepted()
    ensures
      var out, p := Move(s, name, to), FindProcedure(s.procedures, name);
      && p.Some? && p.value.StepAt(to).Some? && out.kind == Some(p.value.StepAt(to).value.kind)
      && (out.kind.value in ENDING_STEP_KINDS <==> FindRun(out.state.finished, name).Some?)
      && (out.kind.value in ENDING_STEP_KINDS <==> FindRun(out.state.runs, name).None?)
  {
    KindIsOfTheStep(s, name, to);
    MovePlacesNextRun(s, name, to);
    NextEndsOrRuns(s, name, to);
  }

  /** The run a move finds: the finished one, else the running one. */
  function FoundRun(s: State, name: string): Option<Run> {
    if FindRun(s.finished, name).Some? then FindRun(s.finished, name) else FindRun(s.runs, name)
  }

  lemma FromTheFoundRun(s: State, name: string, to: string)
    requires FoundRun(s, name).Some? ==> FindProcedure(s.procedures, name).Some?
    ensures Move(s, name, to).fromStep ==
      match FoundRun(s, name) { case Some(run) => Some(run.Current()) case None => None }
  {
  }

  lemma StandsAtTheFoundRun(s: State, name: string, id: string)
    requires ListedOnce(s)
    ensures StandsAt(s, name, id) <==> FoundRun(s, name).Some? && FoundRun(s, name).value.Current() == id
  {
    if r: Run :| (r in s.runs || r in s.finished) && r.name == name && r.Current() == id {
      if r in s.finished {
        FindOnlyRun(s.finished, r);
      } else {
        FindOnlyRun(s.runs, r);
      }
    }
  }

  /** In an orderly state a move tells exactly where its procedure stood, running or
      finished, and nowhere if it has not started. */
  lemma TellsWhereItStood(procedures: seq<Procedure>, s: State, name: string, to: string, id: string)
    requires Orderly(procedures, s)
    ensures Move(s, name, to).fromStep == Some(id) <==> StandsAt(s, name, id)
  {
    StandsAtTheFoundRun(s, name, id);
    if FoundRun(s, name).Some? {
      assert GoodRun(procedures, FoundRun(s, name).value);
    }
    FromTheFoundRun(s, name, to);
  }

  /** `moves` in their order, and the way back after them if it is not among them. */
  ghost predicate MovesThenBack(allowed: seq<string>, moves: seq<string>, back: Option<string>) {
    && moves <= allowed && |allowed| <= |moves| + 1
    && forall id :: id in allowed <==> id in moves || back == Some(id)
  }

  /** A refusal says where the procedure stands and names what is allowed: nothing but the
      start of one that can be started where none is under way, and else the current
      step's moves and the way back. */
  lemma RefusalTells(s: State, name: string, to: string)
    requires Move(s, name, to).reply.Refused?
    ensures
      var out := Move(s, name, to);
      && out.reply.at == out.fromStep
      && if !Underway(s, name) then
           && |out.reply.allowed| <= 1
           && forall id :: id in out.reply.allowed <==> MayMove(s, name, id)
         else
           var run := FindRun(s.runs, name).value;
           var here := FindProcedure(s.procedures, name).value.StepAt(run.Current());
           MovesThenBack(out.reply.allowed, if here.Some? then here.value.moves else [], run.Back())
  {
  }

  // ----- the state after an accepted move

  /** The path after a move: one step shorter when it goes back, one longer when it goes on,
      and only the start when it starts. */
  ghost predicate PathAfter(was: Option<Run>, now: Run, name: string, to: string) {
    && now.name == name
    && match was
       case None => now.path == [to]
       case Some(run) => now.path == if run.Back() == Some(to) then run.path[..|run.path| - 1] else run.path + [to]
  }

  /** The lists after a move: in its place while it runs, last when it starts, and from the
      running ones to the end of the finished ones when it ends. */
  ghost predicate ListsAfter(s: State, now: State, run: Run, ends: bool) {
    && now.procedures == s.procedures
    && now.finished == (if ends then s.finished + [run] else s.finished)
    && if FindRun(s.runs, run.name).None? then now.runs == (if ends then s.runs else s.runs + [run])
       else exists i ::
         && 0 <= i < |s.runs| && s.runs[i].name == run.name
         && now.runs == if ends then s.runs[..i] + s.runs[i + 1..] else s.runs[i := run]
  }

  lemma {:induction false} WithoutOne(runs: seq<Run>, i: nat)
    requires i < |runs| && forall j :: 0 <= j < |runs| && j != i ==> runs[j].name != runs[i].name
    ensures Without(runs, runs[i].name) == runs[..i] + runs[i + 1..]
    decreases |runs|
  {
    if i > 0 {
      assert runs[1..][i - 1] == runs[i];
      WithoutOne(runs[1..], i - 1);
      WithoutInRest(runs, i);
    } else {
      WithoutNone(runs[1..], runs[0].name);
    }
  }

  lemma WithoutInRest(runs: seq<Run>, i: nat)
    requires 0 < i < |runs|
    ensures [runs[0]] + (runs[1..][..i - 1] + runs[1..][i..]) == runs[..i] + runs[i + 1..]
  {
  }

  lemma {:induction false} WithoutNone(runs: seq<Run>, name: string)
    requires forall q :: q in runs ==> q.name != name
    ensures Without(runs, name) == runs
  {
    if runs != [] {
      WithoutNone(runs[1..], name);
    }
  }

  lemma PlacedTells(s: State, run: Run)
    requires NoNameTwice(s.runs)
    ensures ListsAfter(s, Placed(s, run), run, EndsAt(s.procedures, run))
  {
    if FindRun(s.runs, run.name).None? {
      WithoutNone(s.runs, run.name);
    } else {
      var was := FindRun(s.runs, run.name).value;
      var i :| 0 <= i < |s.runs| && s.runs[i] == was;
      WithoutOne(s.runs, i);
      assert Replaced(s.runs, run) == s.runs[i := run];
    }
  }

  lemma NextPath(s: State, name: string, to: string)
    requires NextRun(s, name, to).Some?
    ensures PathAfter(FindRun(s.runs, name), NextRun(s, name, to).value, name, to)
    ensures FindProcedure(s.procedures, name).Some?
    ensures EndsAt(s.procedures, NextRun(s, name, to).value) <==> FindProcedure(s.procedures, name).value.EndsAt(to)
  {
    assert NextRun(s, name, to).value.Current() == to;
  }

  /** An accepted move changes exactly its own procedure's run, by one step, and where it is
      listed, at an ending by moving it to the finished. */
  lemma StateTells(procedures: seq<Procedure>, s: State, name: string, to: string)
    requires Orderly(procedures, s) && Move(s, name, to).Accepted()
    ensures exists run ::
      && PathAfter(FindRun(s.runs, name), run, name, to)
      && FindProcedure(procedures, name).Some?
      && ListsAfter(s, Move(s, name, to).state, run, FindProcedure(procedures, name).value.EndsAt(to))
  {
    MovePlacesNextRun(s, name, to);
    NextPath(s, name, to);
    PlacedTells(s, NextRun(s, name, to).value);
  }

  // ----- the call's start

  /** The run is at the start step of the `k`-th procedure, which starts with the call. */
  predicate StartedAt(procedures: seq<Procedure>, run: Run, k: nat) {
    && k < |procedures| && StartsWithCall(procedures[k])
    && run == Run(procedures[k].name, [procedures[k].StartStep().value.id])
  }

  /** The runs are each at the start of the procedure at its place, among the first `n`, and
      the places rise. */
  ghost predicate StartedInOrder(procedures: seq<Procedure>, runs: seq<Run>, places: seq<nat>, n: nat) {
    && |places| == |runs|
    && (forall i :: 0 <= i < |runs| ==> places[i] < n && StartedAt(procedures, runs[i], places[i]))
    && (forall i, j :: 0 <= i < j < |places| ==> places[i] < places[j])
  }

  /** The runs are at the starts of some of the first `n` procedures, and in their order. */
  ghost predicate AtTheirStarts(procedures: seq<Procedure>, runs: seq<Run>, n: nat) {
    exists places :: StartedInOrder(procedures, runs, places, n)
  }

  lemma AtTheirStartsStill(procedures: seq<Procedure>, runs: seq<Run>, n: nat)
    requires AtTheirStarts(procedures, runs, n)
    ensures AtTheirStarts(procedures, runs, n + 1)
  {
    var places :| StartedInOrder(procedures, runs, places, n);
    assert StartedInOrder(procedures, runs, places, n + 1);
  }

  lemma AtTheirStartsOneMore(procedures: seq<Procedure>, runs: seq<Run>, run: Run, n: nat)
    requires AtTheirStarts(procedures, runs, n) && StartedAt(procedures, run, n)
    ensures AtTheirStarts(procedures, runs + [run], n + 1)
  {
    var places :| StartedInOrder(procedures, runs, places, n);
    assert StartedInOrder(procedures, runs + [run], places + [n], n + 1);
  }

  ghost predicate BothAtTheirStarts(procedures: seq<Procedure>, s: State, n: nat) {
    AtTheirStarts(procedures, s.runs, n) && AtTheirStarts(procedures, s.finished, n)
  }

  function StartRun(p: Procedure): Run
    requires StartsWithCall(p)
  {
    Run(p.name, [p.StartStep().value.id])
  }

  /** One procedure more: its run is last, running or finished, if it starts with the call. */
  predicate StartsNext(p: Procedure, s: State, now: State) {
    if StartsWithCall(p) then
      now == s.(runs := s.runs + [StartRun(p)]) || now == s.(finished := s.finished + [StartRun(p)])
    else now == s
  }

  lemma NoneStarted(procedures: seq<Procedure>)
    ensures BothAtTheirStarts(procedures, StartedUpTo(procedures, 0), 0)
  {
    assert StartedInOrder(procedures, [], [], 0);
  }

  lemma BothStill(procedures: seq<Procedure>, s: State, n: nat)
    requires BothAtTheirStarts(procedures, s, n)
    ensures BothAtTheirStarts(procedures, s, n + 1)
  {
    AtTheirStartsStill(procedures, s.runs, n);
    AtTheirStartsStill(procedures, s.finished, n);
  }

  lemma OneProcedureMore(procedures: seq<Procedure>, s: State, now: State, n: nat)
    requires n < |procedures| && BothAtTheirStarts(procedures, s, n) && StartsNext(procedures[n], s, now)
    ensures BothAtTheirStarts(procedures, now, n + 1)
  {
    BothStill(procedures, s, n);
    if StartsWithCall(procedures[n]) {
      AtTheirStartsOneMore(procedures, s.runs, StartRun(procedures[n]), n);
      AtTheirStartsOneMore(procedures, s.finished, StartRun(procedures[n]), n);
    }
  }

  /** A call begins with those procedures running, or finished if their start is an ending,
      at their start steps and in their order. */
  lemma {:induction false} CallStartTells(procedures: seq<Procedure>, n: nat)
    requires DistinctNames(procedures) && n <= |procedures|
    ensures BothAtTheirStarts(procedures, StartedUpTo(procedures, n), n)
  {
    if n == 0 {
      NoneStarted(procedures);
    } else {
      CallStartTells(procedures, n - 1);
      NextStarted(procedures, n);
      OneProcedureMore(procedures, StartedUpTo(procedures, n - 1), StartedUpTo(procedures, n), n - 1);
    }
  }

  lemma NextStarted(procedures: seq<Procedure>, n: nat)
    requires DistinctNames(procedures) && 0 < n <= |procedures|
    ensures StartsNext(procedures[n - 1], StartedUpTo(procedures, n - 1), StartedUpTo(procedures, n))
  {
    CallStartIsOrderly(procedures, n - 1);
    var p := procedures[n - 1];
    if StartsWithCall(p) {
      NewRunGoesLast(procedures, StartedUpTo(procedures, n - 1), p, StartRun(p), n - 1);
    }
  }

  lemma NewRunGoesLast(procedures: seq<Procedure>, s: State, p: Procedure, run: Run, n: nat)
    requires DistinctNames(procedures) && n < |procedures| && procedures[n] == p && run.name == p.name
    requires Orderly(procedures, s) && StartedExactly(procedures, s, n)
    ensures Placed(s, run) == if EndsAt(procedures, run) then s.(finished := s.finished + [run])
                              else s.(runs := s.runs + [run])
  {
    assert !Started(s, p.name);
    PlacedTells(s, run);
  }
}
