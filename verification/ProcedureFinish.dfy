/**
 No dead ends: a call whose procedures the graph rule accepts can always still
 finish every one of them. A running procedure walks back to its start, which is
 always allowed, and from there along a way that repeats nothing and meets its
 first ending at its end.
 */
module ProcedureFinish {
  import opened Options
  import opened Procedures
  import opened ProcedureGraph
  import opened ProcedureState
  import opened ProcedureWindow
  import opened ProcedureRuns

  // ----- what is shown is what is accepted

  function Targets(shown: seq<Shown>): set<string> {
    set m | m in shown :: m.to
  }

  lemma FindOnlyRun(runs: seq<Run>, r: Run)
    requires NoNameTwice(runs) && r in runs
    ensures FindRun(runs, r.name) == Some(r)
  {
    var q := FindRun(runs, r.name).value;
    var i :| 0 <= i < |runs| && runs[i] == r;
    var j :| 0 <= j < |runs| && runs[j] == q;
  }

  /** The step's own moves are shown as onward moves, and the way back as one back. */
  ghost predicate ShowsEach(shown: seq<Shown>, current: Step, back: Option<string>) {
    forall t :: (Forward(t) in shown <==> t in current.moves) && (BackTo(t) in shown <==> back == Some(t))
  }

  lemma WindowShowsEach(current: Step, path: Path)
    ensures ShowsEach(WindowMoves(current, path), current, Run("", path).Back())
  {
    var shown := WindowMoves(current, path);
    forall t ensures Forward(t) in shown <==> t in current.moves {
      if t in current.moves {
        var i :| 0 <= i < |current.moves| && current.moves[i] == t;
        assert shown[i] == Forward(t);
      }
    }
    assert |path| > 1 ==> shown[|current.moves|] == BackTo(path[|path| - 2]);
  }

  lemma WindowShowsAllowed(current: Step, path: Path)
    ensures Targets(WindowMoves(current, path))
      == set t | t in Allowed(Some(current), Run("", path).Back())
  {
    var shown, allowed := WindowMoves(current, path), Allowed(Some(current), Run("", path).Back());
    forall t ensures t in Targets(shown) <==> t in allowed {
      if t in current.moves {
        var i :| 0 <= i < |current.moves| && current.moves[i] == t;
        assert shown[i] == Forward(t);
      } else if |path| > 1 && t == path[|path| - 2] {
        assert shown[|current.moves|] == BackTo(t);
      }
    }
  }

  /** What a running procedure answers to a move, said in terms of what is allowed. */
  ghost predicate AnswersAsAllowed(current: Step, r: Run, to: string, reply: Reply) {
    var allowed := Allowed(Some(current), r.Back());
    && Targets(WindowMoves(current, r.path)) == (set t | t in allowed)
    && ShowsEach(WindowMoves(current, r.path), current, r.Back())
    && (reply.Stays? <==> to == r.Current())
    && (reply.Arrived? <==> to in allowed && to != r.Current())
    && (reply.Refused? ==> reply == Refused(Some(r.Current()), allowed))
  }

  lemma RunAnswersAsAllowed(s: State, p: Procedure, r: Run, current: Step, to: string)
    requires p.StepAt(r.Current()) == Some(current)
    requires to in Allowed(Some(current), r.Back()) ==> p.StepAt(to).Some?
    ensures AnswersAsAllowed(current, r, to, MoveRun(s, p, r, to).reply)
  {
    WindowShowsAllowed(current, r.path);
    WindowShowsEach(current, r.path);
  }

  lemma AllowedStepsExist(p: Procedure, path: Path, current: Step, to: string)
    requires MovesLand(p) && GoodPath(p, path) && p.StepAt(path[|path| - 1]) == Some(current)
    requires to in Allowed(Some(current), Run("", path).Back())
    ensures p.StepAt(to).Some?
  {
    assert current in p.steps;
  }

  /** In every reachable state, for every running procedure: the moves the window
      lists, the moves a refusal names and the moves accepted are the same, but
      for the current step itself, which always stays. */
  lemma AdvertisedIsAccepted(procedures: seq<Procedure>, said: seq<Request>, r: Run, to: string)
    requires Accepts(procedures)
    requires r in After(CallStart(procedures), said).runs
    ensures exists current ::
      && FindProcedure(procedures, r.name).Some?
      && FindProcedure(procedures, r.name).value.StepAt(r.Current()) == Some(current)
      && AnswersAsAllowed(current, r, to, Move(After(CallStart(procedures), said), r.name, to).reply)
  {
    EveryCallIsOrderly(procedures, said);
    AnswersInOrder(procedures, After(CallStart(procedures), said), r, to);
  }

  lemma AnswersInOrder(procedures: seq<Procedure>, s: State, r: Run, to: string)
    requires Accepts(procedures) && Orderly(procedures, s) && r in s.runs
    ensures exists current ::
      && FindProcedure(procedures, r.name).Some?
      && FindProcedure(procedures, r.name).value.StepAt(r.Current()) == Some(current)
      && AnswersAsAllowed(current, r, to, Move(s, r.name, to).reply)
  {
    FindOnlyRun(s.runs, r);
    assert FindRun(s.finished, r.name).None?;
    assert GoodRun(procedures, r);
    var p := FindProcedure(procedures, r.name).value;
    assert WellFormed(p);
    var current := p.StepAt(r.Current()).value;
    if to in Allowed(Some(current), r.Back()) {
      AllowedStepsExist(p, r.path, current, to);
    }
    RunAnswersAsAllowed(s, p, r, current, to);
    assert Move(s, r.name, to) == MoveRun(s, p, r, to);
  }

  // ----- ways from the start that meet no ending before their last step

  ghost predicate OpenWay(p: Procedure, way: Path) {
    && p.StartStep().Some? && way[0] == p.StartStep().value.id
    && p.StepAt(way[|way| - 1]).Some?
    && forall i :: 0 <= i < |way| - 1 ==> p.HasMove(way[i], way[i + 1]) && !p.EndsAt(way[i])
  }

  ghost predicate NoRepeat(way: seq<string>) {
    forall i, j :: 0 <= i < j < |way| ==> way[i] != way[j]
  }

  ghost predicate Walk(p: Procedure, way: Path) {
    forall i :: 0 <= i < |way| - 1 ==> p.HasMove(way[i], way[i + 1])
  }

  lemma {:induction false} WayOf(p: Procedure, a: string, b: string, n: nat) returns (way: Path)
    requires p.ReachesIn(a, b, n)
    ensures Walk(p, way) && way[0] == a && way[|way| - 1] == b
    decreases n
  {
    if n == 0 {
      way := [a];
    } else {
      var m :| p.ReachesIn(a, m, n - 1) && p.HasMove(m, b);
      var front := WayOf(p, a, m, n - 1);
      way := front + [b];
      WalkOneMore(p, front, b);
    }
  }

  lemma WalkOneMore(p: Procedure, front: Path, b: string)
    requires Walk(p, front) && p.HasMove(front[|front| - 1], b)
    ensures Walk(p, front + [b])
  {
    var way := front + [b];
    forall i | 0 <= i < |way| - 1 ensures p.HasMove(way[i], way[i + 1]) {
      assert way[i] == front[i];
      assert i + 1 < |front| ==> way[i + 1] == front[i + 1];
    }
  }

  /** A walk from the start to an ending, cut at the first ending it meets. */
  lemma {:induction false} CutAtEnding(p: Procedure, walk: Path) returns (way: Path)
    requires Walk(p, walk) && p.StartStep().Some? && walk[0] == p.StartStep().value.id
    requires p.EndsAt(walk[|walk| - 1])
    ensures OpenWay(p, way) && p.EndsAt(way[|way| - 1])
    decreases |walk|
  {
    if k :| 0 <= k < |walk| - 1 && p.EndsAt(walk[k]) {
      way := CutAtEnding(p, walk[..k + 1]);
    } else {
      way := walk;
    }
  }

  lemma CutOneLoop(p: Procedure, way: Path, i: nat, j: nat)
    requires OpenWay(p, way) && i < j < |way| && way[i] == way[j]
    ensures way[..i] + way[j..] != []
    ensures var shorter: Path := way[..i] + way[j..];
      OpenWay(p, shorter) && shorter[|shorter| - 1] == way[|way| - 1]
  {
    var shorter: Path := way[..i] + way[j..];
    forall k | 0 <= k < |shorter| - 1 ensures p.HasMove(shorter[k], shorter[k + 1]) && !p.EndsAt(shorter[k]) {
      var at := if k < i then k else k + j - i;
      assert shorter[k] == way[at] && shorter[k + 1] == way[at + 1];
    }
  }

  /** An open way with its loops cut out. */
  lemma {:induction false} CutLoops(p: Procedure, way: Path) returns (simple: Path)
    requires OpenWay(p, way)
    ensures OpenWay(p, simple) && NoRepeat(simple)
    ensures simple[|simple| - 1] == way[|way| - 1]
    decreases |way|
  {
    if i, j :| 0 <= i < j < |way| && way[i] == way[j] {
      CutOneLoop(p, way, i, j);
      simple := CutLoops(p, way[..i] + way[j..]);
    } else {
      simple := way;
    }
  }

  lemma SimpleWayIsGood(p: Procedure, way: Path)
    requires OpenWay(p, way) && NoRepeat(way)
    ensures GoodPath(p, way)
  {
    forall i | 0 <= i < |way| ensures p.StepAt(way[i]).Some? {
      assert i < |way| - 1 ==> p.HasMove(way[i], way[i + 1]);
    }
    forall i | 0 <= i < |way| - 2 ensures way[i] != way[i + 2] {
    }
  }

  /** In a graph the rule accepts, a way that repeats nothing leads from the start
      to an ending, its first. */
  lemma WayToEnding(p: Procedure) returns (way: Path)
    requires WellFormed(p)
    ensures GoodPath(p, way) && NoRepeat(way) && p.EndsAt(way[|way| - 1])
  {
    var e :| e in p.steps && e.kind in ENDING_STEP_KINDS;
    var start := p.StartStep().value;
    assert p.Reaches(start.id, e.id);
    var n: nat :| p.ReachesIn(start.id, e.id, n);
    var walk := WayOf(p, start.id, e.id, n);
    StepAtOwnId(p, e);
    var open := CutAtEnding(p, walk);
    way := CutLoops(p, open);
    SimpleWayIsGood(p, way);
  }

  lemma StepAtOwnId(p: Procedure, s: Step)
    requires UniqueIds(p.steps) && s in p.steps
    ensures p.StepAt(s.id) == Some(s)
  {
  }

  // ----- finishing one procedure

  /** `run` is where its procedure stands: finished at an ending, else running. */
  ghost predicate Stands(procedures: seq<Procedure>, s: State, run: Run) {
    if EndsAt(procedures, run) then run in s.finished else FindRun(s.runs, run.name) == Some(run)
  }

  lemma PlacedStands(procedures: seq<Procedure>, s: State, run: Run)
    requires Orderly(procedures, s) && GoodRun(procedures, run) && FindRun(s.finished, run.name).None?
    ensures Stands(procedures, Placed(s, run), run)
  {
    PlacedIsListedOnce(s, run);
    if !EndsAt(procedures, run) {
      ReplacedHolds(s.runs, run);
      FindOnlyRun(Placed(s, run).runs, run);
    }
  }

  /** An accepted move keeps the state orderly and puts its procedure where the
      move says. */
  lemma AcceptedMove(procedures: seq<Procedure>, s: State, name: string, to: string, next: Run)
    requires Orderly(procedures, s) && NextRun(s, name, to) == Some(next)
    ensures AllAccepted(s, [Request(name, to)])
    ensures var now := After(s, [Request(name, to)]);
      Orderly(procedures, now) && Stands(procedures, now, next)
      && s.finished <= now.finished
      && forall n :: Started(s, n) ==> Started(now, n)
  {
    MovePlacesNextRun(s, name, to);
    NextRunIsGood(procedures, s, name, to);
    MoveKeepsOrder(procedures, s, name, to);
    PlacedStands(procedures, s, next);
    MoveLeavesOthers(s, name, to);
    var now := Move(s, name, to).state;
    assert After(s, [Request(name, to)]) == After(now, []) == now;
    assert AllAccepted(now, []);
  }

  lemma OneMoreAccepted(s: State, first: Request, rest: seq<Request>)
    requires AllAccepted(s, [first]) && AllAccepted(After(s, [first]), rest)
    ensures AllAccepted(s, [first] + rest)
    ensures After(s, [first] + rest) == After(After(s, [first]), rest)
  {
    AfterBoth(s, [first], rest);
  }

  /** Back to the start, one step at a time: always allowed. */
  lemma {:induction false} WalkBack(procedures: seq<Procedure>, s: State, r: Run) returns (said: seq<Request>)
    requires Orderly(procedures, s) && FindRun(s.runs, r.name) == Some(r)
    ensures AllAccepted(s, said)
    ensures FindRun(After(s, said).runs, r.name) == Some(Run(r.name, [r.path[0]]))
    ensures |said| == |r.path| - 1
    decreases |r.path|
  {
    if |r.path| == 1 {
      said := [];
      assert r == Run(r.name, [r.path[0]]);
    } else {
      var to, shorter := r.path[|r.path| - 2], Run(r.name, r.path[..|r.path| - 1]);
      var p := FindProcedure(procedures, r.name).value;
      assert GoodPath(p, r.path) && FindRun(s.finished, r.name).None?;
      assert r.path[|r.path| - 2] != r.path[|r.path| - 1];
      assert NextRun(s, r.name, to) == Some(shorter);
      AcceptedMove(procedures, s, r.name, to, shorter);
      assert !EndsAt(procedures, shorter);
      var rest := WalkBack(procedures, After(s, [Request(r.name, to)]), shorter);
      OneMoreAccepted(s, Request(r.name, to), rest);
      said := [Request(r.name, to)] + rest;
    }
  }

  /** Forward along a good way that repeats nothing, from its first `k` steps on. */
  lemma {:induction false} WalkOn(procedures: seq<Procedure>, s: State, name: string, way: Path, k: nat)
    returns (said: seq<Request>)
    requires Orderly(procedures, s) && GoodRun(procedures, Run(name, way)) && NoRepeat(way)
    requires 0 < k <= |way| && Stands(procedures, s, Run(name, way[..k]))
    ensures AllAccepted(s, said)
    ensures Stands(procedures, After(s, said), Run(name, way))
    ensures |said| == |way| - k
    decreases |way| - k
  {
    if k == |way| {
      said := [];
      assert way[..k] == way;
    } else {
      var next := Run(name, way[..k + 1]);
      WayStepIsAccepted(procedures, s, name, way, k);
      AcceptedMove(procedures, s, name, way[k], next);
      var rest := WalkOn(procedures, After(s, [Request(name, way[k])]), name, way, k + 1);
      OneMoreAccepted(s, Request(name, way[k]), rest);
      said := [Request(name, way[k])] + rest;
    }
  }

  lemma WayStepIsAccepted(procedures: seq<Procedure>, s: State, name: string, way: Path, k: nat)
    requires Orderly(procedures, s) && GoodRun(procedures, Run(name, way)) && NoRepeat(way)
    requires 0 < k < |way| && Stands(procedures, s, Run(name, way[..k]))
    ensures NextRun(s, name, way[k]) == Some(Run(name, way[..k + 1]))
  {
    var p := FindProcedure(procedures, name).value;
    var here := Run(name, way[..k]);
    assert p.HasMove(way[k - 1], way[k]) && !p.EndsAt(way[k - 1]);
    assert here.Current() == way[k - 1];
    assert way[..k] + [way[k]] == way[..k + 1];
    assert here.Back() != Some(way[k]);
    assert FindRun(s.finished, name).None?;
  }

  /** From wherever it stands, not started, running or finished, one procedure can
      be brought to its end by moves that are all accepted. */
  lemma FinishOne(procedures: seq<Procedure>, s: State, p: Procedure) returns (said: seq<Request>)
    requires Accepts(procedures) && p in procedures
    requires Orderly(procedures, s) && CallsStarted(procedures, s)
    ensures AllAccepted(s, said)
    ensures FindRun(After(s, said).finished, p.name).Some?
  {
    FindByName(procedures, p);
    if FindRun(s.finished, p.name).Some? {
      said := [];
    } else {
      var way := WayToEnding(p);
      var first := ToStart(procedures, s, p);
      assert way[..1] == [way[0]];
      MovesKeepOrder(procedures, s, first);
      var rest := WalkOn(procedures, After(s, first), p.name, way, 1);
      AfterBoth(s, first, rest);
      said := first + rest;
      StandsAtItsEnd(procedures, After(s, said), p, way);
    }
  }

  lemma StandsAtItsEnd(procedures: seq<Procedure>, s: State, p: Procedure, way: Path)
    requires FindProcedure(procedures, p.name) == Some(p) && p.EndsAt(way[|way| - 1])
    requires Stands(procedures, s, Run(p.name, way))
    ensures FindRun(s.finished, p.name).Some?
  {
    assert Run(p.name, way) in s.finished;
  }

  /** A procedure not finished can be brought to its start step: back, or by starting it. */
  lemma ToStart(procedures: seq<Procedure>, s: State, p: Procedure) returns (said: seq<Request>)
    requires Accepts(procedures) && p in procedures
    requires Orderly(procedures, s) && CallsStarted(procedures, s)
    requires FindRun(s.finished, p.name).None?
    ensures p.StartStep().Some?
    ensures AllAccepted(s, said)
    ensures Stands(procedures, After(s, said), Run(p.name, [p.StartStep().value.id]))
  {
    FindByName(procedures, p);
    assert WellFormed(p);
    var start := p.StartStep().value.id;
    var r := FindRun(s.runs, p.name);
    if r.Some? {
      assert GoodRun(procedures, r.value);
      said := WalkBack(procedures, s, r.value);
      MovesKeepOrder(procedures, s, said);
    } else {
      assert p.start == ON_REQUEST;
      said := [Request(p.name, start)];
      AcceptedMove(procedures, s, p.name, start, Run(p.name, [start]));
    }
  }

  // ----- finishing them all

  ghost predicate AllFinished(procedures: seq<Procedure>, s: State) {
    s.runs == [] && forall p :: p in procedures ==> FindRun(s.finished, p.name).Some?
  }

  ghost predicate FirstFinished(procedures: seq<Procedure>, s: State, n: nat)
    requires n <= |procedures|
  {
    forall i :: 0 <= i < n ==> FindRun(s.finished, procedures[i].name).Some?
  }

  lemma StillFinished(procedures: seq<Procedure>, s: State, now: State, n: nat)
    requires n <= |procedures| && s.finished <= now.finished && FirstFinished(procedures, s, n)
    ensures FirstFinished(procedures, now, n)
  {
    forall i | 0 <= i < n ensures FindRun(now.finished, procedures[i].name).Some? {
      var r := FindRun(s.finished, procedures[i].name).value;
      var k :| 0 <= k < |s.finished| && s.finished[k] == r;
      assert now.finished[k] == r;
    }
  }

  lemma {:induction false} FinishFirst(procedures: seq<Procedure>, s: State, n: nat) returns (said: seq<Request>)
    requires Accepts(procedures) && n <= |procedures|
    requires Orderly(procedures, s) && CallsStarted(procedures, s)
    ensures AllAccepted(s, said)
    ensures FirstFinished(procedures, After(s, said), n)
    decreases n
  {
    if n == 0 {
      said := [];
    } else {
      var first := FinishFirst(procedures, s, n - 1);
      MovesKeepOrder(procedures, s, first);
      var last := FinishNext(procedures, After(s, first), n);
      AfterBoth(s, first, last);
      said := first + last;
    }
  }

  lemma FinishNext(procedures: seq<Procedure>, s: State, n: nat) returns (said: seq<Request>)
    requires Accepts(procedures) && 0 < n <= |procedures|
    requires Orderly(procedures, s) && CallsStarted(procedures, s) && FirstFinished(procedures, s, n - 1)
    ensures AllAccepted(s, said)
    ensures FirstFinished(procedures, After(s, said), n)
  {
    said := FinishOne(procedures, s, procedures[n - 1]);
    MovesKeepOrder(procedures, s, said);
    StillFinished(procedures, s, After(s, said), n - 1);
    OneFinishedMore(procedures, After(s, said), n);
  }

  lemma OneFinishedMore(procedures: seq<Procedure>, s: State, n: nat)
    requires 0 < n <= |procedures| && FirstFinished(procedures, s, n - 1)
    requires FindRun(s.finished, procedures[n - 1].name).Some?
    ensures FirstFinished(procedures, s, n)
  {
  }

  lemma RunningIsNotFinished(procedures: seq<Procedure>, s: State, r: Run)
    requires Orderly(procedures, s) && r in s.runs
    ensures exists p :: p in procedures && FindRun(s.finished, p.name).None?
  {
    assert GoodRun(procedures, r);
    assert FindProcedure(procedures, r.name).value in procedures;
  }

  /** No dead ends: whatever has been reported so far in a call whose procedures
      the rule accepts, some further moves, every one of them accepted, finish
      every procedure. */
  lemma NoDeadEnds(procedures: seq<Procedure>, said: seq<Request>)
    requires Accepts(procedures)
    ensures exists more ::
      && AllAccepted(After(CallStart(procedures), said), more)
      && AllFinished(procedures, After(After(CallStart(procedures), said), more))
  {
    EveryCallIsOrderly(procedures, said);
    var s := After(CallStart(procedures), said);
    var more := FinishFirst(procedures, s, |procedures|);
    MovesKeepOrder(procedures, s, more);
    var end := After(s, more);
    if end.runs != [] {
      RunningIsNotFinished(procedures, end, end.runs[0]);
    }
  }
}
