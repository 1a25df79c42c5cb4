/**
 Which steps a call can visit at all. The graph rule asks that every step be
 reachable by moves, but a procedure stops for good at the first ending it meets,
 so a step behind an ending is accepted by the rule and never visited. What a
 call can visit is exactly what an open way leads to.
 */
module ProcedureVisits {
  import opened Options
  import opened Procedures
  import opened ProcedureGraph
  import opened ProcedureState
  import opened ProcedureRuns
  import opened ProcedureFinish

  ghost predicate Visited(procedures: seq<Procedure>, name: string, id: string) {
    exists said :: StandsAt(After(CallStart(procedures), said), name, id)
  }

  ghost predicate OpenTo(p: Procedure, id: string) {
    exists way: Path :: OpenWay(p, way) && way[|way| - 1] == id
  }

  lemma {:induction false} CallStartAtStarts(procedures: seq<Procedure>, n: nat)
    requires n <= |procedures|
    ensures forall r :: r in StartedUpTo(procedures, n).runs + StartedUpTo(procedures, n).finished ==> |r.path| == 1
  {
    if n > 0 {
      CallStartAtStarts(procedures, n - 1);
    }
  }

  lemma VisitedIsOpen(procedures: seq<Procedure>, p: Procedure, id: string, said: seq<Request>)
    requires DistinctNames(procedures) && p in procedures
    requires StandsAt(After(CallStart(procedures), said), p.name, id)
    ensures OpenTo(p, id)
  {
    EveryCallIsOrderly(procedures, said);
    FindByName(procedures, p);
    var s := After(CallStart(procedures), said);
    var r: Run :| (r in s.runs || r in s.finished) && r.name == p.name && r.Current() == id;
    assert GoodRun(procedures, r);
    assert OpenWay(p, r.path);
  }

  /** An open way to a procedure finished as the call starts is just its start. */
  lemma FinishedAtStart(procedures: seq<Procedure>, p: Procedure, way: Path)
    requires DistinctNames(procedures) && p in procedures && OpenWay(p, way)
    requires FindRun(CallStart(procedures).finished, p.name).Some?
    ensures StandsAt(CallStart(procedures), p.name, way[|way| - 1])
  {
    var s := CallStart(procedures);
    var r := FindRun(s.finished, p.name).value;
    FindByName(procedures, p);
    CallStartIsOrderly(procedures, |procedures|);
    CallStartAtStarts(procedures, |procedures|);
    assert r in s.runs + s.finished;
    assert GoodRun(procedures, r) && EndsAt(procedures, r);
    assert r.path == [way[0]];
    assert r.Current() == way[|way| - 1];
  }

  lemma OpenIsVisited(procedures: seq<Procedure>, p: Procedure, id: string)
    requires Accepts(procedures) && p in procedures && OpenTo(p, id)
    ensures Visited(procedures, p.name, id)
  {
    var way: Path :| OpenWay(p, way) && way[|way| - 1] == id;
    if FindRun(CallStart(procedures).finished, p.name).Some? {
      FinishedAtStart(procedures, p, way);
      assert StandsAt(After(CallStart(procedures), []), p.name, id);
    } else {
      var said := ToEndOfWay(procedures, p, way);
      assert StandsAt(After(CallStart(procedures), said), p.name, id);
    }
  }

  lemma ToEndOfWay(procedures: seq<Procedure>, p: Procedure, way: Path) returns (said: seq<Request>)
    requires Accepts(procedures) && p in procedures && OpenWay(p, way)
    requires FindRun(CallStart(procedures).finished, p.name).None?
    ensures StandsAt(After(CallStart(procedures), said), p.name, way[|way| - 1])
  {
    var s := CallStart(procedures);
    EveryCallIsOrderly(procedures, []);
    var simple := CutLoops(p, way);
    SimpleWayIsGood(p, simple);
    var first := ToStart(procedures, s, p);
    MovesKeepOrder(procedures, s, first);
    var rest := OnFromStart(procedures, After(s, first), p, simple);
    AfterBoth(s, first, rest);
    said := first + rest;
    StandingIsStandsAt(procedures, After(s, said), Run(p.name, simple));
  }

  lemma OnFromStart(procedures: seq<Procedure>, s: State, p: Procedure, way: Path) returns (said: seq<Request>)
    requires DistinctNames(procedures) && p in procedures && Orderly(procedures, s)
    requires GoodPath(p, way) && NoRepeat(way) && Stands(procedures, s, Run(p.name, [way[0]]))
    ensures Stands(procedures, After(s, said), Run(p.name, way))
  {
    FindByName(procedures, p);
    assert way[..1] == [way[0]];
    said := WalkOn(procedures, s, p.name, way, 1);
  }

  lemma StandingIsStandsAt(procedures: seq<Procedure>, s: State, r: Run)
    requires Stands(procedures, s, r)
    ensures StandsAt(s, r.name, r.Current())
  {
    assert r in s.runs || r in s.finished;
  }

  /** A call can visit a step exactly when moves lead to it from the start without
      passing an ending on the way. */
  lemma VisitedIffOpen(procedures: seq<Procedure>, p: Procedure, id: string)
    requires Accepts(procedures) && p in procedures
    ensures Visited(procedures, p.name, id) <==> OpenTo(p, id)
  {
    if Visited(procedures, p.name, id) {
      var said :| StandsAt(After(CallStart(procedures), said), p.name, id);
      VisitedIsOpen(procedures, p, id, said);
    }
    if OpenTo(p, id) {
      OpenIsVisited(procedures, p, id);
    }
  }

  // ----- a graph the rule accepts with a step no call can visit

  const ASK := Step("ask", "ask", true, None, ["close"], [])
  const CLOSE := Step("close", "end", false, None, ["after"], [])
  const AFTER := Step("after", "ask", false, None, [], [])
  const BEHIND := Procedure("behind", CALL, 1, [ASK, CLOSE, AFTER], false)

  lemma BehindSteps()
    ensures BEHIND.StepAt("ask") == Some(ASK) && BEHIND.StepAt("close") == Some(CLOSE)
    ensures BEHIND.StepAt("after") == Some(AFTER) && BEHIND.StartStep() == Some(ASK)
    ensures forall s :: s in BEHIND.steps <==> s in {ASK, CLOSE, AFTER}
  {
    assert BEHIND.steps[0] == ASK && BEHIND.steps[1..] == [CLOSE, AFTER];
    assert [CLOSE, AFTER][1..] == [AFTER];
  }

  lemma BehindMoves()
    ensures BEHIND.HasMove("ask", "close") && BEHIND.HasMove("close", "after")
    ensures forall id :: BEHIND.HasMove(id, "after") ==> BEHIND.EndsAt(id)
  {
    BehindSteps();
    forall id | BEHIND.HasMove(id, "after") ensures id == "close" {
      var s := BEHIND.StepAt(id).value;
      assert s in BEHIND.steps;
    }
  }

  lemma BehindReaches()
    ensures BEHIND.Reaches("ask", "ask") && BEHIND.Reaches("ask", "close") && BEHIND.Reaches("ask", "after")
  {
    BehindMoves();
    assert BEHIND.ReachesIn("ask", "ask", 0);
    ReachesOneMore(BEHIND, "ask", "ask", "close");
    ReachesOneMore(BEHIND, "ask", "close", "after");
  }

  lemma BehindHasAWellFormedShape()
    ensures UniqueIds(BEHIND.steps) && OneStart(BEHIND.steps) && HasEnding(BEHIND) && MovesLand(BEHIND)
  {
    BehindSteps();
    assert ASK in BEHIND.steps && CLOSE in BEHIND.steps;
  }

  lemma BehindIsAllReachable()
    ensures AllReachable(BEHIND)
  {
    BehindSteps();
    BehindReaches();
    forall s | s in BEHIND.steps ensures BEHIND.Reaches("ask", s.id) {
      assert s in {ASK, CLOSE, AFTER};
    }
  }

  lemma BehindIsAccepted()
    ensures Accepts([BEHIND])
  {
    BehindHasAWellFormedShape();
    BehindIsAllReachable();
    forall s | s in BEHIND.steps ensures s.kind in STEP_KINDS && EscalatesRight(s) {
      BehindSteps();
    }
    assert WellFormed(BEHIND);
  }

  lemma LastMoveOfWay(p: Procedure, way: Path)
    requires OpenWay(p, way) && |way| > 1
    ensures exists m :: p.HasMove(m, way[|way| - 1]) && !p.EndsAt(m)
  {
    var k := |way| - 2;
    assert p.HasMove(way[k], way[k + 1]) && !p.EndsAt(way[k]);
  }

  lemma NoOpenWayBehind(way: Path)
    ensures !(OpenWay(BEHIND, way) && way[|way| - 1] == "after")
  {
    BehindSteps();
    BehindMoves();
    if OpenWay(BEHIND, way) && |way| > 1 {
      LastMoveOfWay(BEHIND, way);
    }
  }

  /** The rule accepts it, every step is reachable by its moves, and yet no call
      ever visits the step behind the ending. */
  lemma AcceptedButNeverVisited()
    ensures Accepts([BEHIND]) && BEHIND.Reaches("ask", "after")
    ensures !Visited([BEHIND], BEHIND.name, "after")
  {
    BehindIsAccepted();
    BehindReaches();
    forall way: Path ensures !(OpenWay(BEHIND, way) && way[|way| - 1] == "after") {
      NoOpenWayBehind(way);
    }
    VisitedIffOpen([BEHIND], BEHIND, "after");
  }
}
