/**
 The procedure window: what the model is shown of a procedure on one turn. The
 preview is a layered breadth-first search; `Found` is that search as a function,
 and the lemmas say it is exact: each step once, nearest first, next to a step
 one move nearer.
 */
module ProcedureWindow {
  import opened Options
  import opened Procedures
  import opened ProcedureGraph

  /** A previewed step and the step it is reached from. */
  datatype Ahead = Ahead(step: Step, cameFrom: string)

  function AheadIds(found: seq<Ahead>): set<string> {
    set a | a in found :: a.step.id
  }

  function StepsOf(found: seq<Ahead>): seq<Step> {
    seq(|found|, i requires 0 <= i < |found| => found[i].step)
  }

  /** The next layer, read from move `i` of the frontier's first step on: what the
      frontier's moves lead to, in order, without the steps already seen. */
  function Scan(p: Procedure, frontier: seq<Step>, i: nat, seen: set<string>): seq<Ahead>
    requires i <= if frontier == [] then 0 else |frontier[0].moves|
    decreases |frontier|, if frontier == [] then 0 else |frontier[0].moves| - i
  {
    if frontier == [] then []
    else if i == |frontier[0].moves| then Scan(p, frontier[1..], 0, seen)
    else
      var target := p.StepAt(frontier[0].moves[i]);
      if target.None? || target.value.id in seen then Scan(p, frontier, i + 1, seen)
      else [Ahead(target.value, frontier[0].id)] + Scan(p, frontier, i + 1, seen + {target.value.id})
  }

  function Frontier(p: Procedure, current: Step, d: nat): seq<Step>
    decreases d, 1
  {
    if d == 0 then [current] else StepsOf(Layer(p, current, d))
  }

  function Layer(p: Procedure, current: Step, d: nat): seq<Ahead>
    requires d > 0
    decreases d, 0
  {
    Scan(p, Frontier(p, current, d - 1), 0, Seen(p, current, d - 1))
  }

  function Found(p: Procedure, current: Step, d: nat): seq<Ahead>
    decreases d, 1
  {
    if d == 0 then [] else Found(p, current, d - 1) + Layer(p, current, d)
  }

  function Seen(p: Procedure, current: Step, d: nat): set<string>
    decreases d, 2
  {
    {current.id} + AheadIds(Found(p, current, d))
  }

  lemma AheadIdsJoin(a: seq<Ahead>, b: seq<Ahead>)
    ensures AheadIds(a + b) == AheadIds(a) + AheadIds(b)
  {
    assert forall x :: x in a + b <==> x in a || x in b;
  }

  /** One layer of `steps_ahead`: the loops over the frontier and its moves. */
  method NextLayer(p: Procedure, frontier: seq<Step>, before: set<string>)
    returns (layer: seq<Ahead>, seen: set<string>)
    ensures layer == Scan(p, frontier, 0, before)
    ensures seen == before + AheadIds(layer)
  {
    layer, seen := [], before;
    assert frontier[0..] == frontier;
    for j := 0 to |frontier|
      invariant seen == before + AheadIds(layer)
      invariant layer + Scan(p, frontier[j..], 0, seen) == Scan(p, frontier, 0, before)
    {
      var step := frontier[j];
      assert frontier[j..][1..] == frontier[j + 1..];
      for i := 0 to |step.moves|
        invariant seen == before + AheadIds(layer)
        invariant layer + Scan(p, frontier[j..], i, seen) == Scan(p, frontier, 0, before)
      {
        var target := p.StepAt(step.moves[i]);
        if target.Some? && target.value.id !in seen {
          AheadIdsJoin(layer, [Ahead(target.value, step.id)]);
          seen := seen + {target.value.id};
          layer := layer + [Ahead(target.value, step.id)];
        }
      }
    }
  }

  /** `steps_ahead`: a negative depth previews nothing. */
  method StepsAhead(p: Procedure, current: Step, depth: int) returns (found: seq<Ahead>)
    ensures found == Found(p, current, if depth < 0 then 0 else depth)
  {
    var seen := {current.id};
    var frontier := [current];
    found := [];
    for d := 0 to if depth < 0 then 0 else depth
      invariant found == Found(p, current, d)
      invariant frontier == Frontier(p, current, d)
      invariant seen == Seen(p, current, d)
    {
      var layer, now := NextLayer(p, frontier, seen);
      AheadIdsJoin(found, layer);
      found, frontier, seen := found + layer, StepsOf(layer), now;
    }
  }

  // ----- the search is exact

  /** `d` moves lead from `a` to `b`, and no fewer do. */
  ghost predicate AtDistance(p: Procedure, a: string, b: string, d: nat) {
    p.ReachesIn(a, b, d) && forall k :: 0 <= k < d ==> !p.ReachesIn(a, b, k)
  }

  ghost predicate WithinReach(p: Procedure, a: string, b: string, d: nat) {
    exists k :: 0 <= k <= d && p.ReachesIn(a, b, k)
  }

  ghost predicate NoIdTwice(found: seq<Ahead>) {
    forall i, j :: 0 <= i < j < |found| ==> found[i].step.id != found[j].step.id
  }

  /** Steps as the procedure has them, no id twice, none of them in `seen`. */
  ghost predicate NewSteps(p: Procedure, found: seq<Ahead>, seen: set<string>) {
    && (forall a :: a in found ==> p.StepAt(a.step.id) == Some(a.step))
    && AheadIds(found) !! seen
    && NoIdTwice(found)
  }

  lemma NoIdTwiceJoin(first: seq<Ahead>, rest: seq<Ahead>)
    requires NoIdTwice(first) && NoIdTwice(rest) && AheadIds(first) !! AheadIds(rest)
    ensures NoIdTwice(first + rest)
  {
    var all := first + rest;
    forall i, j | 0 <= i < j < |all| ensures all[i].step.id != all[j].step.id {
      if i < |first| <= j {
        assert all[i] in first && all[i].step.id in AheadIds(first);
        assert all[j] in rest && all[j].step.id in AheadIds(rest);
      }
    }
  }

  lemma NewStepsJoin(p: Procedure, first: seq<Ahead>, rest: seq<Ahead>, seen: set<string>)
    requires NewSteps(p, first, seen) && NewSteps(p, rest, seen + AheadIds(first))
    ensures NewSteps(p, first + rest, seen)
  {
    NoIdTwiceJoin(first, rest);
    AheadIdsJoin(first, rest);
  }

  lemma {:induction false} ScanGivesNewSteps(p: Procedure, frontier: seq<Step>, i: nat, seen: set<string>)
    requires i <= if frontier == [] then 0 else |frontier[0].moves|
    ensures NewSteps(p, Scan(p, frontier, i, seen), seen)
    decreases |frontier|, if frontier == [] then 0 else |frontier[0].moves| - i
  {
    if frontier == [] {
    } else if i == |frontier[0].moves| {
      ScanGivesNewSteps(p, frontier[1..], 0, seen);
    } else {
      var target := p.StepAt(frontier[0].moves[i]);
      if target.None? || target.value.id in seen {
        ScanGivesNewSteps(p, frontier, i + 1, seen);
      } else {
        var first := [Ahead(target.value, frontier[0].id)];
        ScanGivesNewSteps(p, frontier, i + 1, seen + {target.value.id});
        assert AheadIds(first) == {target.value.id};
        NewStepsJoin(p, first, Scan(p, frontier, i + 1, seen + {target.value.id}), seen);
      }
    }
  }

  /** `cameFrom` is a step of the frontier with a move to the step found. */
  ghost predicate CameFrom(frontier: seq<Step>, a: Ahead) {
    exists s :: s in frontier && s.id == a.cameFrom && a.step.id in s.moves
  }

  lemma {:induction false} ScanComesFromFrontier(p: Procedure, frontier: seq<Step>, i: nat, seen: set<string>, a: Ahead)
    requires i <= if frontier == [] then 0 else |frontier[0].moves|
    requires a in Scan(p, frontier, i, seen)
    ensures CameFrom(frontier, a)
    decreases |frontier|, if frontier == [] then 0 else |frontier[0].moves| - i
  {
    if i == |frontier[0].moves| {
      ScanComesFromFrontier(p, frontier[1..], 0, seen, a);
      var s :| s in frontier[1..] && s.id == a.cameFrom && a.step.id in s.moves;
      assert s in frontier;
    } else {
      var target := p.StepAt(frontier[0].moves[i]);
      if target.None? || target.value.id in seen {
        ScanComesFromFrontier(p, frontier, i + 1, seen, a);
      } else if a == Ahead(target.value, frontier[0].id) {
        assert frontier[0] in frontier;
      } else {
        ScanComesFromFrontier(p, frontier, i + 1, seen + {target.value.id}, a);
      }
    }
  }

  /** An existing step that move `k` of the frontier's step `j` leads to is
      found, unless it was seen before. */
  lemma {:induction false} ScanMissesNothing(p: Procedure, frontier: seq<Step>, i: nat, seen: set<string>, j: nat, k: nat)
    requires j < |frontier| && k < |frontier[j].moves|
    requires i <= |frontier[0].moves| && (j == 0 ==> i <= k)
    requires p.StepAt(frontier[j].moves[k]).Some?
    ensures frontier[j].moves[k] in seen + AheadIds(Scan(p, frontier, i, seen))
    decreases |frontier|, |frontier[0].moves| - i
  {
    if i == |frontier[0].moves| {
      ScanMissesNothing(p, frontier[1..], 0, seen, j - 1, k);
    } else {
      var target := p.StepAt(frontier[0].moves[i]);
      if target.None? || target.value.id in seen {
        if j != 0 || k != i {
          ScanMissesNothing(p, frontier, i + 1, seen, j, k);
        }
      } else {
        var first := [Ahead(target.value, frontier[0].id)];
        AheadIdsJoin(first, Scan(p, frontier, i + 1, seen + {target.value.id}));
        assert AheadIds(first) == {target.value.id};
        if j != 0 || k != i {
          ScanMissesNothing(p, frontier, i + 1, seen + {target.value.id}, j, k);
        }
      }
    }
  }

  /** Where the search stands after `d` layers: it has seen exactly the steps
      within `d` moves, and its frontier is exactly the steps `d` moves away. */
  ghost predicate ExactAfter(p: Procedure, current: Step, d: nat) {
    && NewSteps(p, Found(p, current, d), {current.id})
    && (forall id :: id in Seen(p, current, d) <==> p.StepAt(id).Some? && WithinReach(p, current.id, id, d))
    && (forall s :: s in Frontier(p, current, d) <==> p.StepAt(s.id) == Some(s) && AtDistance(p, current.id, s.id, d))
  }

  lemma {:induction false} LayersAreDistances(p: Procedure, current: Step, d: nat)
    requires p.StepAt(current.id) == Some(current)
    ensures ExactAfter(p, current, d)
  {
    if d == 0 {
      assert p.ReachesIn(current.id, current.id, 0);
    } else {
      LayersAreDistances(p, current, d - 1);
      LayerIsExact(p, current, d);
      FrontierIsExact(p, current, d);
      WithinOneMore(p, current.id, d);
      AheadIdsJoin(Found(p, current, d - 1), Layer(p, current, d));
    }
  }

  lemma LayerIsExact(p: Procedure, current: Step, d: nat)
    requires d > 0 && p.StepAt(current.id) == Some(current) && ExactAfter(p, current, d - 1)
    ensures NewSteps(p, Found(p, current, d), {current.id})
    ensures forall id :: id in AheadIds(Layer(p, current, d)) <==>
      p.StepAt(id).Some? && AtDistance(p, current.id, id, d)
  {
    var layer := Layer(p, current, d);
    ScanGivesNewSteps(p, Frontier(p, current, d - 1), 0, Seen(p, current, d - 1));
    NewStepsJoin(p, Found(p, current, d - 1), layer, {current.id});
    forall a | a in layer ensures AtDistance(p, current.id, a.step.id, d) {
      LayerIsAtDistance(p, current, d, a);
    }
    forall id | p.StepAt(id).Some? && AtDistance(p, current.id, id, d) ensures id in AheadIds(layer) {
      DistanceIsInLayer(p, current, d, id);
    }
  }

  lemma DistanceIsInLayer(p: Procedure, current: Step, d: nat, id: string)
    requires d > 0 && p.StepAt(current.id) == Some(current) && ExactAfter(p, current, d - 1)
    requires p.StepAt(id).Some? && AtDistance(p, current.id, id, d)
    ensures id in AheadIds(Layer(p, current, d))
  {
    var frontier, seen := Frontier(p, current, d - 1), Seen(p, current, d - 1);
    var m :| p.ReachesIn(current.id, m, d - 1) && p.HasMove(m, id);
    PredecessorIsNearer(p, current.id, m, id, d);
    var s := p.StepAt(m).value;
    assert s in frontier;
    var j :| 0 <= j < |frontier| && frontier[j] == s;
    var k :| 0 <= k < |s.moves| && s.moves[k] == id;
    ScanMissesNothing(p, frontier, 0, seen, j, k);
    assert !WithinReach(p, current.id, id, d - 1);
  }

  lemma FrontierIsExact(p: Procedure, current: Step, d: nat)
    requires d > 0
    requires forall a :: a in Layer(p, current, d) ==> p.StepAt(a.step.id) == Some(a.step)
    requires forall id :: id in AheadIds(Layer(p, current, d)) <==>
      p.StepAt(id).Some? && AtDistance(p, current.id, id, d)
    ensures forall s :: s in Frontier(p, current, d) <==>
      p.StepAt(s.id) == Some(s) && AtDistance(p, current.id, s.id, d)
  {
    var layer := Layer(p, current, d);
    forall s ensures s in StepsOf(layer) <==> p.StepAt(s.id) == Some(s) && s.id in AheadIds(layer) {
      if s in StepsOf(layer) {
        var i :| 0 <= i < |layer| && StepsOf(layer)[i] == s;
        assert layer[i] in layer;
      }
      if p.StepAt(s.id) == Some(s) && s.id in AheadIds(layer) {
        var a :| a in layer && a.step.id == s.id;
        var i :| 0 <= i < |layer| && layer[i] == a;
        assert StepsOf(layer)[i] == s;
      }
    }
  }

  lemma WithinOneMore(p: Procedure, a: string, d: nat)
    requires d > 0
    ensures forall b :: WithinReach(p, a, b, d) <==> WithinReach(p, a, b, d - 1) || AtDistance(p, a, b, d)
  {
  }

  /** A way through `m` to a step `d` away leaves `m` exactly `d - 1` away. */
  lemma PredecessorIsNearer(p: Procedure, a: string, m: string, b: string, d: nat)
    requires d > 0 && p.ReachesIn(a, m, d - 1) && p.HasMove(m, b)
    requires forall k :: 0 <= k < d ==> !p.ReachesIn(a, b, k)
    ensures AtDistance(p, a, m, d - 1)
  {
    forall k | 0 <= k < d - 1 ensures !p.ReachesIn(a, m, k) {
      if p.ReachesIn(a, m, k) {
        assert p.ReachesIn(a, b, k + 1);
      }
    }
  }

  lemma LayerIsAtDistance(p: Procedure, current: Step, d: nat, a: Ahead)
    requires d > 0 && p.StepAt(current.id) == Some(current) && ExactAfter(p, current, d - 1)
    requires a in Layer(p, current, d)
    ensures AtDistance(p, current.id, a.step.id, d)
    ensures AtDistance(p, current.id, a.cameFrom, d - 1) && p.HasMove(a.cameFrom, a.step.id)
  {
    var frontier := Frontier(p, current, d - 1);
    ScanGivesNewSteps(p, frontier, 0, Seen(p, current, d - 1));
    ScanComesFromFrontier(p, frontier, 0, Seen(p, current, d - 1), a);
    var s :| s in frontier && s.id == a.cameFrom && a.step.id in s.moves;
    assert p.ReachesIn(current.id, s.id, d - 1) && p.HasMove(s.id, a.step.id);
    assert a.step.id in AheadIds(Layer(p, current, d));
    assert !WithinReach(p, current.id, a.step.id, d - 1);
  }

  lemma {:induction false} ShortestWay(p: Procedure, a: string, b: string, n: nat)
    requires p.ReachesIn(a, b, n)
    ensures exists d: nat :: d <= n && AtDistance(p, a, b, d)
  {
    if k :| 0 <= k < n && p.ReachesIn(a, b, k) {
      ShortestWay(p, a, b, k);
    } else {
      assert AtDistance(p, a, b, n);
    }
  }

  lemma OneDistance(p: Procedure, a: string, b: string, d: nat, e: nat)
    requires AtDistance(p, a, b, d) && AtDistance(p, a, b, e)
    ensures d == e
  {
  }

  /** A step `d` moves away stands next to a step `d - 1` moves away that has a
      move to it. */
  ghost predicate NextToNearer(p: Procedure, from: string, a: Ahead, d: nat) {
    d > 0 && AtDistance(p, from, a.step.id, d) && AtDistance(p, from, a.cameFrom, d - 1)
      && p.HasMove(a.cameFrom, a.step.id)
  }

  /** The preview is exact: every existing step between 1 and `depth` moves away
      is shown, once, and nothing else is. */
  lemma PreviewIsExact(p: Procedure, current: Step, depth: nat)
    requires p.StepAt(current.id) == Some(current)
    ensures NewSteps(p, Found(p, current, depth), {current.id})
    ensures forall id :: id in AheadIds(Found(p, current, depth)) <==>
      p.StepAt(id).Some? && id != current.id && WithinReach(p, current.id, id, depth)
  {
    LayersAreDistances(p, current, depth);
    assert forall id :: id in Seen(p, current, depth) <==>
      id == current.id || id in AheadIds(Found(p, current, depth));
  }

  /** Every previewed step is shown next to a step one move nearer. */
  lemma ShownNextToNearer(p: Procedure, current: Step, depth: nat, a: Ahead)
    requires p.StepAt(current.id) == Some(current)
    requires a in Found(p, current, depth)
    ensures exists d: nat :: d <= depth && NextToNearer(p, current.id, a, d)
  {
    var found := Found(p, current, depth);
    var i :| 0 <= i < |found| && found[i] == a;
    var d := InALayer(p, current, depth, i);
    LayerIsNextToNearer(p, current, d, a);
  }

  lemma LayerIsNextToNearer(p: Procedure, current: Step, d: nat, a: Ahead)
    requires p.StepAt(current.id) == Some(current)
    requires d > 0 && a in Layer(p, current, d)
    ensures NextToNearer(p, current.id, a, d)
  {
    LayersAreDistances(p, current, d - 1);
    LayerIsAtDistance(p, current, d, a);
  }

  /** The preview is in order of distance. */
  lemma {:induction false} NearestFirst(p: Procedure, current: Step, depth: nat, i: nat, j: nat, d: nat, e: nat)
    requires p.StepAt(current.id) == Some(current)
    requires i < j < |Found(p, current, depth)|
    requires AtDistance(p, current.id, Found(p, current, depth)[i].step.id, d)
    requires AtDistance(p, current.id, Found(p, current, depth)[j].step.id, e)
    ensures d <= e
    decreases depth
  {
    if j < |Found(p, current, depth - 1)| {
      NearestFirst(p, current, depth - 1, i, j, d, e);
    } else {
      DistanceInPreview(p, current, depth, i, d);
      DistanceInPreview(p, current, depth, j, e);
    }
  }

  lemma DistanceInPreview(p: Procedure, current: Step, depth: nat, i: nat, d: nat)
    requires p.StepAt(current.id) == Some(current)
    requires i < |Found(p, current, depth)|
    requires AtDistance(p, current.id, Found(p, current, depth)[i].step.id, d)
    ensures d <= depth && (i >= |Found(p, current, depth - 1)| ==> d == depth)
  {
    var layer := InALayer(p, current, depth, i);
    var a := Found(p, current, depth)[i];
    LayerIsNextToNearer(p, current, layer, a);
    OneDistance(p, current.id, a.step.id, d, layer);
  }

  lemma {:induction false} InALayer(p: Procedure, current: Step, depth: nat, i: nat) returns (d: nat)
    requires i < |Found(p, current, depth)|
    ensures 0 < d <= depth && Found(p, current, depth)[i] in Layer(p, current, d)
    ensures i >= |Found(p, current, depth - 1)| ==> d == depth
    decreases depth
  {
    var nearer := |Found(p, current, depth - 1)|;
    if i < nearer {
      d := InALayer(p, current, depth - 1, i);
    } else {
      d := depth;
      assert Found(p, current, d)[i] == Layer(p, current, d)[i - nearer];
    }
  }

  /** A deeper preview only adds to a shallower one, at its end. */
  lemma {:induction false} PreviewGrows(p: Procedure, current: Step, d: nat, e: nat)
    requires d <= e
    ensures Found(p, current, d) <= Found(p, current, e)
    decreases e
  {
    if d < e {
      PreviewGrows(p, current, d, e - 1);
    }
  }

  // ----- a deep enough preview is the rule's reachability

  lemma {:induction false} LayersFillUp(p: Procedure, current: Step, d: nat)
    requires d > 0 && Layer(p, current, d) != []
    ensures |Found(p, current, d)| >= d
  {
    if d > 1 {
      assert Layer(p, current, d - 1) != [];
      LayersFillUp(p, current, d - 1);
    }
  }

  lemma {:induction false} EachCountsOnce(found: seq<Ahead>)
    requires NoIdTwice(found)
    ensures |AheadIds(found)| == |found|
  {
    if found != [] {
      var front, last := found[..|found| - 1], found[|found| - 1];
      EachCountsOnce(front);
      assert found == front + [last];
      AheadIdsJoin(front, [last]);
      assert AheadIds([last]) == {last.step.id};
      assert last.step.id !in AheadIds(front);
    }
  }

  lemma {:induction false} FewIds(steps: seq<Step>)
    ensures |Ids(steps)| <= |steps|
  {
    if steps != [] {
      assert Ids(steps) == {steps[0].id} + Ids(steps[1..]) by {
        assert steps == [steps[0]] + steps[1..];
      }
      FewIds(steps[1..]);
    }
  }

  lemma FewerShownThanSteps(p: Procedure, current: Step, d: nat)
    requires p.StepAt(current.id) == Some(current)
    ensures |Found(p, current, d)| < |p.steps|
  {
    LayersAreDistances(p, current, d);
    var found := Found(p, current, d);
    EachCountsOnce(found);
    FewIds(p.steps);
    var shown := AheadIds(found) + {current.id};
    assert shown <= Ids(p.steps);
    SubsetIsSmaller(shown, Ids(p.steps));
  }

  lemma SubsetIsSmaller(a: set<string>, b: set<string>)
    requires a <= b
    ensures |a| <= |b|
  {
    assert b == a + (b - a);
  }

  /** In a graph whose moves land, a preview as deep as there are steps shows
      exactly what the rule's worklist loop reaches, without the step it is at. */
  lemma PreviewSaturates(p: Procedure, current: Step, depth: nat)
    requires p.StepAt(current.id) == Some(current) && MovesLand(p)
    requires depth >= |p.steps|
    ensures AheadIds(Found(p, current, depth)) == ReachedSet(p, current.id) - {current.id}
  {
    LayersAreDistances(p, current, depth);
    forall id | id != current.id && p.Reaches(current.id, id) ensures id in AheadIds(Found(p, current, depth)) {
      ReachedIsNear(p, current, id);
      assert WithinReach(p, current.id, id, depth);
    }
    forall id | id in AheadIds(Found(p, current, depth)) ensures p.Reaches(current.id, id) && id != current.id {
      assert id in Seen(p, current, depth);
    }
  }

  /** What a step reaches at all, it reaches in fewer moves than there are steps. */
  lemma ReachedIsNear(p: Procedure, current: Step, id: string)
    requires p.StepAt(current.id) == Some(current) && MovesLand(p)
    requires id != current.id && p.Reaches(current.id, id)
    ensures p.StepAt(id).Some?
    ensures exists k :: 0 <= k < |p.steps| && p.ReachesIn(current.id, id, k)
  {
    var n: nat :| p.ReachesIn(current.id, id, n);
    ShortestWay(p, current.id, id, n);
    var d: nat :| d <= n && AtDistance(p, current.id, id, d);
    var m :| p.ReachesIn(current.id, m, d - 1) && p.HasMove(m, id);
    assert p.StepAt(m).value in p.steps;
    FarMeansManySteps(p, current, d, id);
  }

  lemma FarMeansManySteps(p: Procedure, current: Step, d: nat, id: string)
    requires d > 0 && p.StepAt(current.id) == Some(current)
    requires p.StepAt(id).Some? && AtDistance(p, current.id, id, d)
    ensures d < |p.steps|
  {
    LayersAreDistances(p, current, d - 1);
    DistanceIsInLayer(p, current, d, id);
    LayersFillUp(p, current, d);
    FewerShownThanSteps(p, current, d);
  }

  // ----- the moves shown

  datatype Shown = Forward(to: string) | BackTo(to: string)

  /** The moves a window lists at the end of `path`: the step's own, then the way back. */
  function WindowMoves(current: Step, path: seq<string>): seq<Shown> {
    seq(|current.moves|, i requires 0 <= i < |current.moves| => Forward(current.moves[i]))
      + if |path| > 1 then [BackTo(path[|path| - 2])] else []
  }
}
