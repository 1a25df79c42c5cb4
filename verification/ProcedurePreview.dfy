/**
 The order of the preview, and that it is the only list it could be. Reading the
 current step and then the previewed ones, each with its moves in their order, the
 previewed steps come in the order of the first move that leads to each, and each
 stands next to the step that move is made from.
 */
module ProcedurePreview {
  import opened Options
  import opened Procedures
  import opened ProcedureGraph
  import opened ProcedureWindow

  /** The move at an index of the step at a place. */
  datatype MoveAt = MoveAt(place: nat, index: nat) {
    predicate Before(other: MoveAt) {
      place < other.place || (place == other.place && index < other.index)
    }
  }

  ghost predicate Leads(places: seq<Step>, m: MoveAt, id: string) {
    m.place < |places| && m.index < |places[m.place].moves| && places[m.place].moves[m.index] == id
  }

  /** `m` is the first move to `id` that is not before `from`. */
  ghost predicate FirstMoveTo(places: seq<Step>, from: MoveAt, id: string, m: MoveAt) {
    && Leads(places, m, id) && !m.Before(from)
    && forall other :: Leads(places, other, id) && !other.Before(from) ==> !other.Before(m)
  }

  const OUTSET := MoveAt(0, 0)

  /** The `i`-th step found is the one its first move leads to, next to the step that move
      is made from, and the steps found are in the order of those moves. */
  ghost predicate InOrderOf(places: seq<Step>, from: MoveAt, found: seq<Ahead>, firsts: seq<MoveAt>) {
    && |firsts| == |found|
    && (forall i :: 0 <= i < |found| ==> FoundBy(places, from, found[i], firsts[i]))
    && (forall i, j :: 0 <= i < j < |found| ==> firsts[i].Before(firsts[j]))
  }

  ghost predicate FoundBy(places: seq<Step>, from: MoveAt, a: Ahead, first: MoveAt) {
    FirstMoveTo(places, from, a.step.id, first) && a.cameFrom == places[first.place].id
  }

  /** The current step, and then the previewed ones. */
  function Places(current: Step, found: seq<Ahead>): seq<Step> {
    [current] + seq(|found|, i requires 0 <= i < |found| => found[i].step)
  }

  ghost predicate FromBefore(firsts: seq<MoveAt>) {
    forall i :: 0 <= i < |firsts| ==> firsts[i].place <= i
  }

  /** Each previewed step is found by a first move made from a place before its own, and
      the preview is in the order of those moves. */
  ghost predicate InPreviewOrder(current: Step, found: seq<Ahead>) {
    exists firsts :: InOrderOf(Places(current, found), OUTSET, found, firsts) && FromBefore(firsts)
  }

  // ----- one layer

  lemma FirstsAreOne(places: seq<Step>, from: MoveAt, id: string, m: MoveAt, n: MoveAt)
    requires FirstMoveTo(places, from, id, m) && FirstMoveTo(places, from, id, n)
    ensures m == n
  {
  }

  /** A move passed over that leads elsewhere changes no first move. */
  lemma FirstAfterOne(places: seq<Step>, from: MoveAt, id: string, m: MoveAt)
    requires FirstMoveTo(places, MoveAt(from.place, from.index + 1), id, m) && !Leads(places, from, id)
    ensures FirstMoveTo(places, from, id, m)
  {
    forall other | Leads(places, other, id) && !other.Before(from) ensures !other.Before(m) {
      assert other != from;
    }
  }

  lemma FirstAfterStep(places: seq<Step>, id: string, m: MoveAt)
    requires places != [] && FirstMoveTo(places[1..], OUTSET, id, m)
    ensures FirstMoveTo(places, MoveAt(0, |places[0].moves|), id, MoveAt(m.place + 1, m.index))
  {
    forall other | Leads(places, other, id) && !other.Before(MoveAt(0, |places[0].moves|))
      ensures !other.Before(MoveAt(m.place + 1, m.index))
    {
      assert Leads(places[1..], MoveAt(other.place - 1, other.index), id);
    }
  }

  /** What a scan finds is in the order of the frontier's moves. */
  lemma {:induction false} ScanIsInOrder(p: Procedure, frontier: seq<Step>, i: nat, seen: set<string>)
    returns (firsts: seq<MoveAt>)
    requires i <= if frontier == [] then 0 else |frontier[0].moves|
    ensures InOrderOf(frontier, MoveAt(0, i), Scan(p, frontier, i, seen), firsts)
    decreases |frontier|, if frontier == [] then 0 else |frontier[0].moves| - i
  {
    if frontier == [] {
      firsts := [];
    } else if i == |frontier[0].moves| {
      var later := ScanIsInOrder(p, frontier[1..], 0, seen);
      firsts := StepLater(frontier, Scan(p, frontier[1..], 0, seen), later);
    } else {
      var id := frontier[0].moves[i];
      var target := p.StepAt(id);
      if target.None? || target.value.id in seen {
        firsts := ScanIsInOrder(p, frontier, i + 1, seen);
        ScanGivesNewSteps(p, frontier, i + 1, seen);
        MoveLater(frontier, i, Scan(p, frontier, i + 1, seen), firsts);
      } else {
        var rest := ScanIsInOrder(p, frontier, i + 1, seen + {id});
        ScanGivesNewSteps(p, frontier, i + 1, seen + {id});
        FirstThenRest(frontier, i, Ahead(target.value, frontier[0].id), Scan(p, frontier, i + 1, seen + {id}), rest);
        firsts := [MoveAt(0, i)] + rest;
      }
    }
  }

  lemma FirstThenRest(frontier: seq<Step>, i: nat, a: Ahead, found: seq<Ahead>, firsts: seq<MoveAt>)
    requires frontier != [] && i < |frontier[0].moves|
    requires a.step.id == frontier[0].moves[i] && a.cameFrom == frontier[0].id
    requires InOrderOf(frontier, MoveAt(0, i + 1), found, firsts)
    requires forall b :: b in found ==> b.step.id != frontier[0].moves[i]
    ensures InOrderOf(frontier, MoveAt(0, i), [a] + found, [MoveAt(0, i)] + firsts)
  {
    forall m | 0 <= m < |firsts| ensures MoveAt(0, i).Before(firsts[m]) {
      assert FoundBy(frontier, MoveAt(0, i + 1), found[m], firsts[m]);
    }
    MoveLater(frontier, i, found, firsts);
    assert FoundBy(frontier, MoveAt(0, i), a, MoveAt(0, i));
  }

  lemma MoveLater(frontier: seq<Step>, i: nat, found: seq<Ahead>, firsts: seq<MoveAt>)
    requires frontier != [] && i < |frontier[0].moves|
    requires InOrderOf(frontier, MoveAt(0, i + 1), found, firsts)
    requires forall a :: a in found ==> a.step.id != frontier[0].moves[i]
    ensures InOrderOf(frontier, MoveAt(0, i), found, firsts)
  {
    forall m | 0 <= m < |found| ensures FoundBy(frontier, MoveAt(0, i), found[m], firsts[m]) {
      assert found[m] in found;
      assert FoundBy(frontier, MoveAt(0, i + 1), found[m], firsts[m]);
      FirstAfterOne(frontier, MoveAt(0, i), found[m].step.id, firsts[m]);
    }
  }

  lemma StepLater(frontier: seq<Step>, found: seq<Ahead>, later: seq<MoveAt>) returns (firsts: seq<MoveAt>)
    requires frontier != [] && InOrderOf(frontier[1..], OUTSET, found, later)
    ensures InOrderOf(frontier, MoveAt(0, |frontier[0].moves|), found, firsts)
  {
    firsts := seq(|later|, m requires 0 <= m < |later| => MoveAt(later[m].place + 1, later[m].index));
    forall m | 0 <= m < |found|
      ensures FoundBy(frontier, MoveAt(0, |frontier[0].moves|), found[m], firsts[m])
    {
      assert FoundBy(frontier[1..], OUTSET, found[m], later[m]);
      FirstAfterStep(frontier, found[m].step.id, later[m]);
    }
  }

  // ----- all layers

  /** How many places are nearer than `d` moves. */
  function Nearer(p: Procedure, current: Step, d: nat): nat {
    if d == 0 then 0 else 1 + |Found(p, current, d - 1)|
  }

  /** The frontier after `d` layers is the last places of the preview. */
  lemma FrontierIsLast(p: Procedure, current: Step, d: nat)
    ensures Nearer(p, current, d) <= |Places(current, Found(p, current, d))|
    ensures Frontier(p, current, d) == Places(current, Found(p, current, d))[Nearer(p, current, d)..]
  {
  }

  lemma FirstInLonger(places: seq<Step>, more: seq<Step>, from: MoveAt, id: string, m: MoveAt)
    requires FirstMoveTo(places, from, id, m)
    ensures FirstMoveTo(places + more, from, id, m)
  {
    forall other | Leads(places + more, other, id) && !other.Before(from) ensures !other.Before(m) {
      assert other.place < |places| ==> Leads(places, other, id);
    }
  }

  lemma InOrderInLonger(places: seq<Step>, more: seq<Step>, found: seq<Ahead>, firsts: seq<MoveAt>)
    requires InOrderOf(places, OUTSET, found, firsts)
    ensures InOrderOf(places + more, OUTSET, found, firsts)
  {
    forall i | 0 <= i < |found| ensures FoundBy(places + more, OUTSET, found[i], firsts[i]) {
      assert FoundBy(places, OUTSET, found[i], firsts[i]);
      FirstInLonger(places, more, OUTSET, found[i].step.id, firsts[i]);
    }
  }

  function Shifted(firsts: seq<MoveAt>, n: nat): seq<MoveAt> {
    seq(|firsts|, m requires 0 <= m < |firsts| => MoveAt(firsts[m].place + n, firsts[m].index))
  }

  lemma FirstInLast(places: seq<Step>, n: nat, id: string, m: MoveAt)
    requires n <= |places| && FirstMoveTo(places[n..], OUTSET, id, m)
    requires forall k, i :: 0 <= k < n ==> !Leads(places, MoveAt(k, i), id)
    ensures FirstMoveTo(places, OUTSET, id, MoveAt(m.place + n, m.index))
  {
    forall other | Leads(places, other, id) ensures !other.Before(MoveAt(m.place + n, m.index)) {
      assert other == MoveAt(other.place, other.index);
      assert Leads(places[n..], MoveAt(other.place - n, other.index), id);
    }
  }

  /** A step at most `d` moves away has no move to one that is farther than `d + 1`. */
  lemma NearLeadsNotFar(p: Procedure, from: string, s: Step, id: string, d: nat)
    requires p.StepAt(s.id) == Some(s) && WithinReach(p, from, s.id, d) && AtDistance(p, from, id, d + 2)
    ensures id !in s.moves
  {
    var e :| 0 <= e <= d && p.ReachesIn(from, s.id, e);
    if id in s.moves {
      assert p.HasMove(s.id, id);
      assert p.ReachesIn(from, id, e + 1);
    }
  }

  lemma PlaceOfNearer(current: Step, nearer: seq<Ahead>, layer: seq<Ahead>, k: nat, i: nat, id: string)
    requires k < |Places(current, nearer)| && id !in Places(current, nearer)[k].moves
    ensures !Leads(Places(current, nearer + layer), MoveAt(k, i), id)
  {
    assert Places(current, nearer + layer)[k] == Places(current, nearer)[k];
  }

  /** No step nearer than the frontier has a move to a step of the next layer. */
  lemma NoneNearerLeads(p: Procedure, current: Step, d: nat, a: Ahead, k: nat, i: nat)
    requires p.StepAt(current.id) == Some(current) && a in Layer(p, current, d + 1)
    requires k < Nearer(p, current, d)
    ensures !Leads(Places(current, Found(p, current, d)), MoveAt(k, i), a.step.id)
  {
    LayerIsNextToNearer(p, current, d + 1, a);
    NearerLeadsNot(p, current, d - 1, a.step.id, k);
    PlaceOfNearer(current, Found(p, current, d - 1), Layer(p, current, d), k, i, a.step.id);
  }

  lemma NearerLeadsNot(p: Procedure, current: Step, d: nat, id: string, k: nat)
    requires p.StepAt(current.id) == Some(current) && AtDistance(p, current.id, id, d + 2)
    requires k < |Places(current, Found(p, current, d))|
    ensures id !in Places(current, Found(p, current, d))[k].moves
  {
    PlaceIsSeen(p, current, d, k);
    NearLeadsNotFar(p, current.id, Places(current, Found(p, current, d))[k], id, d);
  }

  lemma PlaceIsSeen(p: Procedure, current: Step, d: nat, k: nat)
    requires p.StepAt(current.id) == Some(current) && k < |Places(current, Found(p, current, d))|
    ensures
      var s := Places(current, Found(p, current, d))[k];
      p.StepAt(s.id) == Some(s) && WithinReach(p, current.id, s.id, d)
  {
    LayersAreDistances(p, current, d);
    var s := Places(current, Found(p, current, d))[k];
    if k > 0 {
      assert Found(p, current, d)[k - 1] in Found(p, current, d);
    }
    assert s.id in Seen(p, current, d);
  }

  lemma LayerInOrder(p: Procedure, current: Step, d: nat) returns (firsts: seq<MoveAt>)
    requires p.StepAt(current.id) == Some(current)
    ensures InOrderOf(Places(current, Found(p, current, d)), OUTSET, Layer(p, current, d + 1), firsts)
    ensures forall m :: 0 <= m < |firsts| ==> firsts[m].place >= Nearer(p, current, d)
  {
    var places, n := Places(current, Found(p, current, d)), Nearer(p, current, d);
    var layer := Layer(p, current, d + 1);
    FrontierIsLast(p, current, d);
    var last := ScanIsInOrder(p, Frontier(p, current, d), 0, Seen(p, current, d));
    firsts := Shifted(last, n);
    forall m | 0 <= m < |layer| ensures FoundBy(places, OUTSET, layer[m], firsts[m]) {
      assert FoundBy(places[n..], OUTSET, layer[m], last[m]);
      forall k, i | 0 <= k < n ensures !Leads(places, MoveAt(k, i), layer[m].step.id) {
        NoneNearerLeads(p, current, d, layer[m], k, i);
      }
      FirstInLast(places, n, layer[m].step.id, last[m]);
    }
  }

  /** The preview so far in order, each step found from a place nearer than the last layer. */
  lemma {:induction false} FoundInOrder(p: Procedure, current: Step, d: nat) returns (firsts: seq<MoveAt>)
    requires p.StepAt(current.id) == Some(current)
    ensures InOrderOf(Places(current, Found(p, current, d)), OUTSET, Found(p, current, d), firsts)
    ensures FromBefore(firsts)
    ensures forall m :: 0 <= m < |firsts| ==> firsts[m].place < Nearer(p, current, d)
  {
    if d == 0 {
      firsts := [];
    } else {
      var before := FoundInOrder(p, current, d - 1);
      var last := LayerInOrder(p, current, d - 1);
      firsts := before + last;
      JoinInOrder(current, Found(p, current, d - 1), Layer(p, current, d), before, last, Nearer(p, current, d - 1));
    }
  }

  lemma JoinInOrder(current: Step, nearer: seq<Ahead>, layer: seq<Ahead>, before: seq<MoveAt>, last: seq<MoveAt>,
                    n: nat)
    requires InOrderOf(Places(current, nearer), OUTSET, nearer, before)
    requires InOrderOf(Places(current, nearer), OUTSET, layer, last)
    requires FromBefore(before) && n <= |Places(current, nearer)|
    requires forall m :: 0 <= m < |before| ==> before[m].place < n
    requires forall m :: 0 <= m < |last| ==> last[m].place >= n
    ensures InOrderOf(Places(current, nearer + layer), OUTSET, nearer + layer, before + last)
    ensures FromBefore(before + last)
    ensures forall m :: 0 <= m < |before + last| ==> (before + last)[m].place < |Places(current, nearer)|
  {
    var places, more := Places(current, nearer), StepsOf(layer);
    assert Places(current, nearer + layer) == places + more;
    InOrderInLonger(places, more, nearer, before);
    InOrderInLonger(places, more, layer, last);
    forall m | 0 <= m < |last| ensures last[m].place < |places| {
      assert FoundBy(places, OUTSET, layer[m], last[m]);
    }
    BothInOrder(places + more, nearer, layer, before, last);
  }

  lemma BothInOrder(places: seq<Step>, nearer: seq<Ahead>, layer: seq<Ahead>, before: seq<MoveAt>, last: seq<MoveAt>)
    requires InOrderOf(places, OUTSET, nearer, before) && InOrderOf(places, OUTSET, layer, last)
    requires forall i, j :: 0 <= i < |before| && 0 <= j < |last| ==> before[i].Before(last[j])
    ensures InOrderOf(places, OUTSET, nearer + layer, before + last)
  {
  }

  // ----- only one list is in that order

  /** Steps as the procedure has them, each existing step at most `depth` moves away but
      the current one, once, in the order of the first moves to them. */
  ghost predicate IsPreview(p: Procedure, current: Step, depth: nat, found: seq<Ahead>) {
    && NewSteps(p, found, {current.id})
    && (forall id :: id in AheadIds(found) <==>
          p.StepAt(id).Some? && id != current.id && WithinReach(p, current.id, id, depth))
    && InPreviewOrder(current, found)
  }

  /** A first move made from among the places two lists share is the first in both. */
  lemma FirstInBoth(a: seq<Step>, b: seq<Step>, n: nat, id: string, m: MoveAt)
    requires n <= |a| && n <= |b| && a[..n] == b[..n] && m.place < n
    requires FirstMoveTo(a, OUTSET, id, m)
    ensures FirstMoveTo(b, OUTSET, id, m)
  {
    assert forall k :: 0 <= k < n ==> a[k] == a[..n][k] && b[k] == b[..n][k];
    forall other | Leads(b, other, id) ensures !other.Before(m) {
      assert other.place < n ==> Leads(a, other, id);
    }
  }

  lemma PlacesShared(current: Step, a: seq<Ahead>, b: seq<Ahead>, n: nat)
    requires n <= |a| && n <= |b| && a[..n] == b[..n]
    ensures Places(current, a)[..n + 1] == Places(current, b)[..n + 1]
  {
    forall k | 0 <= k < n ensures a[k] == b[k] {
      assert a[..n][k] == b[..n][k];
    }
  }

  /** Past what the lists share, the next step of `a` is found by an earlier move than one
      that `a` has later. */
  lemma NextIsEarlier(current: Step, a: seq<Ahead>, b: seq<Ahead>, n: nat, i: nat,
                      firstsA: seq<MoveAt>, firstsB: seq<MoveAt>)
    requires InOrderOf(Places(current, a), OUTSET, a, firstsA) && FromBefore(firstsA)
    requires InOrderOf(Places(current, b), OUTSET, b, firstsB) && FromBefore(firstsB)
    requires n < |a| && n < |b| && a[..n] == b[..n]
    requires n <= i < |a| && a[i].step.id == b[n].step.id
    ensures firstsA[i] == firstsB[n]
  {
    PlacesShared(current, a, b, n);
    assert FoundBy(Places(current, b), OUTSET, b[n], firstsB[n]);
    assert FoundBy(Places(current, a), OUTSET, a[i], firstsA[i]);
    FirstInBoth(Places(current, b), Places(current, a), n + 1, b[n].step.id, firstsB[n]);
    FirstsAreOne(Places(current, a), OUTSET, b[n].step.id, firstsA[i], firstsB[n]);
  }

  lemma IndexOfNext(p: Procedure, seen: set<string>, a: seq<Ahead>, b: seq<Ahead>, n: nat) returns (i: nat)
    requires NewSteps(p, b, seen) && AheadIds(a) == AheadIds(b)
    requires n < |a| && n < |b| && a[..n] == b[..n]
    ensures n <= i < |a| && a[i].step.id == b[n].step.id
  {
    assert b[n] in b && b[n].step.id in AheadIds(a);
    var x :| x in a && x.step.id == b[n].step.id;
    i :| 0 <= i < |a| && a[i] == x;
    forall k | 0 <= k < n ensures a[k].step.id != b[n].step.id {
      assert a[..n][k] == b[..n][k];
    }
  }

  /** Two lists of the same steps in this order go on alike. */
  lemma GoOnAlike(p: Procedure, current: Step, a: seq<Ahead>, b: seq<Ahead>, n: nat)
    requires NewSteps(p, a, {current.id}) && NewSteps(p, b, {current.id}) && AheadIds(a) == AheadIds(b)
    requires InPreviewOrder(current, a) && InPreviewOrder(current, b)
    requires n < |a| && n < |b| && a[..n] == b[..n]
    ensures a[n] == b[n]
  {
    var firstsA: seq<MoveAt> :| InOrderOf(Places(current, a), OUTSET, a, firstsA) && FromBefore(firstsA);
    var firstsB: seq<MoveAt> :| InOrderOf(Places(current, b), OUTSET, b, firstsB) && FromBefore(firstsB);
    var i := IndexOfNext(p, {current.id}, a, b, n);
    var j := IndexOfNext(p, {current.id}, b, a, n);
    NextIsEarlier(current, a, b, n, i, firstsA, firstsB);
    NextIsEarlier(current, b, a, n, j, firstsB, firstsA);
    NeitherIsEarlier(firstsA, firstsB, n, i, j);
    SameStepSamePlace(p, current, a, b, n, firstsA, firstsB);
  }

  lemma NeitherIsEarlier(a: seq<MoveAt>, b: seq<MoveAt>, n: nat, i: nat, j: nat)
    requires forall k, l :: 0 <= k < l < |a| ==> a[k].Before(a[l])
    requires forall k, l :: 0 <= k < l < |b| ==> b[k].Before(b[l])
    requires n <= i < |a| && n <= j < |b| && a[i] == b[n] && b[j] == a[n]
    ensures i == n
  {
  }

  lemma SameStepSamePlace(p: Procedure, current: Step, a: seq<Ahead>, b: seq<Ahead>, n: nat,
                          firstsA: seq<MoveAt>, firstsB: seq<MoveAt>)
    requires NewSteps(p, a, {current.id}) && NewSteps(p, b, {current.id})
    requires InOrderOf(Places(current, a), OUTSET, a, firstsA) && FromBefore(firstsA)
    requires InOrderOf(Places(current, b), OUTSET, b, firstsB)
    requires n < |a| && n < |b| && a[..n] == b[..n] && a[n].step.id == b[n].step.id && firstsA[n] == firstsB[n]
    ensures a[n] == b[n]
  {
    assert a[n] in a && b[n] in b;
    PlacesShared(current, a, b, n);
    var k := firstsA[n].place;
    assert FoundBy(Places(current, a), OUTSET, a[n], firstsA[n]);
    assert FoundBy(Places(current, b), OUTSET, b[n], firstsB[n]);
    assert Places(current, a)[k] == Places(current, a)[..n + 1][k] == Places(current, b)[..n + 1][k];
  }

  lemma OneMoreAlike(a: seq<Ahead>, b: seq<Ahead>, n: nat)
    requires n < |a| && n < |b| && a[..n] == b[..n] && a[n] == b[n]
    ensures a[..n + 1] == b[..n + 1]
  {
    assert a[..n + 1] == a[..n] + [a[n]] && b[..n + 1] == b[..n] + [b[n]];
  }

  lemma {:induction false} AlikeUpTo(p: Procedure, current: Step, a: seq<Ahead>, b: seq<Ahead>, n: nat)
    requires NewSteps(p, a, {current.id}) && NewSteps(p, b, {current.id}) && AheadIds(a) == AheadIds(b)
    requires InPreviewOrder(current, a) && InPreviewOrder(current, b)
    requires n <= |a| && n <= |b|
    ensures a[..n] == b[..n]
  {
    if n > 0 {
      AlikeUpTo(p, current, a, b, n - 1);
      GoOnAlike(p, current, a, b, n - 1);
      OneMoreAlike(a, b, n - 1);
    }
  }

  /** The preview is the one list that has every step in reach once and in the order of the
      first moves to them: the order of `steps_ahead`, and the steps it says each is
      reached from, are no others. */
  lemma OnlyPreview(p: Procedure, current: Step, depth: nat, found: seq<Ahead>)
    requires p.StepAt(current.id) == Some(current)
    ensures IsPreview(p, current, depth, found) <==> found == Found(p, current, depth)
  {
    var shown := Found(p, current, depth);
    PreviewIsExact(p, current, depth);
    var firsts := FoundInOrder(p, current, depth);
    assert InPreviewOrder(current, shown);
    if IsPreview(p, current, depth, found) {
      assert AheadIds(found) == AheadIds(shown);
      EachCountsOnce(found);
      EachCountsOnce(shown);
      AlikeUpTo(p, current, found, shown, |found|);
      assert found[..|found|] == found && shown[..|shown|] == shown;
    }
  }
}
