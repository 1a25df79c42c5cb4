/**
 A document place by place: the places a shape reaches, as paths, and what a walk puts
 at each of them and leaves everywhere else.
 */
module DocumentPlaces {
  import opened Options
  import opened Documents

  datatype Hop = Key(key: string) | Item(index: nat)

  /** The part of a document a path leads to. */
  function Get(x: Json, path: seq<Hop>): Option<Json>
    decreases |path|
  {
    if path == [] then Some(x)
    else match path[0]
      case Key(k) => if x.Obj? && k in x.fields then Get(x.fields[k], path[1..]) else None
      case Item(i) => if x.Arr? && i < |x.items| then Get(x.items[i], path[1..]) else None
  }

  /** What a part is, but for the parts inside it. */
  datatype Outline = Atom(value: Json) | Items(count: nat) | Keys(keys: set<string>)

  function OutlineOf(x: Json): Outline {
    match x
    case Obj(fields) => Keys(fields.Keys)
    case Arr(items) => Items(|items|)
    case _ => Atom(x)
  }

  /** The path leads to what the shape reaches there, as this kind. */
  predicate IsPlace(shape: Shape, x: Json, path: seq<Hop>, kind: Kind)
    decreases x, shape.Llm?
  {
    match shape
    case Leaf(here) => path == [] && kind == here
    case At(at) =>
      && path != [] && path[0].Key? && x.Obj? && path[0].key in x.fields && path[0].key in at
      && IsPlace(at[path[0].key], x.fields[path[0].key], path[1..], kind)
    case Each(item) =>
      && path != [] && path[0].Item? && x.Arr? && path[0].index < |x.items|
      && IsPlace(item, x.items[path[0].index], path[1..], kind)
    case Every(value) =>
      && path != [] && path[0].Key? && x.Obj? && path[0].key in x.fields
      && IsPlace(value, x.fields[path[0].key], path[1..], kind)
    case Llm => IsPlace(LLM, x, path, kind)
  }

  /** The path leads to one of those places, or into what is there. */
  ghost predicate InAPlace(shape: Shape, x: Json, path: seq<Hop>) {
    exists n, kind :: 0 <= n <= |path| && IsPlace(shape, x, path[..n], kind)
  }

  lemma {:induction false} PlaceIsReached(shape: Shape, x: Json, path: seq<Hop>, kind: Kind)
    requires IsPlace(shape, x, path, kind)
    ensures Get(x, path).Some? && Reaches(shape, x, kind, Get(x, path).value)
    decreases x, shape.Llm?
  {
    match shape
    case Leaf(_) =>
    case At(at) => PlaceIsReached(at[path[0].key], x.fields[path[0].key], path[1..], kind);
    case Each(item) => PlaceIsReached(item, x.items[path[0].index], path[1..], kind);
    case Every(value) => PlaceIsReached(value, x.fields[path[0].key], path[1..], kind);
    case Llm => PlaceIsReached(LLM, x, path, kind);
  }

  /** At each place a walk puts what its function makes of what was there. */
  lemma {:induction false} WalkAtPlace(shape: Shape, x: Json, g: (Kind, Json) -> Json, path: seq<Hop>, kind: Kind)
    requires IsPlace(shape, x, path, kind)
    ensures Get(x, path).Some? && Get(Walk(shape, x, g), path) == Some(g(kind, Get(x, path).value))
    decreases x, shape.Llm?
  {
    match shape
    case Leaf(_) =>
    case At(at) => WalkAtPlace(at[path[0].key], x.fields[path[0].key], g, path[1..], kind);
    case Each(item) => WalkAtPlace(item, x.items[path[0].index], g, path[1..], kind);
    case Every(value) => WalkAtPlace(value, x.fields[path[0].key], g, path[1..], kind);
    case Llm => WalkAtPlace(LLM, x, g, path, kind);
  }

  ghost predicate SameOutline(was: Option<Json>, now: Option<Json>) {
    match (was, now)
    case (None, None) => true
    case (Some(v), Some(w)) => OutlineOf(v) == OutlineOf(w)
    case _ => false
  }

  lemma OneHopIn(shape: Shape, x: Json, within: Shape, y: Json, path: seq<Hop>)
    requires path != [] && InAPlace(within, y, path[1..])
    requires forall rest, kind :: IsPlace(within, y, rest, kind) ==> IsPlace(shape, x, [path[0]] + rest, kind)
    ensures InAPlace(shape, x, path)
  {
    var n, kind :| 0 <= n <= |path[1..]| && IsPlace(within, y, path[1..][..n], kind);
    assert path[..n + 1] == [path[0]] + path[1..][..n];
  }

  /** And everywhere else it leaves the document as it was. */
  lemma {:induction false} WalkElsewhere(shape: Shape, x: Json, g: (Kind, Json) -> Json, path: seq<Hop>)
    requires !InAPlace(shape, x, path)
    ensures SameOutline(Get(x, path), Get(Walk(shape, x, g), path))
    decreases x, shape.Llm?
  {
    match shape
    case Leaf(kind) =>
      assert IsPlace(shape, x, path[..0], kind);
    case At(at) =>
      if path != [] && path[0].Key? && x.Obj? && path[0].key in x.fields && path[0].key in at {
        var k := path[0].key;
        if InAPlace(at[k], x.fields[k], path[1..]) {
          OneHopIn(shape, x, at[k], x.fields[k], path);
        }
        WalkElsewhere(at[k], x.fields[k], g, path[1..]);
      }
    case Each(item) =>
      if path != [] && path[0].Item? && x.Arr? && path[0].index < |x.items| {
        var i := path[0].index;
        if InAPlace(item, x.items[i], path[1..]) {
          OneHopIn(shape, x, item, x.items[i], path);
        }
        WalkElsewhere(item, x.items[i], g, path[1..]);
      }
    case Every(value) =>
      if path != [] && path[0].Key? && x.Obj? && path[0].key in x.fields {
        var k := path[0].key;
        if InAPlace(value, x.fields[k], path[1..]) {
          OneHopIn(shape, x, value, x.fields[k], path);
        }
        WalkElsewhere(value, x.fields[k], g, path[1..]);
      }
    case Llm =>
      forall n, kind | 0 <= n <= |path|
        ensures IsPlace(LLM, x, path[..n], kind) <==> IsPlace(shape, x, path[..n], kind)
      {
      }
      WalkElsewhere(LLM, x, g, path);
  }
}
