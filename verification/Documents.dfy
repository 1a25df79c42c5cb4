/**
 JSON values, and one walk over them: where in a document secrets lie is a shape, and
 a walk applies a function to every value the shape reaches and keeps all else.
 */
module Documents {
  datatype Json =
    | Null
    | Bool(b: bool)
    | Num(n: real)
    | Str(s: string)
    | Arr(items: seq<Json>)
    | Obj(fields: map<string, Json>)

  /** What is reached: a secret, a header's or variable's value, or the id of a key. */
  datatype Kind = Secret | Entry | KeyId

  datatype Shape =
    | Leaf(kind: Kind)
    | At(fields: map<string, Shape>)
    | Each(item: Shape)
    | Every(value: Shape)
    | Llm

  /** A model's block carries its failovers', each with its own. */
  const LLM := At(map["api_key" := Leaf(Secret), "failover" := Each(Llm)])

  function Walk(shape: Shape, x: Json, g: (Kind, Json) -> Json): Json
    decreases x, shape.Llm?
  {
    match shape
    case Leaf(kind) => g(kind, x)
    case At(at) =>
      if x.Obj? then
        Obj(map k | k in x.fields :: if k in at then Walk(at[k], x.fields[k], g) else x.fields[k])
      else x
    case Each(item) =>
      if x.Arr? then Arr(seq(|x.items|, i requires 0 <= i < |x.items| => Walk(item, x.items[i], g))) else x
    case Every(value) =>
      if x.Obj? then Obj(map k | k in x.fields :: Walk(value, x.fields[k], g)) else x
    case Llm => Walk(LLM, x, g)
  }

  /** The walk comes by `v`, as a value of this kind. */
  predicate Reaches(shape: Shape, x: Json, kind: Kind, v: Json)
    decreases x, shape.Llm?
  {
    match shape
    case Leaf(here) => kind == here && v == x
    case At(at) => x.Obj? && exists k :: k in x.fields && k in at && Reaches(at[k], x.fields[k], kind, v)
    case Each(item) => x.Arr? && exists i :: 0 <= i < |x.items| && Reaches(item, x.items[i], kind, v)
    case Every(value) => x.Obj? && exists k :: k in x.fields && Reaches(value, x.fields[k], kind, v)
    case Llm => Reaches(LLM, x, kind, v)
  }

  // ----- laws of the walk

  /** Functions that agree on what is reached walk alike. */
  lemma {:induction false} WalksAgree(shape: Shape, x: Json, g: (Kind, Json) -> Json, h: (Kind, Json) -> Json)
    requires forall kind, v :: Reaches(shape, x, kind, v) ==> g(kind, v) == h(kind, v)
    ensures Walk(shape, x, g) == Walk(shape, x, h)
    decreases x, shape.Llm?
  {
    match shape {
      case Leaf(kind) => assert Reaches(shape, x, kind, x);
      case At(at) =>
        if x.Obj? {
          forall k | k in x.fields && k in at ensures Walk(at[k], x.fields[k], g) == Walk(at[k], x.fields[k], h) {
            WalksAgree(at[k], x.fields[k], g, h);
          }
        }
      case Each(item) =>
        if x.Arr? {
          forall i | 0 <= i < |x.items| ensures Walk(item, x.items[i], g) == Walk(item, x.items[i], h) {
            WalksAgree(item, x.items[i], g, h);
          }
        }
      case Every(value) =>
        if x.Obj? {
          forall k | k in x.fields ensures Walk(value, x.fields[k], g) == Walk(value, x.fields[k], h) {
            WalksAgree(value, x.fields[k], g, h);
          }
        }
      case Llm => WalksAgree(LLM, x, g, h);
    }
  }

  /** And only those do. */
  lemma {:induction false} WalksTell(shape: Shape, x: Json, g: (Kind, Json) -> Json, h: (Kind, Json) -> Json,
                                     kind: Kind, v: Json)
    requires Walk(shape, x, g) == Walk(shape, x, h) && Reaches(shape, x, kind, v)
    ensures g(kind, v) == h(kind, v)
    decreases x, shape.Llm?
  {
    match shape {
      case Leaf(_) =>
      case At(at) =>
        var k :| k in x.fields && k in at && Reaches(at[k], x.fields[k], kind, v);
        assert Walk(shape, x, g).fields[k] == Walk(shape, x, h).fields[k];
        WalksTell(at[k], x.fields[k], g, h, kind, v);
      case Each(item) =>
        var i :| 0 <= i < |x.items| && Reaches(item, x.items[i], kind, v);
        assert Walk(shape, x, g).items[i] == Walk(shape, x, h).items[i];
        WalksTell(item, x.items[i], g, h, kind, v);
      case Every(value) =>
        var k :| k in x.fields && Reaches(value, x.fields[k], kind, v);
        assert Walk(shape, x, g).fields[k] == Walk(shape, x, h).fields[k];
        WalksTell(value, x.fields[k], g, h, kind, v);
      case Llm => WalksTell(LLM, x, g, h, kind, v);
    }
  }

  function Keep(kind: Kind, v: Json): Json {
    v
  }

  lemma {:induction false} WalkKeeps(shape: Shape, x: Json)
    ensures Walk(shape, x, Keep) == x
    decreases x, shape.Llm?
  {
    match shape {
      case Leaf(_) =>
      case At(at) =>
        if x.Obj? {
          forall k | k in x.fields && k in at ensures Walk(at[k], x.fields[k], Keep) == x.fields[k] {
            WalkKeeps(at[k], x.fields[k]);
          }
        }
      case Each(item) =>
        if x.Arr? {
          forall i | 0 <= i < |x.items| ensures Walk(item, x.items[i], Keep) == x.items[i] {
            WalkKeeps(item, x.items[i]);
          }
        }
      case Every(value) =>
        if x.Obj? {
          forall k | k in x.fields ensures Walk(value, x.fields[k], Keep) == x.fields[k] {
            WalkKeeps(value, x.fields[k]);
          }
        }
      case Llm => WalkKeeps(LLM, x);
    }
  }

  function Then(g: (Kind, Json) -> Json, h: (Kind, Json) -> Json): (Kind, Json) -> Json {
    (kind, v) => h(kind, g(kind, v))
  }

  /** One walk after another is one walk. */
  lemma {:induction false} WalkTwice(shape: Shape, x: Json, g: (Kind, Json) -> Json, h: (Kind, Json) -> Json)
    ensures Walk(shape, Walk(shape, x, g), h) == Walk(shape, x, Then(g, h))
    decreases x, shape.Llm?
  {
    match shape {
      case Leaf(_) =>
      case At(at) =>
        if x.Obj? {
          forall k | k in x.fields && k in at
            ensures Walk(at[k], Walk(at[k], x.fields[k], g), h) == Walk(at[k], x.fields[k], Then(g, h))
          {
            WalkTwice(at[k], x.fields[k], g, h);
          }
        }
      case Each(item) =>
        if x.Arr? {
          forall i | 0 <= i < |x.items|
            ensures Walk(item, Walk(item, x.items[i], g), h) == Walk(item, x.items[i], Then(g, h))
          {
            WalkTwice(item, x.items[i], g, h);
          }
        }
      case Every(value) =>
        if x.Obj? {
          forall k | k in x.fields
            ensures Walk(value, Walk(value, x.fields[k], g), h) == Walk(value, x.fields[k], Then(g, h))
          {
            WalkTwice(value, x.fields[k], g, h);
          }
        }
      case Llm => WalkTwice(LLM, x, g, h);
    }
  }

  /** After a walk the places reached are the same, each with what was put there. */
  lemma {:induction false} ReachedAfter(shape: Shape, x: Json, g: (Kind, Json) -> Json, kind: Kind, now: Json)
    returns (was: Json)
    requires Reaches(shape, Walk(shape, x, g), kind, now)
    ensures Reaches(shape, x, kind, was) && now == g(kind, was)
    decreases x, shape.Llm?
  {
    match shape {
      case Leaf(_) => was := x;
      case At(at) =>
        var y := Walk(shape, x, g);
        var k :| k in y.fields && k in at && Reaches(at[k], y.fields[k], kind, now);
        was := ReachedAfter(at[k], x.fields[k], g, kind, now);
      case Each(item) =>
        var y := Walk(shape, x, g);
        var i :| 0 <= i < |y.items| && Reaches(item, y.items[i], kind, now);
        was := ReachedAfter(item, x.items[i], g, kind, now);
      case Every(value) =>
        var y := Walk(shape, x, g);
        var k :| k in y.fields && Reaches(value, y.fields[k], kind, now);
        was := ReachedAfter(value, x.fields[k], g, kind, now);
      case Llm => was := ReachedAfter(LLM, x, g, kind, now);
    }
  }

  /** A walk changes nothing exactly when it keeps every value it reaches. */
  lemma UnchangedWhenKept(shape: Shape, x: Json, g: (Kind, Json) -> Json)
    ensures Walk(shape, x, g) == x <==> forall kind, v :: Reaches(shape, x, kind, v) ==> g(kind, v) == v
  {
    WalkKeeps(shape, x);
    if forall kind, v :: Reaches(shape, x, kind, v) ==> g(kind, v) == v {
      WalksAgree(shape, x, g, Keep);
    }
    if Walk(shape, x, g) == x {
      forall kind, v | Reaches(shape, x, kind, v) ensures g(kind, v) == v {
        WalksTell(shape, x, g, Keep, kind, v);
      }
    }
  }
}
