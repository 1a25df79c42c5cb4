/**
 What the sealing migration does to one stored value: which rows it looks at, how it
 reaches their secrets, and how a secret is sealed and unsealed under a key.
 */
module SealedRows {
  import opened Options
  import opened Documents
  import opened ConfigSecrets

  // ----- the key

  /** What a Fernet key does, without its cryptography. */
  datatype RawKey = RawKey(close: string -> string, open: string -> Option<string>)

  /** A key opens what it closed. */
  ghost predicate OpensItsOwn(k: RawKey) {
    forall v :: k.open(k.close(v)) == Some(v)
  }

  type Key = k: RawKey | OpensItsOwn(k) witness RawKey((v: string) => v, (v: string) => Some(v))

  const PREFIX := "tcs1:"

  predicate IsSealed(value: string) {
    PREFIX <= value
  }

  function Inside(value: string): string {
    if IsSealed(value) then value[|PREFIX|..] else value
  }

  /** Prefixed, and opened by the key. */
  predicate SealedUnder(key: Key, value: string) {
    IsSealed(value) && key.open(Inside(value)).Some?
  }

  function Seal(key: Key, value: string): string {
    if SealedUnder(key, value) then value else PREFIX + key.close(value)
  }

  /** What a sealed value opens to, or nothing when the key does not open it. */
  function Unseal(key: Key, value: string): Option<string> {
    if IsSealed(value) then key.open(Inside(value)) else Some(value)
  }

  /** Sealing yields a value sealed under the key, which nothing seals further and which
      always opens: to the value itself, unless that was sealed under the key already. */
  lemma SealThenUnseal(key: Key, value: string)
    ensures SealedUnder(key, Seal(key, value)) && Seal(key, Seal(key, value)) == Seal(key, value)
    ensures Seal(key, value) != "" && Unseal(key, Seal(key, value)).Some?
    ensures Unseal(key, Seal(key, value)) == Some(value) <==>
      (SealedUnder(key, value) ==> key.open(Inside(value)) == Some(value))
  {
    if !SealedUnder(key, value) {
      assert Inside(PREFIX + key.close(value)) == key.close(value);
      assert key.open(key.close(value)) == Some(value);
    }
  }

  // ----- how each column's secrets are reached

  datatype Reach = WholeConfig | DynamicConfig | InlineTarget | Text

  /** A block under `key`, when it is an object. */
  function MapUnderKey(key: string, v: Json, fn: Convert): Json {
    if v.Obj? && key in v.fields && v.fields[key].Obj? then Obj(v.fields[key := MapConfig(v.fields[key], fn)]) else v
  }

  /** `map_config`, `map_dynamic_config`, `map_inline_target` and `map_text`. */
  function MapAt(reach: Reach, v: Json, fn: Convert): Json {
    match reach
    case WholeConfig => MapConfig(v, fn)
    case DynamicConfig => MapUnderKey("dynamic_config", v, fn)
    case InlineTarget => MapUnderKey("agent", v, fn)
    case Text => MapValue(v, fn)
  }

  function ShapeOf(reach: Reach): Shape {
    match reach
    case WholeConfig => CONFIG
    case DynamicConfig => At(map["dynamic_config" := CONFIG])
    case InlineTarget => At(map["agent" := CONFIG])
    case Text => Leaf(Secret)
  }

  lemma UnderKeyWalks(key: string, v: Json, fn: Convert)
    ensures MapUnderKey(key, v, fn) == Walk(At(map[key := CONFIG]), v, Mapping(fn))
  {
    if v.Obj? {
      var at := map[key := CONFIG];
      var fields := MapUnderKey(key, v, fn).fields;
      forall k | k in fields ensures fields[k] == FieldWalk(at, k, v.fields[k], Mapping(fn)) {
        if k == key {
          BlockUnderKey(v.fields[k], fn);
        }
      }
      BlockWalks(at, v, fields, Mapping(fn));
    }
  }

  /** A block that is no object is left alone either way. */
  lemma BlockUnderKey(block: Json, fn: Convert)
    ensures (if block.Obj? then MapConfig(block, fn) else block) == Walk(CONFIG, block, Mapping(fn))
  {
    AllWalkTheSame(block, fn);
  }

  /** Each column's reach walks that column's shape. */
  lemma MapAtWalks(reach: Reach, v: Json, fn: Convert)
    ensures MapAt(reach, v, fn) == Walk(ShapeOf(reach), v, Mapping(fn))
  {
    match reach {
      case WholeConfig => AllWalkTheSame(v, fn);
      case DynamicConfig => UnderKeyWalks("dynamic_config", v, fn);
      case InlineTarget => UnderKeyWalks("agent", v, fn);
      case Text =>
    }
  }

  // ----- which rows the migration selects

  /** `v -> key`: SQL's null but for a key of an object. */
  function Field(v: Option<Json>, key: string): Option<Json> {
    if v.Some? && v.value.Obj? && key in v.value.fields then Some(v.value.fields[key]) else None
  }

  /** `v ?| keys`: a key of an object, an element of an array, or the string itself. */
  predicate HasAny(v: Option<Json>, keys: set<string>) {
    && v.Some?
    && match v.value
       case Obj(fields) => exists k :: k in keys && k in fields
       case Arr(items) => exists k :: k in keys && Str(k) in items
       case Str(s) => s in keys
       case _ => false
  }

  /** `_secret_bearing`; a null in it selects nothing by itself. */
  predicate SecretBearing(config: Option<Json>) {
    || HasAny(Field(config, "llm"), {"api_key", "failover"})
    || HasAny(config, {"aws", "server_url", "tools", "mcp_servers"})
  }

  /** The rows a column's pages are made of. */
  predicate Selected(reach: Reach, v: Option<Json>) {
    match reach
    case WholeConfig => SecretBearing(v)
    case DynamicConfig => SecretBearing(Field(v, "dynamic_config"))
    case InlineTarget => SecretBearing(Field(v, "agent"))
    case Text => v.Some?
  }

  lemma UnbearingLlm(llm: Json, h: (Kind, Json) -> Json)
    requires !HasAny(Some(llm), {"api_key", "failover"})
    ensures Walk(Llm, llm, h) == llm
  {
    if llm.Obj? {
      assert "api_key" in {"api_key", "failover"} && "failover" in {"api_key", "failover"};
      LlmWalks(llm, llm.fields, h);
    }
  }

  lemma UnbearingConfig(config: Json, h: (Kind, Json) -> Json)
    requires !SecretBearing(Some(config))
    ensures Walk(CONFIG, config, h) == config
  {
    if config.Obj? {
      var four := {"aws", "server_url", "tools", "mcp_servers"};
      assert "aws" in four && "server_url" in four && "tools" in four && "mcp_servers" in four;
      forall k | k in config.fields ensures config.fields[k] == FieldWalk(CONFIG.fields, k, config.fields[k], h) {
        if k == "llm" {
          assert Field(Some(config), "llm") == Some(config.fields[k]);
          UnbearingLlm(config.fields[k], h);
        }
      }
      BlockWalks(CONFIG.fields, config, config.fields, h);
    }
  }

  lemma UnbearingUnder(key: string, v: Json, h: (Kind, Json) -> Json)
    requires !SecretBearing(Field(Some(v), key))
    ensures Walk(At(map[key := CONFIG]), v, h) == v
  {
    if v.Obj? {
      if key in v.fields {
        UnbearingConfig(v.fields[key], h);
      }
      BlockWalks(map[key := CONFIG], v, v.fields, h);
    }
  }

  /** A row that is not selected holds nothing any function could change. */
  lemma SkippedHoldsNothing(reach: Reach, v: Json, h: (Kind, Json) -> Json)
    requires !Selected(reach, Some(v))
    ensures Walk(ShapeOf(reach), v, h) == v
  {
    match reach {
      case WholeConfig => UnbearingConfig(v, h);
      case DynamicConfig => UnbearingUnder("dynamic_config", v, h);
      case InlineTarget => UnbearingUnder("agent", v, h);
      case Text =>
    }
  }

  // ----- whether a value holds a secret of some sort

  /** `holds`: some secret reached is wanted. */
  predicate Holds(shape: Shape, x: Json, wanted: string -> bool)
    decreases x, shape.Llm?
  {
    match shape
    case Leaf(_) => x.Str? && x.s != "" && wanted(x.s)
    case At(at) => x.Obj? && exists k :: k in x.fields && k in at && Holds(at[k], x.fields[k], wanted)
    case Each(item) => x.Arr? && exists i :: 0 <= i < |x.items| && Holds(item, x.items[i], wanted)
    case Every(value) => x.Obj? && exists k :: k in x.fields && Holds(value, x.fields[k], wanted)
    case Llm => Holds(LLM, x, wanted)
  }

  lemma {:induction false} HoldsWhatItHas(shape: Shape, x: Json, wanted: string -> bool, kind: Kind, s: string)
    requires Reaches(shape, x, kind, Str(s)) && s != "" && wanted(s)
    ensures Holds(shape, x, wanted)
    decreases x, shape.Llm?
  {
    match shape {
      case Leaf(_) =>
      case At(at) =>
        var k :| k in x.fields && k in at && Reaches(at[k], x.fields[k], kind, Str(s));
        HoldsWhatItHas(at[k], x.fields[k], wanted, kind, s);
      case Each(item) =>
        var i :| 0 <= i < |x.items| && Reaches(item, x.items[i], kind, Str(s));
        HoldsWhatItHas(item, x.items[i], wanted, kind, s);
      case Every(value) =>
        var k :| k in x.fields && Reaches(value, x.fields[k], kind, Str(s));
        HoldsWhatItHas(value, x.fields[k], wanted, kind, s);
      case Llm => HoldsWhatItHas(LLM, x, wanted, kind, s);
    }
  }

  lemma {:induction false} HasWhatItHolds(shape: Shape, x: Json, wanted: string -> bool) returns (kind: Kind, s: string)
    requires Holds(shape, x, wanted)
    ensures Reaches(shape, x, kind, Str(s)) && s != "" && wanted(s)
    decreases x, shape.Llm?
  {
    match shape {
      case Leaf(here) => kind, s := here, x.s;
      case At(at) =>
        var k :| k in x.fields && k in at && Holds(at[k], x.fields[k], wanted);
        kind, s := HasWhatItHolds(at[k], x.fields[k], wanted);
      case Each(item) =>
        var i :| 0 <= i < |x.items| && Holds(item, x.items[i], wanted);
        kind, s := HasWhatItHolds(item, x.items[i], wanted);
      case Every(value) =>
        var k :| k in x.fields && Holds(value, x.fields[k], wanted);
        kind, s := HasWhatItHolds(value, x.fields[k], wanted);
      case Llm => kind, s := HasWhatItHolds(LLM, x, wanted);
    }
  }

  /** A value holds a wanted secret exactly when one of its secrets is wanted. */
  lemma HoldsIff(shape: Shape, x: Json, wanted: string -> bool)
    ensures Holds(shape, x, wanted) <==> exists s :: HasSecret(shape, x, s) && wanted(s)
  {
    if Holds(shape, x, wanted) {
      var kind, s := HasWhatItHolds(shape, x, wanted);
      assert HasSecret(shape, x, s);
    }
    if s :| HasSecret(shape, x, s) && wanted(s) {
      var kind :| Reaches(shape, x, kind, Str(s));
      HoldsWhatItHas(shape, x, wanted, kind, s);
    }
  }
}
