/**
 What the sealing migration makes of what is stored, place by place: the marked secrets,
 the plain ones, and everything that is no secret.
 */
module SealPlaces {
  import opened Options
  import opened Documents
  import opened DocumentPlaces
  import opened ConfigSecrets
  import opened SealedRows
  import opened SealMigration

  /** How a secret before and one after a migration are related. */
  type Becomes = (string, string) -> bool

  /** Sealed under the key: marked, and what follows the mark opens. */
  predicate Opens(key: Key, s: string) {
    PREFIX <= s && key.open(s[|PREFIX|..]).Some?
  }

  /** An upgrade leaves a secret sealed under the key, one that opens to what it was unless
      it was sealed under it already; that one is as it was. */
  function Sealing(key: Key): Becomes {
    (was: string, now: string) =>
      Opens(key, now) && if Opens(key, was) then now == was else key.open(now[|PREFIX|..]) == Some(was)
  }

  /** A downgrade leaves of a marked secret what the key opens it to, and a plain one as it
      was. */
  function Unsealing(key: Key): Becomes {
    (was: string, now: string) =>
      if PREFIX <= was then key.open(was[|PREFIX|..]) == Some(now) else now == was
  }

  /** At a place a secret has become one that it may, and anything else is as it was. */
  ghost predicate PlaceBecame(was: Json, now: Json, becomes: Becomes) {
    if was.Str? && was.s != "" then now.Str? && becomes(was.s, now.s) else now == was
  }

  /** At every place of the shape so, and elsewhere the same document. */
  ghost predicate DocumentBecame(shape: Shape, was: Json, now: Json, becomes: Becomes) {
    && (forall path, kind :: IsPlace(shape, was, path, kind) ==>
          Get(was, path).Some? && Get(now, path).Some?
          && PlaceBecame(Get(was, path).value, Get(now, path).value, becomes))
    && (forall path :: !InAPlace(shape, was, path) ==> SameOutline(Get(was, path), Get(now, path)))
  }

  ghost predicate RowBecame(reach: Reach, was: Row, now: Row, becomes: Becomes) {
    && now.id == was.id && (now.value.Some? <==> was.value.Some?)
    && (was.value.Some? ==> DocumentBecame(ShapeOf(reach), was.value.value, now.value.value, becomes))
  }

  lemma MappedBecame(shape: Shape, x: Json, fn: Convert, becomes: Becomes)
    requires forall s :: HasSecret(shape, x, s) ==> becomes(s, fn(s))
    ensures DocumentBecame(shape, x, Walk(shape, x, Mapping(fn)), becomes)
  {
    var now := Walk(shape, x, Mapping(fn));
    forall path, kind | IsPlace(shape, x, path, kind)
      ensures Get(x, path).Some? && Get(now, path).Some?
      ensures PlaceBecame(Get(x, path).value, Get(now, path).value, becomes)
    {
      WalkAtPlace(shape, x, Mapping(fn), path, kind);
      PlaceIsReached(shape, x, path, kind);
      var v := Get(x, path).value;
      assert v.Str? && v.s != "" ==> HasSecret(shape, x, v.s);
    }
    forall path | !InAPlace(shape, x, path) ensures SameOutline(Get(x, path), Get(now, path)) {
      WalkElsewhere(shape, x, Mapping(fn), path);
    }
  }

  lemma RewrittenBecame(reach: Reach, row: Row, fn: Convert, becomes: Becomes)
    requires row.value.Some? ==> forall s :: HasSecret(ShapeOf(reach), row.value.value, s) ==> becomes(s, fn(s))
    ensures RowBecame(reach, row, Rewritten(reach, row, fn), becomes)
  {
    if row.value.Some? {
      MapAtWalks(reach, row.value.value, fn);
      MappedBecame(ShapeOf(reach), row.value.value, fn, becomes);
    }
  }

  lemma SealMaySeal(key: Key, s: string)
    ensures Sealing(key)(s, Seal(key, s))
  {
    assert (PREFIX + key.close(s))[|PREFIX|..] == key.close(s);
    assert key.open(key.close(s)) == Some(s);
  }

  lemma UnsealMayUnseal(key: Key, s: string)
    ensures Unseal(key, s).None? <==> PREFIX <= s && key.open(s[|PREFIX|..]).None?
    ensures Unseal(key, s).Some? ==> Unsealing(key)(s, Unseal(key, s).value)
  {
  }
}
