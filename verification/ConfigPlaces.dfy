/**
 The config walkers place by place: what a reader sees of each of a config's secrets once
 they are masked, and what mapping puts in the place of each.
 */
module ConfigPlaces {
  import opened Options
  import opened Documents
  import opened DocumentPlaces
  import opened ConfigSecrets
  import opened SealPlaces

  /** What a reader sees where a secret is: of an absent one that it is, of a header or
      variable nothing in any case, and the id of a key as it is. */
  predicate SeenAs(kind: Kind, was: Json, now: Json) {
    match kind
    case Secret => now == if was == Null then Null else Str("***")
    case Entry => now == Str("***")
    case KeyId => now == was
  }

  /** Masking hides the secret at every place of the config, and changes nothing else. */
  lemma SanitizeHides(config: Json)
    ensures forall path, kind :: IsPlace(CONFIG, config, path, kind) ==>
      && Get(config, path).Some? && Get(SanitizeConfig(config), path).Some?
      && SeenAs(kind, Get(config, path).value, Get(SanitizeConfig(config), path).value)
    ensures forall path :: !InAPlace(CONFIG, config, path) ==>
      SameOutline(Get(config, path), Get(SanitizeConfig(config), path))
  {
    AllWalkTheSame(config, s => s);
    forall path, kind | IsPlace(CONFIG, config, path, kind)
      ensures Get(config, path).Some? && Get(SanitizeConfig(config), path).Some?
      ensures SeenAs(kind, Get(config, path).value, Get(SanitizeConfig(config), path).value)
    {
      WalkAtPlace(CONFIG, config, Masking, path, kind);
    }
    forall path | !InAPlace(CONFIG, config, path)
      ensures SameOutline(Get(config, path), Get(SanitizeConfig(config), path))
    {
      WalkElsewhere(CONFIG, config, Masking, path);
    }
  }

  function MadeBy(fn: Convert): Becomes {
    (was: string, now: string) => now == fn(was)
  }

  /** Mapping puts what its function makes of each secret in that secret's place, leaves an
      empty one and what is no string there alone, and changes nothing else. */
  lemma MapSecretsInPlace(config: Json, fn: Convert)
    ensures DocumentBecame(CONFIG, config, MapSecrets(config, fn), MadeBy(fn))
    ensures DocumentBecame(CONFIG, config, MapConfig(config, fn), MadeBy(fn))
  {
    AllWalkTheSame(config, fn);
    MappedBecame(CONFIG, config, fn, MadeBy(fn));
  }
}
