/**
 Sealing what is stored, twice, and unsealing it again.
 */
module SealRoundTrip {
  import opened Options
  import opened Documents
  import opened ConfigSecrets
  import opened SealedRows
  import opened SealMigration
  import opened SealUpgrade

  function SealFn(key: Key): Convert {
    Total(Sealer(key))
  }

  function UnsealFn(key: Key): Convert {
    Total(Unsealer(key))
  }

  /** A secret after a map is what the map made of one before it. */
  lemma SecretsAfter(shape: Shape, x: Json, fn: Convert, now: string) returns (was: string)
    requires HasSecret(shape, Walk(shape, x, Mapping(fn)), now)
    ensures HasSecret(shape, x, was) && now == fn(was)
  {
    var kind :| Reaches(shape, Walk(shape, x, Mapping(fn)), kind, Str(now));
    var v := ReachedAfter(shape, x, Mapping(fn), kind, Str(now));
    assert MapValue(v, fn) == Str(now);
    was := v.s;
  }

  // ----- one value

  lemma SealedTwice(shape: Shape, x: Json, key: Key)
    ensures
      var sealed := Walk(shape, x, Mapping(SealFn(key)));
      Walk(shape, sealed, Mapping(SealFn(key))) == sealed
  {
    var sealed := Walk(shape, x, Mapping(SealFn(key)));
    forall s | HasSecret(shape, sealed, s) ensures SealFn(key)(s) == s {
      var was := SecretsAfter(shape, x, SealFn(key), s);
      SealThenUnseal(key, was);
    }
    UnchangedWhenSecretsAre(shape, sealed, SealFn(key));
  }

  /** Nothing stored opened under the key already, but to itself. */
  predicate Restores(key: Key, s: string) {
    SealedUnder(key, s) ==> key.open(Inside(s)) == Some(s)
  }

  lemma SealedAndBack(key: Key, s: string)
    ensures BackAndForth(SealFn(key), UnsealFn(key), s) == s <==> Restores(key, s)
  {
    SealThenUnseal(key, s);
  }

  lemma UnsealedAgain(shape: Shape, x: Json, key: Key)
    ensures Walk(shape, Walk(shape, x, Mapping(SealFn(key))), Mapping(UnsealFn(key))) == x <==>
      forall s :: HasSecret(shape, x, s) ==> Restores(key, s)
  {
    WalkRoundTrip(shape, x, SealFn(key), UnsealFn(key));
    forall s ensures BackAndForth(SealFn(key), UnsealFn(key), s) == s <==> Restores(key, s) {
      SealedAndBack(key, s);
    }
  }

  // ----- one row

  lemma RowSealedTwice(c: int, row: Row, key: Key)
    requires 0 <= c < |COLUMNS|
    ensures
      var sealed := Rewritten(COLUMNS[c], row, SealFn(key));
      Rewritten(COLUMNS[c], sealed, SealFn(key)) == sealed
  {
    if row.value.Some? {
      var sealed := MapAt(COLUMNS[c], row.value.value, SealFn(key));
      MapAtWalks(COLUMNS[c], row.value.value, SealFn(key));
      MapAtWalks(COLUMNS[c], sealed, SealFn(key));
      SealedTwice(ShapeOf(COLUMNS[c]), row.value.value, key);
    }
  }

  ghost predicate RowRestores(c: int, row: Row, key: Key)
    requires 0 <= c < |COLUMNS|
  {
    forall s :: RowHasSecret(c, row, s) ==> Restores(key, s)
  }

  lemma RowUnsealedAgain(c: int, row: Row, key: Key)
    requires 0 <= c < |COLUMNS|
    ensures Rewritten(COLUMNS[c], Rewritten(COLUMNS[c], row, SealFn(key)), UnsealFn(key)) == row <==>
      RowRestores(c, row, key)
  {
    if row.value.Some? {
      var sealed := MapAt(COLUMNS[c], row.value.value, SealFn(key));
      MapAtWalks(COLUMNS[c], row.value.value, SealFn(key));
      MapAtWalks(COLUMNS[c], sealed, UnsealFn(key));
      UnsealedAgain(ShapeOf(COLUMNS[c]), row.value.value, key);
    }
  }

  lemma SealedRowOpens(c: int, row: Row, key: Key, s: string)
    requires 0 <= c < |COLUMNS| && RowHasSecret(c, Rewritten(COLUMNS[c], row, SealFn(key)), s)
    ensures SealedUnder(key, s) && Unseal(key, s).Some?
  {
    MapAtWalks(COLUMNS[c], row.value.value, SealFn(key));
    var was := SecretsAfter(ShapeOf(COLUMNS[c]), row.value.value, SealFn(key), s);
    SealThenUnseal(key, was);
  }

  // ----- everything stored

  lemma ColumnSealedTwice(tables: Tables, key: Key, c: int)
    requires 0 <= c < |COLUMNS|
    ensures Column(AllMapped(tables, SealFn(key)), c, SealFn(key)) == Column(tables, c, SealFn(key))
  {
    forall i | 0 <= i < |tables[c]|
      ensures Rewritten(COLUMNS[c], Rewritten(COLUMNS[c], tables[c][i], SealFn(key)), SealFn(key))
        == Rewritten(COLUMNS[c], tables[c][i], SealFn(key))
    {
      RowSealedTwice(c, tables[c][i], key);
    }
  }

  /** Upgrading again seals nothing twice. */
  lemma UpgradeIsIdempotent(tables: Tables, key: Key)
    ensures AllMapped(AllMapped(tables, SealFn(key)), SealFn(key)) == AllMapped(tables, SealFn(key))
  {
    forall c | 0 <= c < |COLUMNS|
      ensures Column(AllMapped(tables, SealFn(key)), c, SealFn(key)) == Column(tables, c, SealFn(key))
    {
      ColumnSealedTwice(tables, key, c);
    }
  }

  /** After an upgrade every secret stored is sealed under the key, so a downgrade with it
      goes through. */
  lemma DowngradeGoesThrough(tables: Tables, key: Key)
    ensures forall s :: Stored(AllMapped(tables, SealFn(key)), s) ==> SealedUnder(key, s)
    ensures !SomeFail(AllMapped(tables, SealFn(key)), Unsealer(key))
  {
    forall s | Stored(AllMapped(tables, SealFn(key)), s) ensures SealedUnder(key, s) && Unseal(key, s).Some? {
      var c, row :| 0 <= c < |COLUMNS| && row in AllMapped(tables, SealFn(key))[c] && RowHasSecret(c, row, s);
      var i :| 0 <= i < |tables[c]| && row == Rewritten(COLUMNS[c], tables[c][i], SealFn(key));
      SealedRowOpens(c, tables[c][i], key, s);
    }
  }

  lemma ColumnUnsealedAgain(tables: Tables, key: Key, c: int)
    requires 0 <= c < |COLUMNS|
    ensures Column(AllMapped(tables, SealFn(key)), c, UnsealFn(key)) == tables[c] <==>
      forall row :: row in tables[c] ==> RowRestores(c, row, key)
  {
    var back := Column(AllMapped(tables, SealFn(key)), c, UnsealFn(key));
    forall i | 0 <= i < |tables[c]| ensures back[i] == tables[c][i] <==> RowRestores(c, tables[c][i], key) {
      RowUnsealedAgain(c, tables[c][i], key);
    }
    if back == tables[c] {
      forall row | row in tables[c] ensures RowRestores(c, row, key) {
        var i :| 0 <= i < |tables[c]| && tables[c][i] == row;
        assert back[i] == tables[c][i];
      }
    }
  }

  /** Upgrading and downgrading with one key restores everything stored, exactly when no
      secret stored opened under that key already (to anything but itself); a plain
      secret that only starts like a sealed one is restored too. */
  lemma DowngradeRestores(tables: Tables, key: Key)
    ensures AllMapped(AllMapped(tables, SealFn(key)), UnsealFn(key)) == tables <==>
      forall s :: Stored(tables, s) ==> Restores(key, s)
  {
    var back := AllMapped(AllMapped(tables, SealFn(key)), UnsealFn(key));
    forall c | 0 <= c < |COLUMNS|
      ensures back[c] == tables[c] <==> forall row :: row in tables[c] ==> RowRestores(c, row, key)
    {
      ColumnUnsealedAgain(tables, key, c);
    }
    if back == tables {
      forall s | Stored(tables, s) ensures Restores(key, s) {
        var c, row :| 0 <= c < |COLUMNS| && row in tables[c] && RowHasSecret(c, row, s);
        assert RowRestores(c, row, key);
      }
    }
    if forall s :: Stored(tables, s) ==> Restores(key, s) {
      forall c | 0 <= c < |COLUMNS| ensures back[c] == tables[c] {
        forall row, s | row in tables[c] && RowHasSecret(c, row, s) ensures Restores(key, s) {
          assert Stored(tables, s);
        }
      }
    }
  }

  /** Up and down again with one key. */
  method UpAndDown(db: Database, key: Key, limit: nat) returns (ok: bool)
    requires limit > 0
    modifies db
    ensures ok && !db.widened
    ensures db.tables == old(db.tables) <==> forall s :: Stored(old(db.tables), s) ==> Restores(key, s)
  {
    DowngradeGoesThrough(db.tables, key);
    DowngradeRestores(db.tables, key);
    var up := db.Upgrade(Some(key), limit);
    ok := db.Downgrade(Some(key), limit);
  }
}
