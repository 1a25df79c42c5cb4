/**
 `upgrade` and `downgrade` over all the columns, and that the one undoes the other.
 */
module SealUpgrade {
  import opened Options
  import opened ConfigSecrets
  import opened SealedRows
  import opened SealMigration
  import opened SealPlaces

  /** The five large columns, then the two that are widened. */
  const COLUMNS: seq<Reach> := [WholeConfig, DynamicConfig, DynamicConfig, InlineTarget, InlineTarget, Text, Text]
  const LARGE := 5

  const NO_ROWS: Rows := []

  type Tables = tables: seq<Rows> | |tables| == |COLUMNS| witness seq(|COLUMNS|, i => NO_ROWS)

  function Sealer(key: Key): Try {
    s => Some(Seal(key, s))
  }

  function Unsealer(key: Key): Try {
    s => Unseal(key, s)
  }

  // ----- secrets in the tables

  ghost predicate RowHasSecret(c: int, row: Row, s: string)
    requires 0 <= c < |COLUMNS|
  {
    row.value.Some? && HasSecret(ShapeOf(COLUMNS[c]), row.value.value, s)
  }

  /** Some row of some column holds this secret. */
  ghost predicate Stored(tables: Tables, s: string) {
    exists c, row :: 0 <= c < |COLUMNS| && row in tables[c] && RowHasSecret(c, row, s)
  }

  lemma RaisesIff(c: int, row: Row, fn: Try)
    requires 0 <= c < |COLUMNS|
    ensures Raises(COLUMNS[c], row, fn) <==> exists s :: RowHasSecret(c, row, s) && fn(s).None?
  {
    if row.value.Some? {
      HoldsIff(ShapeOf(COLUMNS[c]), row.value.value, s => fn(s).None?);
    }
  }

  function Another(s: string): string {
    s + "!"
  }

  /** Rows that are not selected hold no secret. */
  lemma SkippedHasNoSecret(c: int, row: Row, s: string)
    requires 0 <= c < |COLUMNS| && RowHasSecret(c, row, s)
    ensures Selected(COLUMNS[c], row.value)
  {
    assert |Another(s)| == |s| + 1;
    if !Selected(COLUMNS[c], row.value) {
      SkippedHoldsNothing(COLUMNS[c], row.value.value, Mapping(Another));
      UnchangedWhenSecretsAre(ShapeOf(COLUMNS[c]), row.value.value, Another);
    }
  }

  /** Looking only at the selected rows misses no secret. */
  lemma FailsIff(c: int, rows: Rows, fn: Try)
    requires 0 <= c < |COLUMNS|
    ensures Fails(COLUMNS[c], Picked(rows, COLUMNS[c], None), fn) <==>
      exists row, s :: row in rows && RowHasSecret(c, row, s) && fn(s).None?
  {
    if Fails(COLUMNS[c], Picked(rows, COLUMNS[c], None), fn) {
      var row :| row in Picked(rows, COLUMNS[c], None) && Raises(COLUMNS[c], row, fn);
      PickedIff(rows, COLUMNS[c], None, row);
      RaisesIff(c, row, fn);
    }
    if row, s :| row in rows && RowHasSecret(c, row, s) && fn(s).None? {
      SkippedHasNoSecret(c, row, s);
      PickedIff(rows, COLUMNS[c], None, row);
      RaisesIff(c, row, fn);
    }
  }

  // ----- the whole tables

  function Column(tables: Tables, c: int, fn: Convert): Rows
    requires 0 <= c < |COLUMNS|
  {
    var rows: seq<Row> := AllRewritten(COLUMNS[c], tables[c], fn);
    rows
  }

  /** `fn` over every secret stored. */
  function AllMapped(tables: Tables, fn: Convert): Tables {
    seq(|COLUMNS|, c requires 0 <= c < |COLUMNS| => Column(tables, c, fn))
  }

  /** Some secret stored cannot be converted. */
  ghost predicate SomeFail(tables: Tables, fn: Try) {
    exists s :: Stored(tables, s) && fn(s).None?
  }

  /** How many of the rows hold a wanted secret. */
  function Counted(reach: Reach, rows: seq<Row>, wanted: string -> bool): nat
    decreases |rows|
  {
    if rows == [] then 0
    else
      var last := rows[|rows| - 1];
      Counted(reach, rows[..|rows| - 1], wanted)
      + if last.value.Some? && Holds(ShapeOf(reach), last.value.value, wanted) then 1 else 0
  }

  lemma CountedMore(reach: Reach, rows: seq<Row>, row: Row, wanted: string -> bool)
    ensures Counted(reach, rows + [row], wanted) == Counted(reach, rows, wanted)
      + if row.value.Some? && Holds(ShapeOf(reach), row.value.value, wanted) then 1 else 0
  {
    assert (rows + [row])[..|rows|] == rows;
  }

  lemma {:induction false} NoneCounted(reach: Reach, rows: seq<Row>, wanted: string -> bool)
    ensures Counted(reach, rows, wanted) == 0 <==>
      forall row :: row in rows ==> row.value.None? || !Holds(ShapeOf(reach), row.value.value, wanted)
    decreases |rows|
  {
    if rows != [] {
      var last := |rows| - 1;
      NoneCounted(reach, rows[..last], wanted);
      assert rows == rows[..last] + [rows[last]];
    }
  }

  /** One page more of a count. */
  method CountPage(reach: Reach, page: seq<Row>, wanted: string -> bool, counted: nat, ghost seen: seq<Row>)
    returns (count: nat)
    requires counted == Counted(reach, seen, wanted)
    ensures count == Counted(reach, seen + page, wanted)
  {
    count := counted;
    assert seen + page[..0] == seen;
    for i := 0 to |page|
      invariant count == Counted(reach, seen + page[..i], wanted)
    {
      CountedMore(reach, seen + page[..i], page[i], wanted);
      assert seen + page[..i + 1] == seen + page[..i] + [page[i]];
      if page[i].value.Some? && Holds(ShapeOf(reach), page[i].value.value, wanted) {
        count := count + 1;
      }
    }
    assert page[..|page|] == page;
  }

  /** The pages seen so far, and what is still to come after them. */
  ghost predicate Partway(reach: Reach, rows: Rows, after: Option<Id>, full: bool, seen: seq<Row>) {
    seen + (if full then Picked(rows, reach, after) else []) == Picked(rows, reach, None)
  }

  lemma OnePageOn(reach: Reach, rows: Rows, after: Option<Id>, limit: nat, seen: seq<Row>)
    requires limit > 0 && Partway(reach, rows, after, true, seen)
    ensures
      var page := Page(rows, reach, after, limit);
      && Partway(reach, rows, Next(page, limit, after), |page| == limit, seen + page)
      && |seen| + |page| <= |Picked(rows, reach, None)|
  {
    var page := Page(rows, reach, after, limit);
    PageStarts(rows, reach, after, limit);
    PageSplits(rows, reach, after, limit);
    if |page| == limit {
      Associates(seen, page, Picked(rows, reach, Some(page[|page| - 1].id)));
    }
  }

  lemma NothingToCome(reach: Reach, rows: Rows, after: Option<Id>, seen: seq<Row>)
    requires Partway(reach, rows, after, false, seen)
    ensures seen == Picked(rows, reach, None)
  {
  }

  /** `_count` of one column. */
  method Count(reach: Reach, rows: Rows, wanted: string -> bool, limit: nat) returns (count: nat)
    requires limit > 0
    ensures count == Counted(reach, Picked(rows, reach, None), wanted)
  {
    ghost var seen: seq<Row> := [];
    var after: Option<Id> := None;
    var full := true;
    count := 0;
    while full
      invariant Partway(reach, rows, after, full, seen)
      invariant count == Counted(reach, seen, wanted) && |seen| <= |Picked(rows, reach, None)|
      decreases full, |Picked(rows, reach, None)| - |seen|
    {
      var page := Page(rows, reach, after, limit);
      OnePageOn(reach, rows, after, limit, seen);
      count := CountPage(reach, page, wanted, count, seen);
      seen, full, after := seen + page, |page| == limit, Next(page, limit, after);
    }
    NothingToCome(reach, rows, after, seen);
  }

  lemma CountIff(c: int, rows: Rows, wanted: string -> bool)
    requires 0 <= c < |COLUMNS|
    ensures Counted(COLUMNS[c], Picked(rows, COLUMNS[c], None), wanted) == 0 <==>
      forall row, s :: row in rows && RowHasSecret(c, row, s) ==> !wanted(s)
  {
    var picked := Picked(rows, COLUMNS[c], None);
    NoneCounted(COLUMNS[c], picked, wanted);
    forall row: Row ensures row.value.Some? ==>
      (Holds(ShapeOf(COLUMNS[c]), row.value.value, wanted) <==> exists s :: RowHasSecret(c, row, s) && wanted(s))
    {
      if row.value.Some? {
        HoldsIff(ShapeOf(COLUMNS[c]), row.value.value, wanted);
      }
    }
    forall row, s | row in rows && RowHasSecret(c, row, s) ensures row in picked {
      SkippedHasNoSecret(c, row, s);
      PickedIff(rows, COLUMNS[c], None, row);
    }
    forall row | row in picked ensures row in rows {
      PickedIff(rows, COLUMNS[c], None, row);
    }
  }

  // ----- the migration

  /** The columns before `c` converted, those from it on as they were. */
  ghost predicate ConvertedTo(now: seq<Rows>, was: Tables, fn: Convert, c: int)
    requires 0 <= c <= |COLUMNS|
  {
    && |now| == |COLUMNS|
    && (forall d :: 0 <= d < c ==> now[d] == Column(was, d, fn))
    && (forall d :: c <= d < |COLUMNS| ==> now[d] == was[d])
  }

  ghost predicate NoneFailTo(was: Tables, fn: Try, c: int)
    requires 0 <= c <= |COLUMNS|
  {
    forall d, row, s :: 0 <= d < c && row in was[d] && RowHasSecret(d, row, s) ==> fn(s).Some?
  }

  lemma AllConverted(now: seq<Rows>, was: Tables, fn: Try)
    requires ConvertedTo(now, was, Total(fn), |COLUMNS|) && NoneFailTo(was, fn, |COLUMNS|)
    ensures now == AllMapped(was, Total(fn)) && !SomeFail(was, fn)
  {
    assert now == AllMapped(was, Total(fn));
    forall s | Stored(was, s) ensures fn(s).Some? {
      var c, row :| 0 <= c < |COLUMNS| && row in was[c] && RowHasSecret(c, row, s);
    }
  }

  lemma OneFails(was: Tables, c: int, fn: Try)
    requires 0 <= c < |COLUMNS| && Fails(COLUMNS[c], Picked(was[c], COLUMNS[c], None), fn)
    ensures SomeFail(was, fn)
  {
    FailsIff(c, was[c], fn);
    var row, s :| row in was[c] && RowHasSecret(c, row, s) && fn(s).None?;
    assert Stored(was, s);
  }

  /** A column more, none of whose secrets failed. */
  lemma OneColumnOn(now: seq<Rows>, was: Tables, fn: Try, c: int, rows: Rows, seen: seq<Row>)
    requires 0 <= c < |COLUMNS| && ConvertedTo(now, was, Total(fn), c) && NoneFailTo(was, fn, c)
    requires !Fails(COLUMNS[c], Picked(was[c], COLUMNS[c], None), fn)
    requires Finished(COLUMNS[c], rows, was[c], Total(fn), seen)
    ensures ConvertedTo(now[c := rows], was, Total(fn), c + 1) && NoneFailTo(was, fn, c + 1)
  {
    FailsIff(c, was[c], fn);
  }

  /** `_rewrite` of the columns from `c` up to `end`. */
  method RewriteColumns(was: Tables, now: seq<Rows>, fn: Try, c: int, end: int, limit: nat)
    returns (tables: seq<Rows>, ok: bool)
    requires 0 <= c <= end <= |COLUMNS| && limit > 0
    requires ConvertedTo(now, was, Total(fn), c) && NoneFailTo(was, fn, c)
    ensures ok ==> ConvertedTo(tables, was, Total(fn), end) && NoneFailTo(was, fn, end)
    ensures !ok ==> SomeFail(was, fn)
  {
    tables, ok := now, true;
    for i := c to end
      invariant ok && ConvertedTo(tables, was, Total(fn), i) && NoneFailTo(was, fn, i)
    {
      var rows, converted, seen := Rewrite(COLUMNS[i], tables[i], fn, limit);
      if !converted {
        OneFails(was, i, fn);
        ok := false;
        return;
      }
      OneColumnOn(tables, was, fn, i, rows, seen);
      tables := tables[i := rows];
    }
  }

  /** Some stored secret is wanted. */
  ghost predicate SomeStored(tables: Tables, wanted: string -> bool) {
    exists s :: Stored(tables, s) && wanted(s)
  }

  /** `_count` of all the columns: whether any row holds a wanted secret. */
  method AnyHolds(tables: Tables, wanted: string -> bool, limit: nat) returns (any: bool)
    requires limit > 0
    ensures any <==> SomeStored(tables, wanted)
  {
    any := false;
    for c := 0 to |COLUMNS|
      invariant any ==> SomeStored(tables, wanted)
      invariant !any ==> forall d, row, s :: 0 <= d < c && row in tables[d] && RowHasSecret(d, row, s) ==> !wanted(s)
    {
      var count := Count(COLUMNS[c], tables[c], wanted, limit);
      CountIff(c, tables[c], wanted);
      if count > 0 {
        any := true;
        ghost var row, s :| row in tables[c] && RowHasSecret(c, row, s) && wanted(s);
        assert Stored(tables, s);
      }
    }
  }

  // ----- what a migration that goes through has made of everything stored

  /** Every row is there, and each of its places became what it may. */
  ghost predicate TablesBecame(was: Tables, now: Tables, becomes: Becomes) {
    forall c :: 0 <= c < |COLUMNS| ==>
      |now[c]| == |was[c]| && forall i :: 0 <= i < |was[c]| ==> RowBecame(COLUMNS[c], was[c][i], now[c][i], becomes)
  }

  lemma AllMappedBecame(tables: Tables, fn: Convert, becomes: Becomes)
    requires forall s :: Stored(tables, s) ==> becomes(s, fn(s))
    ensures TablesBecame(tables, AllMapped(tables, fn), becomes)
  {
    forall c, i | 0 <= c < |COLUMNS| && 0 <= i < |tables[c]|
      ensures RowBecame(COLUMNS[c], tables[c][i], Rewritten(COLUMNS[c], tables[c][i], fn), becomes)
    {
      forall s | RowHasSecret(c, tables[c][i], s) ensures Stored(tables, s) {
      }
      RewrittenBecame(COLUMNS[c], tables[c][i], fn, becomes);
    }
  }

  lemma RowUnchanged(c: int, row: Row, fn: Convert)
    requires 0 <= c < |COLUMNS| && forall s :: RowHasSecret(c, row, s) ==> fn(s) == s
    ensures Rewritten(COLUMNS[c], row, fn) == row
  {
    if row.value.Some? {
      MapAtWalks(COLUMNS[c], row.value.value, fn);
      UnchangedWhenSecretsAre(ShapeOf(COLUMNS[c]), row.value.value, fn);
    }
  }

  /** What keeps every secret stored leaves the tables exactly as they were. */
  lemma AllMappedUnchanged(tables: Tables, fn: Convert)
    requires forall s :: Stored(tables, s) ==> fn(s) == s
    ensures AllMapped(tables, fn) == tables
  {
    forall c | 0 <= c < |COLUMNS| ensures Column(tables, c, fn) == tables[c] {
      forall i | 0 <= i < |tables[c]| ensures Rewritten(COLUMNS[c], tables[c][i], fn) == tables[c][i] {
        forall s | RowHasSecret(c, tables[c][i], s) ensures Stored(tables, s) {
        }
        RowUnchanged(c, tables[c][i], fn);
      }
    }
  }

  lemma SealedTables(tables: Tables, key: Key)
    ensures TablesBecame(tables, AllMapped(tables, Total(Sealer(key))), Sealing(key))
  {
    forall s ensures Sealing(key)(s, Total(Sealer(key))(s)) {
      SealMaySeal(key, s);
    }
    AllMappedBecame(tables, Total(Sealer(key)), Sealing(key));
  }

  /** Some secret stored is marked sealed and does not open under the key. */
  ghost predicate SomeShut(tables: Tables, key: Key) {
    exists s :: Stored(tables, s) && PREFIX <= s && key.open(s[|PREFIX|..]).None?
  }

  ghost predicate SomeMarked(tables: Tables) {
    exists s :: Stored(tables, s) && PREFIX <= s
  }

  lemma FailsIffShut(tables: Tables, key: Key)
    ensures SomeFail(tables, Unsealer(key)) <==> SomeShut(tables, key)
  {
    forall s ensures Unseal(key, s).None? <==> PREFIX <= s && key.open(s[|PREFIX|..]).None? {
      UnsealMayUnseal(key, s);
    }
    if SomeFail(tables, Unsealer(key)) {
      var s :| Stored(tables, s) && Unsealer(key)(s).None?;
    }
    if SomeShut(tables, key) {
      var s :| Stored(tables, s) && PREFIX <= s && key.open(s[|PREFIX|..]).None?;
      assert Unsealer(key)(s).None?;
    }
  }

  lemma UnsealedTables(tables: Tables, key: Key)
    requires !SomeShut(tables, key)
    ensures TablesBecame(tables, AllMapped(tables, Total(Unsealer(key))), Unsealing(key))
    ensures !SomeMarked(tables) ==> AllMapped(tables, Total(Unsealer(key))) == tables
  {
    forall s | Stored(tables, s) ensures Unsealing(key)(s, Total(Unsealer(key))(s)) {
      UnsealMayUnseal(key, s);
    }
    AllMappedBecame(tables, Total(Unsealer(key)), Unsealing(key));
    if !SomeMarked(tables) {
      AllMappedUnchanged(tables, Total(Unsealer(key)));
    }
  }

  lemma MarkedIffSealed(tables: Tables)
    ensures SomeMarked(tables) <==> SomeStored(tables, s => IsSealed(s))
  {
    if SomeMarked(tables) {
      var s :| Stored(tables, s) && PREFIX <= s;
      assert (s => IsSealed(s))(s);
    }
  }

  /** The database, changed by a migration in one transaction: all of it or nothing. */
  class Database {
    var tables: Tables
    var widened: bool

    /** `upgrade`; whether it went through. With a key every secret stored is sealed under
        it. Without one it refuses exactly when some secret is stored, and changes
        nothing. */
    method Upgrade(key: Option<Key>, limit: nat) returns (ok: bool)
      requires limit > 0
      modifies this
      ensures key.Some? ==> ok && tables == AllMapped(old(tables), Total(Sealer(key.value)))
      ensures key.Some? ==> TablesBecame(old(tables), tables, Sealing(key.value))
      ensures key.None? ==> tables == old(tables) && (ok <==> !SomeStored(tables, s => true))
      ensures widened == (ok || old(widened))
    {
      if key.None? {
        var unsealed := AnyHolds(tables, s => true, limit);
        if unsealed {
          return false;
        }
        widened := true;
        return true;
      }
      var seal := Sealer(key.value);
      var rewritten, fine := RewriteColumns(tables, tables, seal, 0, LARGE, limit);
      if fine {
        widened := true;
        rewritten, fine := RewriteColumns(tables, rewritten, seal, LARGE, |COLUMNS|, limit);
      }
      SealingNeverFails(tables, key.value);
      AllConverted(rewritten, tables, seal);
      SealedTables(tables, key.value);
      tables := rewritten;
      return true;
    }

    /** `downgrade`; whether it went through. Without a key it refuses exactly when some
        secret stored is marked sealed, with one when the key opens not all of those;
        a refusal changes nothing. With a key each marked secret becomes what the key
        opens it to, and each plain one stays. */
    method Downgrade(key: Option<Key>, limit: nat) returns (ok: bool)
      requires limit > 0
      modifies this
      ensures key.Some? && ok ==> tables == AllMapped(old(tables), Total(Unsealer(key.value)))
      ensures ok <==> if key.Some? then !SomeShut(old(tables), key.value) else !SomeMarked(old(tables))
      ensures key.Some? && ok ==> TablesBecame(old(tables), tables, Unsealing(key.value))
      ensures !SomeMarked(old(tables)) || key.None? ==> tables == old(tables)
      ensures widened == (!ok && old(widened))
      ensures !ok ==> tables == old(tables)
    {
      if key.None? {
        MarkedIffSealed(tables);
        var marked := AnyHolds(tables, s => IsSealed(s), limit);
        if marked {
          return false;
        }
      } else {
        var unseal := Unsealer(key.value);
        FailsIffShut(tables, key.value);
        var rewritten, fine := RewriteColumns(tables, tables, unseal, 0, |COLUMNS|, limit);
        if !fine {
          return false;
        }
        AllConverted(rewritten, tables, unseal);
        UnsealedTables(tables, key.value);
        tables := rewritten;
      }
      widened := false;
      return true;
    }
  }

  lemma SealingNeverFails(tables: Tables, key: Key)
    ensures !SomeFail(tables, Sealer(key))
  {
  }
}
