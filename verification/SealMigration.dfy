/**
 The sealing migration itself: rows read a page at a time and rewritten in between,
 `upgrade` and `downgrade` with and without a key.
 */
module SealMigration {
  import opened Options
  import opened Documents
  import opened ConfigSecrets
  import opened SealedRows

  type Id = int

  /** A row's id and its column; an absent value is SQL's null. */
  datatype Row = Row(id: Id, value: Option<Json>)

  /** A table in the order of its ids. */
  predicate InOrder(rows: seq<Row>) {
    forall i, j :: 0 <= i < j < |rows| ==> rows[i].id < rows[j].id
  }

  type Rows = rows: seq<Row> | InOrder(rows)

  // ----- what the statements of the migration do

  predicate Picks(reach: Reach, after: Option<Id>, row: Row) {
    Selected(reach, row.value) && (after.Some? ==> after.value < row.id)
  }

  /** The first `limit` selected rows after an id, in the order of ids. */
  function Page(rows: seq<Row>, reach: Reach, after: Option<Id>, limit: nat): seq<Row>
    decreases |rows|
  {
    if rows == [] || limit == 0 then []
    else if Picks(reach, after, rows[0]) then [rows[0]] + Page(rows[1..], reach, after, limit - 1)
    else Page(rows[1..], reach, after, limit)
  }

  /** The rows with those named given their new values. */
  function Updated(rows: seq<Row>, changes: map<Id, Json>): (now: seq<Row>)
    ensures |now| == |rows| && forall i :: 0 <= i < |rows| ==> now[i].id == rows[i].id
  {
    seq(|rows|, i requires 0 <= i < |rows| =>
      if rows[i].id in changes then Row(rows[i].id, Some(changes[rows[i].id])) else rows[i])
  }

  // ----- what the rewriting of a column is to come to

  function Rewritten(reach: Reach, row: Row, fn: Convert): Row {
    if row.value.Some? then row.(value := Some(MapAt(reach, row.value.value, fn))) else row
  }

  /** `fn` over every secret of every row. */
  function AllRewritten(reach: Reach, rows: seq<Row>, fn: Convert): (now: seq<Row>)
    ensures |now| == |rows| && forall i :: 0 <= i < |rows| ==> now[i] == Rewritten(reach, rows[i], fn)
  {
    seq(|rows|, i requires 0 <= i < |rows| => Rewritten(reach, rows[i], fn))
  }

  lemma SkippedStays(reach: Reach, row: Row, fn: Convert)
    requires !Selected(reach, row.value)
    ensures Rewritten(reach, row, fn) == row
  {
    if row.value.Some? {
      SkippedHoldsNothing(reach, row.value.value, Mapping(fn));
      MapAtWalks(reach, row.value.value, fn);
    }
  }

  // ----- paging

  /** Every selected row after an id, in the order of ids. */
  function Picked(rows: seq<Row>, reach: Reach, after: Option<Id>): seq<Row>
    decreases |rows|
  {
    if rows == [] then []
    else (if Picks(reach, after, rows[0]) then [rows[0]] else []) + Picked(rows[1..], reach, after)
  }

  lemma {:induction false} PickedIff(rows: Rows, reach: Reach, after: Option<Id>, row: Row)
    ensures row in Picked(rows, reach, after) <==> row in rows && Picks(reach, after, row)
    decreases |rows|
  {
    if rows != [] {
      PickedIff(rows[1..], reach, after, row);
      assert row in rows <==> row == rows[0] || row in rows[1..];
    }
  }

  /** After an id that all the rows are past, all the selected ones come. */
  lemma {:induction false} PickedPast(rows: Rows, reach: Reach, after: Option<Id>, id: Id)
    requires forall row :: row in rows ==> id < row.id
    requires after.Some? ==> after.value <= id
    ensures Picked(rows, reach, after) == Picked(rows, reach, Some(id))
    decreases |rows|
  {
    if rows != [] {
      assert rows[0] in rows;
      PickedPast(rows[1..], reach, after, id);
    }
  }

  lemma {:induction false} PageStarts(rows: Rows, reach: Reach, after: Option<Id>, limit: nat)
    ensures |Page(rows, reach, after, limit)| <= limit
    ensures forall row :: row in Page(rows, reach, after, limit) ==> row in rows && Picks(reach, after, row)
    decreases |rows|
  {
    if rows != [] && limit > 0 {
      PageStarts(rows[1..], reach, after, if Picks(reach, after, rows[0]) then limit - 1 else limit);
    }
  }

  /** A short page is all there is left; a full one is continued after its last row. */
  ghost predicate Splits(rows: Rows, reach: Reach, after: Option<Id>, limit: nat) {
    SplitsAs(Page(rows, reach, after, limit), Picked(rows, reach, after), limit,
             AfterPage(rows, reach, Page(rows, reach, after, limit)))
  }

  ghost predicate SplitsAs(page: seq<Row>, all: seq<Row>, limit: nat, rest: seq<Row>) {
    if |page| < limit then page == all else page != [] && all == page + rest
  }

  /** Every selected row after the last of a page. */
  function AfterPage(rows: seq<Row>, reach: Reach, page: seq<Row>): seq<Row> {
    if page == [] then [] else Picked(rows, reach, Some(page[|page| - 1].id))
  }

  lemma PickedWithoutFirst(rows: seq<Row>, reach: Reach, after: Option<Id>)
    requires rows != [] && !Picks(reach, after, rows[0])
    ensures Picked(rows, reach, after) == Picked(rows[1..], reach, after)
  {
  }

  lemma PickedWithFirst(rows: seq<Row>, reach: Reach, after: Option<Id>)
    requires rows != [] && Picks(reach, after, rows[0])
    ensures Picked(rows, reach, after) == [rows[0]] + Picked(rows[1..], reach, after)
  {
  }

  lemma Associates(a: seq<Row>, b: seq<Row>, c: seq<Row>)
    ensures (a + b) + c == a + (b + c)
  {
  }

  /** A later row's id picks nothing that comes before it. */
  lemma FirstIsBefore(rows: Rows, reach: Reach, after: Option<Id>, limit: nat)
    requires rows != []
    ensures
      var rest := Page(rows[1..], reach, after, limit);
      AfterPage(rows, reach, rest) == AfterPage(rows[1..], reach, rest)
  {
    var rest := Page(rows[1..], reach, after, limit);
    if rest != [] {
      PageStarts(rows[1..], reach, after, limit);
      assert rest[|rest| - 1] in rest;
      PickedWithoutFirst(rows, reach, Some(rest[|rest| - 1].id));
    }
  }

  lemma PageWithoutFirst(rows: seq<Row>, reach: Reach, after: Option<Id>, limit: nat)
    requires limit > 0 && rows != [] && !Picks(reach, after, rows[0])
    ensures Page(rows, reach, after, limit) == Page(rows[1..], reach, after, limit)
  {
  }

  lemma SkippingOne(rows: Rows, reach: Reach, after: Option<Id>, limit: nat)
    requires limit > 0 && rows != [] && !Picks(reach, after, rows[0]) && Splits(rows[1..], reach, after, limit)
    ensures Splits(rows, reach, after, limit)
  {
    PageWithoutFirst(rows, reach, after, limit);
    PickedWithoutFirst(rows, reach, after);
    FirstIsBefore(rows, reach, after, limit);
  }

  lemma OneRowSooner(row: Row, page: seq<Row>, all: seq<Row>, limit: nat, rest: seq<Row>)
    requires limit > 1 && SplitsAs(page, all, limit - 1, rest)
    ensures SplitsAs([row] + page, [row] + all, limit, rest)
  {
    Associates([row], page, rest);
  }

  lemma PageWithFirst(rows: seq<Row>, reach: Reach, after: Option<Id>, limit: nat)
    requires limit > 1 && rows != [] && Picks(reach, after, rows[0])
    ensures Page(rows, reach, after, limit) == [rows[0]] + Page(rows[1..], reach, after, limit - 1)
    ensures Page(rows[1..], reach, after, limit - 1) != [] ==>
      AfterPage(rows, reach, Page(rows, reach, after, limit)) ==
      AfterPage(rows, reach, Page(rows[1..], reach, after, limit - 1))
  {
  }

  lemma TakingOne(rows: Rows, reach: Reach, after: Option<Id>, limit: nat)
    requires limit > 1 && rows != [] && Picks(reach, after, rows[0]) && Splits(rows[1..], reach, after, limit - 1)
    ensures Splits(rows, reach, after, limit)
  {
    var page := Page(rows[1..], reach, after, limit - 1);
    PageWithFirst(rows, reach, after, limit);
    PickedWithFirst(rows, reach, after);
    FirstIsBefore(rows, reach, after, limit - 1);
    OneRowSooner(rows[0], page, Picked(rows[1..], reach, after), limit, AfterPage(rows[1..], reach, page));
  }

  lemma TakingTheLast(rows: Rows, reach: Reach, after: Option<Id>)
    requires rows != [] && Picks(reach, after, rows[0])
    ensures Splits(rows, reach, after, 1)
  {
    assert Page(rows, reach, after, 1) == [rows[0]];
    PickedWithFirst(rows, reach, after);
    PickedPast(rows[1..], reach, after, rows[0].id);
    PickedWithoutFirst(rows, reach, Some(rows[0].id));
  }

  lemma {:induction false} PageSplits(rows: Rows, reach: Reach, after: Option<Id>, limit: nat)
    requires limit > 0
    ensures Splits(rows, reach, after, limit)
    decreases |rows|
  {
    if rows != [] {
      if !Picks(reach, after, rows[0]) {
        PageSplits(rows[1..], reach, after, limit);
        SkippingOne(rows, reach, after, limit);
      } else if limit == 1 {
        TakingTheLast(rows, reach, after);
      } else {
        PageSplits(rows[1..], reach, after, limit - 1);
        TakingOne(rows, reach, after, limit);
      }
    }
  }

  // ----- rewriting

  /** A conversion of a secret, or the raising of one that cannot be converted. */
  type Try = string -> Option<string>

  function Total(fn: Try): Convert {
    s => if fn(s).Some? then fn(s).value else s
  }

  predicate Raises(reach: Reach, row: Row, fn: Try) {
    row.value.Some? && Holds(ShapeOf(reach), row.value.value, s => fn(s).None?)
  }

  function Applied(row: Row, changes: map<Id, Json>): Row {
    if row.id in changes then Row(row.id, Some(changes[row.id])) else row
  }

  predicate NoneRaises(reach: Reach, page: seq<Row>, fn: Try, n: nat)
    requires n <= |page|
  {
    forall j :: 0 <= j < n ==> !Raises(reach, page[j], fn)
  }

  /** The changes with one row's, if it changes. */
  function WithChange(row: Row, changes: map<Id, Json>, mapped: Json -> Json): map<Id, Json>
    requires row.value.Some?
  {
    if mapped(row.value.value) != row.value.value then changes[row.id := mapped(row.value.value)] else changes
  }

  function PageChanges(page: seq<Row>, mapped: Json -> Json, n: nat): map<Id, Json>
    requires n <= |page| && forall j :: 0 <= j < |page| ==> page[j].value.Some?
    decreases n
  {
    if n == 0 then map[] else WithChange(page[n - 1], PageChanges(page, mapped, n - 1), mapped)
  }

  /** The changes of the first `n` rows of a page are of no other, and give each its new value. */
  lemma {:induction false} ChangesTo(page: Rows, mapped: Json -> Json, n: nat)
    requires n <= |page| && forall j :: 0 <= j < |page| ==> page[j].value.Some?
    ensures
      var changes := PageChanges(page, mapped, n);
      && (forall j :: 0 <= j < n ==> Applied(page[j], changes) == page[j].(value := Some(mapped(page[j].value.value))))
      && (forall id :: id in changes ==> exists j :: 0 <= j < n && page[j].id == id)
    decreases n
  {
    if n > 0 {
      ChangesTo(page, mapped, n - 1);
      var before := PageChanges(page, mapped, n - 1);
      assert page[n - 1].id !in before;
      forall j | 0 <= j < n - 1 ensures page[j].id != page[n - 1].id {
      }
    }
  }

  /** The changes of one page's rows, until one of them raises. */
  method Collect(page: seq<Row>, mapped: Json -> Json, raises: Row -> bool) returns (changes: map<Id, Json>, ok: bool)
    requires forall j :: 0 <= j < |page| ==> page[j].value.Some?
    ensures ok <==> forall j :: 0 <= j < |page| ==> !raises(page[j])
    ensures ok ==> changes == PageChanges(page, mapped, |page|)
  {
    changes, ok := map[], true;
    for i := 0 to |page|
      invariant forall j :: 0 <= j < i ==> !raises(page[j])
      invariant changes == PageChanges(page, mapped, i)
    {
      if raises(page[i]) {
        ok := false;
        return;
      }
      var value := page[i].value.value;
      var now := mapped(value);
      if now != value {
        changes := changes[page[i].id := now];
      }
    }
  }

  method Changes(reach: Reach, page: Rows, fn: Try) returns (changes: map<Id, Json>, ok: bool)
    requires forall j :: 0 <= j < |page| ==> page[j].value.Some?
    ensures ok <==> NoneRaises(reach, page, fn, |page|)
    ensures ok ==> ChangesOf(reach, page, changes, Total(fn))
  {
    changes, ok := Collect(page, v => MapAt(reach, v, Total(fn)), row => Raises(reach, row, fn));
    ChangesTo(page, v => MapAt(reach, v, Total(fn)), |page|);
  }

  /** Up to an id every row is rewritten, and past it none is yet. */
  ghost predicate RewrittenUpTo(reach: Reach, rows: seq<Row>, was: seq<Row>, fn: Convert, after: Option<Id>) {
    && |rows| == |was|
    && forall i :: 0 <= i < |was| ==>
         rows[i] == if after.Some? && was[i].id <= after.value then Rewritten(reach, was[i], fn) else was[i]
  }

  lemma SameFirst(reach: Reach, rows: Rows, was: Rows, fn: Convert, after: Option<Id>)
    requires rows != [] && RewrittenUpTo(reach, rows, was, fn, after)
    ensures was != [] && Picks(reach, after, rows[0]) == Picks(reach, after, was[0])
    ensures Picks(reach, after, rows[0]) ==> rows[0] == was[0]
    ensures RewrittenUpTo(reach, rows[1..], was[1..], fn, after)
  {
  }

  /** Rows rewritten so far do not come up again, nor change what comes up. */
  lemma {:induction false} SamePage(reach: Reach, rows: Rows, was: Rows, fn: Convert, after: Option<Id>, limit: nat)
    requires RewrittenUpTo(reach, rows, was, fn, after)
    ensures Page(rows, reach, after, limit) == Page(was, reach, after, limit)
    decreases |rows|
  {
    if rows != [] && limit > 0 {
      SameFirst(reach, rows, was, fn, after);
      SamePage(reach, rows[1..], was[1..], fn, after, if Picks(reach, after, rows[0]) then limit - 1 else limit);
    }
  }

  lemma {:induction false} PageInOrder(rows: Rows, reach: Reach, after: Option<Id>, limit: nat)
    ensures InOrder(Page(rows, reach, after, limit))
    decreases |rows|
  {
    if rows != [] && limit > 0 {
      var rest := if Picks(reach, after, rows[0]) then limit - 1 else limit;
      PageInOrder(rows[1..], reach, after, rest);
      PageStarts(rows[1..], reach, after, rest);
      forall row | row in Page(rows[1..], reach, after, rest) ensures rows[0].id < row.id {
        assert row in rows[1..];
      }
    }
  }

  /** No row after the last but is still to come; a short page leaves none. */
  predicate UpTo(page: seq<Row>, limit: nat, id: Id) {
    |page| < limit || (page != [] && id <= page[|page| - 1].id)
  }

  lemma InPage(rows: Rows, reach: Reach, after: Option<Id>, limit: nat, row: Row)
    requires limit > 0 && row in rows && UpTo(Page(rows, reach, after, limit), limit, row.id)
    ensures row in Page(rows, reach, after, limit) <==> Picks(reach, after, row)
  {
    var page := Page(rows, reach, after, limit);
    PageStarts(rows, reach, after, limit);
    PageSplits(rows, reach, after, limit);
    PickedIff(rows, reach, after, row);
    if |page| == limit {
      PickedIff(rows, reach, Some(page[|page| - 1].id), row);
    }
  }

  /** What `Changes` promises of a page's changes. */
  ghost predicate ChangesOf(reach: Reach, page: seq<Row>, changes: map<Id, Json>, fn: Convert) {
    && (forall row :: row in page ==> Applied(row, changes) == Rewritten(reach, row, fn))
    && (forall id :: id in changes ==> exists row :: row in page && row.id == id)
  }

  lemma ChangedIsInPage(rows: Rows, page: seq<Row>, reach: Reach, changes: map<Id, Json>, fn: Convert, i: nat)
    requires i < |rows| && ChangesOf(reach, page, changes, fn)
    requires forall row :: row in page ==> row in rows
    requires rows[i].id in changes
    ensures rows[i] in page
  {
    var row :| row in page && row.id == rows[i].id;
    assert row in rows;
    var j :| 0 <= j < |rows| && rows[j] == row;
    assert i == j;
  }

  /** A row that a page has come up to is rewritten by its update. */
  lemma RowComesUp(reach: Reach, rows: Rows, was: Rows, changes: map<Id, Json>, fn: Convert, after: Option<Id>,
                   limit: nat, i: nat)
    requires limit > 0 && i < |was| && RewrittenUpTo(reach, rows, was, fn, after)
    requires ChangesOf(reach, Page(was, reach, after, limit), changes, fn)
    requires UpTo(Page(was, reach, after, limit), limit, was[i].id) || (after.Some? && was[i].id <= after.value)
    ensures Applied(rows[i], changes) == Rewritten(reach, was[i], fn)
  {
    var page := Page(was, reach, after, limit);
    PageStarts(was, reach, after, limit);
    if was[i].id in changes {
      ChangedIsInPage(was, page, reach, changes, fn, i);
    } else if after.None? || after.value < was[i].id {
      InPage(was, reach, after, limit, was[i]);
      if !Selected(reach, was[i].value) {
        SkippedStays(reach, was[i], fn);
      }
    }
  }

  lemma LastOfPage(rows: Rows, reach: Reach, after: Option<Id>, limit: nat, row: Row)
    requires row in Page(rows, reach, after, limit)
    ensures
      var page := Page(rows, reach, after, limit);
      row.id <= page[|page| - 1].id
  {
    PageInOrder(rows, reach, after, limit);
  }

  /** One that it has not is left alone. */
  lemma RowStays(reach: Reach, rows: Rows, was: Rows, changes: map<Id, Json>, fn: Convert, after: Option<Id>,
                 limit: nat, i: nat, last: Row)
    requires limit > 0 && i < |was| && RewrittenUpTo(reach, rows, was, fn, after)
    requires ChangesOf(reach, Page(was, reach, after, limit), changes, fn)
    requires
      var page := Page(was, reach, after, limit);
      page != [] && last == page[|page| - 1] && last.id < was[i].id
    ensures Applied(rows[i], changes) == was[i]
  {
    var page := Page(was, reach, after, limit);
    PageStarts(was, reach, after, limit);
    assert last in page;
    assert Picks(reach, after, last);
    if was[i].id in changes {
      ChangedIsInPage(was, page, reach, changes, fn, i);
      LastOfPage(was, reach, after, limit, was[i]);
    }
    assert rows[i] == was[i];
  }

  lemma ShortPageRewritten(reach: Reach, rows: Rows, was: Rows, changes: map<Id, Json>, fn: Convert,
                           after: Option<Id>, limit: nat)
    requires limit > 0 && RewrittenUpTo(reach, rows, was, fn, after)
    requires ChangesOf(reach, Page(was, reach, after, limit), changes, fn)
    requires |Page(was, reach, after, limit)| < limit
    ensures Updated(rows, changes) == AllRewritten(reach, was, fn)
  {
    forall i | 0 <= i < |was| ensures Applied(rows[i], changes) == Rewritten(reach, was[i], fn) {
      RowComesUp(reach, rows, was, changes, fn, after, limit, i);
    }
  }

  lemma FullPageRewritten(reach: Reach, rows: Rows, was: Rows, changes: map<Id, Json>, fn: Convert,
                          after: Option<Id>, limit: nat, last: Row)
    requires limit > 0 && RewrittenUpTo(reach, rows, was, fn, after)
    requires ChangesOf(reach, Page(was, reach, after, limit), changes, fn)
    requires
      var page := Page(was, reach, after, limit);
      |page| == limit && last == page[|page| - 1]
    ensures RewrittenUpTo(reach, Updated(rows, changes), was, fn, Some(last.id))
  {
    PageStarts(was, reach, after, limit);
    assert last in Page(was, reach, after, limit);
    forall i | 0 <= i < |was|
      ensures Applied(rows[i], changes) == if was[i].id <= last.id then Rewritten(reach, was[i], fn) else was[i]
    {
      if was[i].id <= last.id {
        RowComesUp(reach, rows, was, changes, fn, after, limit, i);
      } else {
        RowStays(reach, rows, was, changes, fn, after, limit, i, last);
      }
    }
  }

  // ----- the rewriting of a column

  /** Between pages: up to `after` rewritten, and the selected rows up to it seen. */
  ghost predicate Underway(reach: Reach, rows: seq<Row>, was: Rows, fn: Convert, after: Option<Id>, seen: seq<Row>) {
    && RewrittenUpTo(reach, rows, was, fn, after)
    && seen + Picked(was, reach, after) == Picked(was, reach, None)
  }

  ghost predicate Finished(reach: Reach, rows: seq<Row>, was: Rows, fn: Convert, seen: seq<Row>) {
    rows == AllRewritten(reach, was, fn) && seen == Picked(was, reach, None)
  }

  /** The page read from the table as it is now is the one the old table would give. */
  lemma NextPage(reach: Reach, rows: Rows, was: Rows, fn: Convert, after: Option<Id>, limit: nat, seen: seq<Row>)
    requires limit > 0 && Underway(reach, rows, was, fn, after, seen)
    ensures
      var page := Page(rows, reach, after, limit);
      && page == Page(was, reach, after, limit) && InOrder(page) && |page| <= limit
      && (forall row :: row in page ==> row.value.Some?)
      && (forall row :: row in page ==> row in Picked(was, reach, None))
      && |seen| + |page| <= |Picked(was, reach, None)|
  {
    SamePage(reach, rows, was, fn, after, limit);
    PageStarts(was, reach, after, limit);
    PageInOrder(was, reach, after, limit);
    PageSplits(was, reach, after, limit);
    forall row | row in Page(was, reach, after, limit) ensures row.value.Some? && row in Picked(was, reach, None) {
      SelectedIsThere(reach, row.value);
      PickedIff(was, reach, None, row);
    }
  }

  lemma SelectedIsThere(reach: Reach, v: Option<Json>)
    requires Selected(reach, v)
    ensures v.Some?
  {
  }

  lemma PageDone(reach: Reach, rows: Rows, was: Rows, changes: map<Id, Json>, fn: Convert, after: Option<Id>,
                 limit: nat, seen: seq<Row>)
    requires limit > 0 && Underway(reach, rows, was, fn, after, seen)
    requires ChangesOf(reach, Page(was, reach, after, limit), changes, fn)
    ensures
      var page, now := Page(was, reach, after, limit), Updated(rows, changes);
      if |page| < limit then Finished(reach, now, was, fn, seen + page)
      else page != [] && Underway(reach, now, was, fn, Some(page[|page| - 1].id), seen + page)
  {
    var page := Page(was, reach, after, limit);
    PageStarts(was, reach, after, limit);
    PageSplits(was, reach, after, limit);
    if |page| < limit {
      ShortPageRewritten(reach, rows, was, changes, fn, after, limit);
    } else {
      FullPageRewritten(reach, rows, was, changes, fn, after, limit, page[|page| - 1]);
      Associates(seen, page, Picked(was, reach, Some(page[|page| - 1].id)));
    }
  }

  /** Some row holds a secret that cannot be converted. */
  ghost predicate Fails(reach: Reach, rows: seq<Row>, fn: Try) {
    exists row :: row in rows && Raises(reach, row, fn)
  }

  /** Where the rewriting is: still reading pages, or done. */
  ghost predicate At(reach: Reach, rows: seq<Row>, was: Rows, fn: Try, after: Option<Id>, full: bool, seen: seq<Row>) {
    && (if full then Underway(reach, rows, was, Total(fn), after, seen) else Finished(reach, rows, was, Total(fn), seen))
    && !Fails(reach, seen, fn) && |seen| <= |Picked(was, reach, None)|
  }

  lemma OnePageRewritten(reach: Reach, rows: Rows, was: Rows, changes: map<Id, Json>, fn: Try, after: Option<Id>,
                         limit: nat, seen: seq<Row>)
    requires limit > 0 && At(reach, rows, was, fn, after, true, seen)
    requires
      var page := Page(rows, reach, after, limit);
      ChangesOf(reach, page, changes, Total(fn)) && NoneRaises(reach, page, fn, |page|)
    ensures
      var page := Page(rows, reach, after, limit);
      && At(reach, Updated(rows, changes), was, fn, Next(page, limit, after), |page| == limit, seen + page)
      && (|page| == limit ==> page != [])
  {
    NextPage(reach, rows, was, Total(fn), after, limit, seen);
    PageDone(reach, rows, was, changes, Total(fn), after, limit, seen);
    NoneFailsMore(reach, seen, Page(rows, reach, after, limit), fn);
  }

  lemma NoneFailsMore(reach: Reach, seen: seq<Row>, page: seq<Row>, fn: Try)
    requires !Fails(reach, seen, fn) && NoneRaises(reach, page, fn, |page|)
    ensures !Fails(reach, seen + page, fn)
  {
  }

  function Next(page: seq<Row>, limit: nat, after: Option<Id>): Option<Id> {
    if |page| == limit > 0 then Some(page[|page| - 1].id) else after
  }

  lemma RaisingPage(reach: Reach, rows: Rows, was: Rows, fn: Try, after: Option<Id>, limit: nat, seen: seq<Row>)
    requires limit > 0 && At(reach, rows, was, fn, after, true, seen)
    ensures
      var page := Page(rows, reach, after, limit);
      && InOrder(page) && (forall j :: 0 <= j < |page| ==> page[j].value.Some?)
      && (!NoneRaises(reach, page, fn, |page|) ==> Fails(reach, Picked(was, reach, None), fn))
  {
    NextPage(reach, rows, was, Total(fn), after, limit, seen);
    var page := Page(rows, reach, after, limit);
    forall j | 0 <= j < |page| ensures page[j].value.Some? && page[j] in Picked(was, reach, None) {
      assert page[j] in page;
    }
  }

  /** `_rewrite` of one column, `_pages` within it: the rows are read a page at a time,
      by id, and the ones that change are updated before the next page is read. */
  method Rewrite(reach: Reach, was: Rows, fn: Try, limit: nat) returns (rows: Rows, ok: bool, ghost seen: seq<Row>)
    requires limit > 0
    ensures ok <==> !Fails(reach, Picked(was, reach, None), fn)
    ensures ok ==> Finished(reach, rows, was, Total(fn), seen)
  {
    rows, ok, seen := was, true, [];
    var after: Option<Id> := None;
    var full := true;
    while full
      invariant ok && At(reach, rows, was, fn, after, full, seen)
      decreases full, |Picked(was, reach, None)| - |seen|
    {
      RaisingPage(reach, rows, was, fn, after, limit, seen);
      var page := Page(rows, reach, after, limit);
      var changes;
      changes, ok := Changes(reach, page, fn);
      if !ok {
        return;
      }
      OnePageRewritten(reach, rows, was, changes, fn, after, limit, seen);
      rows, seen, full, after := Updated(rows, changes), seen + page, |page| == limit, Next(page, limit, after);
    }
  }
}
