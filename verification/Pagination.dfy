/**
 Keyset pagination of a user's instructions: rows outside projects in (updated_at, id) order,
 either way, from a cursor row on, at most `limit` at a time. The order of the rows in the
 table is arbitrary; the query sorts.
 */
module Pagination {
  import opened Options
  import opened Instructions

  datatype Order = Ascending | Descending

  predicate KeyLess(a: Row, b: Row) {
    a.updatedAt < b.updatedAt || (a.updatedAt == b.updatedAt && a.id < b.id)
  }

  /** `a` comes strictly before `b` in the requested order. */
  predicate Before(order: Order, a: Row, b: Row) {
    if order == Descending then KeyLess(b, a) else KeyLess(a, b)
  }

  predicate Listed(row: Row, user: nat) {
    row.user == user && row.project.None?
  }

  /** The condition the cursor adds to the query. */
  predicate Past(order: Order, cursor: Option<Row>, row: Row) {
    cursor.Some? ==> Before(order, cursor.value, row)
  }

  // ---------- The query ----------

  function Where(rows: seq<Row>, user: nat, order: Order, cursor: Option<Row>): (r: seq<Row>) {
    if rows == [] then []
    else if Listed(rows[0], user) && Past(order, cursor, rows[0]) then [rows[0]] + Where(rows[1..], user, order, cursor)
    else Where(rows[1..], user, order, cursor)
  }

  function InsertSorted(row: Row, sorted: seq<Row>, order: Order): (r: seq<Row>) {
    if sorted == [] || Before(order, row, sorted[0]) then [row] + sorted
    else [sorted[0]] + InsertSorted(row, sorted[1..], order)
  }

  function OrderBy(rows: seq<Row>, order: Order): (r: seq<Row>) {
    if rows == [] then [] else InsertSorted(rows[0], OrderBy(rows[1..], order), order)
  }

  /** The cursor row: the user's row outside projects with this uuid, if there is one. */
  function CursorRow(rows: seq<Row>, user: nat, uuid: nat): (r: Option<Row>)
    ensures r.Some? ==> r.value in rows && Listed(r.value, user) && r.value.uuid == uuid
    ensures r.None? ==> forall i :: 0 <= i < |rows| ==> !(Listed(rows[i], user) && rows[i].uuid == uuid)
  {
    if rows == [] then None
    else if Listed(rows[0], user) && rows[0].uuid == uuid then Some(rows[0])
    else
      assert forall i :: 1 <= i < |rows| ==> rows[i] == rows[1..][i - 1];
      CursorRow(rows[1..], user, uuid)
  }

  function Cursor(rows: seq<Row>, user: nat, after: Option<nat>): (r: Option<Row>) {
    if after.Some? then CursorRow(rows, user, after.value) else None
  }

  /** All rows from the cursor on, in order. */
  function Listing(rows: seq<Row>, user: nat, order: Order, cursor: Option<Row>): (r: seq<Row>) {
    OrderBy(Where(rows, user, order, cursor), order)
  }

  function FirstRows(rows: seq<Row>, limit: nat): (r: seq<Row>) {
    if limit < |rows| then rows[..limit] else rows
  }

  /** One request. */
  function ListUserInstructions(rows: seq<Row>, user: nat, limit: nat, after: Option<nat>, order: Order): (r: seq<Row>)
    ensures |r| <= limit
  {
    FirstRows(Listing(rows, user, order, Cursor(rows, user, after)), limit)
  }

  // ---------- Sorting ----------

  ghost predicate InOrder(rows: seq<Row>, order: Order) {
    forall i, j :: 0 <= i < j < |rows| ==> Before(order, rows[i], rows[j])
  }

  ghost predicate DistinctIds(rows: seq<Row>) {
    forall i, j :: 0 <= i < j < |rows| ==> rows[i].id != rows[j].id
  }

  lemma {:induction false} InsertOrdered(row: Row, sorted: seq<Row>, order: Order)
    requires InOrder(sorted, order) && forall i :: 0 <= i < |sorted| ==> sorted[i].id != row.id
    ensures InOrder(InsertSorted(row, sorted, order), order)
    ensures forall x :: x in InsertSorted(row, sorted, order) <==> x == row || x in sorted
  {
    if sorted != [] && !Before(order, row, sorted[0]) {
      InsertOrdered(row, sorted[1..], order);
      var rest := InsertSorted(row, sorted[1..], order);
      forall x | x in rest
        ensures Before(order, sorted[0], x)
      {
        if x != row {
          var i :| 0 <= i < |sorted[1..]| && sorted[1..][i] == x;
          assert sorted[i + 1] == x;
        }
      }
    }
  }

  lemma {:induction false} OrderByOrdered(rows: seq<Row>, order: Order)
    requires DistinctIds(rows)
    ensures InOrder(OrderBy(rows, order), order)
    ensures forall x :: x in OrderBy(rows, order) <==> x in rows
  {
    if rows != [] {
      var rest := OrderBy(rows[1..], order);
      OrderByOrdered(rows[1..], order);
      forall i | 0 <= i < |rest|
        ensures rest[i].id != rows[0].id
      {
        assert rest[i] in rows[1..];
      }
      InsertOrdered(rows[0], rest, order);
    }
  }

  /** The rows of a list past a cursor, in the list's order. */
  function PastOf(rows: seq<Row>, order: Order, cursor: Row): (r: seq<Row>) {
    if rows == [] then []
    else if Before(order, cursor, rows[0]) then [rows[0]] + PastOf(rows[1..], order, cursor)
    else PastOf(rows[1..], order, cursor)
  }

  /** Inserting and then cutting at a cursor is cutting and then inserting. */
  lemma {:induction false} InsertCut(row: Row, sorted: seq<Row>, order: Order, cursor: Row)
    requires InOrder(sorted, order) && forall i :: 0 <= i < |sorted| ==> sorted[i].id != row.id
    ensures PastOf(InsertSorted(row, sorted, order), order, cursor) ==
            if Before(order, cursor, row) then InsertSorted(row, PastOf(sorted, order, cursor), order)
            else PastOf(sorted, order, cursor)
  {
    if sorted == [] {
      assert [row] + sorted == [row];
      assert [row][1..] == [];
    } else if Before(order, row, sorted[0]) {
      assert ([row] + sorted)[1..] == sorted;
      if Before(order, cursor, row) { PastHead(sorted, order, cursor); }
    } else {
      InsertCut(row, sorted[1..], order, cursor);
      var rest := InsertSorted(row, sorted[1..], order);
      assert ([sorted[0]] + rest)[1..] == rest;
      if Before(order, cursor, sorted[0]) {
        var cut := PastOf(sorted[1..], order, cursor);
        assert ([sorted[0]] + cut)[1..] == cut;
      }
    }
  }

  lemma PastHead(sorted: seq<Row>, order: Order, cursor: Row)
    requires sorted != [] && Before(order, cursor, sorted[0])
    ensures PastOf(sorted, order, cursor)[0] == sorted[0]
  {
  }

  lemma WhereMember(rows: seq<Row>, user: nat, order: Order, cursor: Option<Row>, x: Row)
    ensures x in Where(rows, user, order, cursor) <==> x in rows && Listed(x, user) && Past(order, cursor, x)
  {
    if rows != [] { assert rows == [rows[0]] + rows[1..]; }
  }

  lemma {:induction false} WhereDistinct(rows: seq<Row>, user: nat, order: Order, cursor: Option<Row>)
    requires DistinctIds(rows)
    ensures DistinctIds(Where(rows, user, order, cursor))
  {
    if rows != [] {
      var rest := Where(rows[1..], user, order, cursor);
      WhereDistinct(rows[1..], user, order, cursor);
      forall i | 0 <= i < |rest|
        ensures rest[i].id != rows[0].id
      {
        WhereMember(rows[1..], user, order, cursor, rest[i]);
      }
    }
  }

  lemma ListingStep(rows: seq<Row>, user: nat, order: Order, cursor: Option<Row>)
    requires rows != []
    ensures Listing(rows, user, order, cursor) ==
            if Listed(rows[0], user) && Past(order, cursor, rows[0])
            then InsertSorted(rows[0], Listing(rows[1..], user, order, cursor), order)
            else Listing(rows[1..], user, order, cursor)
  {
    var rest := Where(rows[1..], user, order, cursor);
    assert ([rows[0]] + rest)[1..] == rest;
  }

  /** A listing is in order, and holds exactly the user's rows outside projects past the cursor. */
  lemma ListingExact(rows: seq<Row>, user: nat, order: Order, cursor: Option<Row>)
    requires DistinctIds(rows)
    ensures InOrder(Listing(rows, user, order, cursor), order)
    ensures forall x :: x in Listing(rows, user, order, cursor) <==>
              x in rows && x.user == user && x.project.None? && Past(order, cursor, x)
  {
    WhereDistinct(rows, user, order, cursor);
    OrderByOrdered(Where(rows, user, order, cursor), order);
    forall x
      ensures x in Listing(rows, user, order, cursor) <==> x in rows && x.user == user && x.project.None? && Past(order, cursor, x)
    {
      WhereMember(rows, user, order, cursor, x);
    }
  }

  lemma HeadNotInRest(rows: seq<Row>, user: nat, order: Order)
    requires DistinctIds(rows) && rows != []
    ensures InOrder(Listing(rows[1..], user, order, None), order)
    ensures var rest := Listing(rows[1..], user, order, None);
            forall i :: 0 <= i < |rest| ==> rest[i].id != rows[0].id
  {
    ListingExact(rows[1..], user, order, None);
    var rest := Listing(rows[1..], user, order, None);
    forall i | 0 <= i < |rest|
      ensures rest[i].id != rows[0].id
    {
      assert rest[i] in rows[1..];
    }
  }

  /** Cutting before sorting is cutting after sorting. */
  lemma {:induction false} ListingCut(rows: seq<Row>, user: nat, order: Order, cursor: Row)
    requires DistinctIds(rows)
    ensures Listing(rows, user, order, Some(cursor)) == PastOf(Listing(rows, user, order, None), order, cursor)
  {
    if rows != [] {
      ListingCut(rows[1..], user, order, cursor);
      ListingStep(rows, user, order, None);
      ListingStep(rows, user, order, Some(cursor));
      HeadNotInRest(rows, user, order);
      InsertCut(rows[0], Listing(rows[1..], user, order, None), order, cursor);
    }
  }

  /** In an ordered list, the rows past row `k` are the rows after it. */
  lemma {:induction false} PastIsSuffix(rows: seq<Row>, order: Order, k: nat)
    requires InOrder(rows, order) && k < |rows|
    ensures PastOf(rows, order, rows[k]) == rows[k + 1..]
  {
    if k > 0 {
      PastIsSuffix(rows[1..], order, k - 1);
      assert rows[1..][k..] == rows[k + 1..];
    } else {
      AllPast(rows[1..], order, rows[0]);
    }
  }

  lemma {:induction false} AllPast(rows: seq<Row>, order: Order, cursor: Row)
    requires forall i :: 0 <= i < |rows| ==> Before(order, cursor, rows[i])
    ensures PastOf(rows, order, cursor) == rows
  {
    if rows != [] { AllPast(rows[1..], order, cursor); }
  }

  /** Up means by time, then by id; down is the same order backwards. */
  lemma OrderMeans(rows: seq<Row>, order: Order, i: nat, j: nat)
    requires InOrder(rows, order) && i < j < |rows|
    ensures order == Ascending ==> rows[i].updatedAt <= rows[j].updatedAt
    ensures order == Descending ==> rows[j].updatedAt <= rows[i].updatedAt
    ensures rows[i].updatedAt == rows[j].updatedAt ==> if order == Ascending then rows[i].id < rows[j].id else rows[j].id < rows[i].id
  {
    assert Before(order, rows[i], rows[j]);
  }

  // ---------- Following the pages ----------

  lemma CursorFound(rows: seq<Row>, user: nat, row: Row)
    requires DistinctRows(rows) && row in rows && Listed(row, user)
    ensures CursorRow(rows, user, row.uuid) == Some(row)
  {
    var found := CursorRow(rows, user, row.uuid);
    var i :| 0 <= i < |rows| && rows[i] == row;
    assert found.Some?;
    var j :| 0 <= j < |rows| && rows[j] == found.value;
    assert i == j;
  }

  /** After row `k` of the whole listing, the next page starts at row `k + 1`. */
  lemma NextPage(rows: seq<Row>, user: nat, order: Order, k: nat)
    requires DistinctRows(rows) && k < |Listing(rows, user, order, None)|
    ensures var all := Listing(rows, user, order, None);
            Listing(rows, user, order, Cursor(rows, user, Some(all[k].uuid))) == all[k + 1..]
  {
    var all := Listing(rows, user, order, None);
    ListingExact(rows, user, order, None);
    assert all[k] in rows && Listed(all[k], user);
    CursorFound(rows, user, all[k]);
    ListingCut(rows, user, order, all[k]);
    PastIsSuffix(all, order, k);
  }

  /** A cursor that is not one of the user's listed rows is ignored: the request restarts from
      the first page. */
  lemma UnknownCursorRestarts(rows: seq<Row>, user: nat, limit: nat, uuid: nat, order: Order)
    requires forall i :: 0 <= i < |rows| ==> !(Listed(rows[i], user) && rows[i].uuid == uuid)
    ensures ListUserInstructions(rows, user, limit, Some(uuid), order) == FirstRows(Listing(rows, user, order, None), limit)
  {
    assert CursorRow(rows, user, uuid).None?;
  }

  lemma SliceAt(all: seq<Row>, n: nat, limit: nat)
    requires n <= |all|
    ensures var page := FirstRows(all[n..], limit);
            n + |page| == (if n + limit < |all| then n + limit else |all|) && page == all[n..n + |page|]
  {
  }

  lemma PageAt(rows: seq<Row>, user: nat, limit: nat, after: Option<nat>, order: Order, n: nat, all: seq<Row>)
    requires DistinctRows(rows) && all == Listing(rows, user, order, None) && n <= |all|
    requires after == if n == 0 then None else Some(all[n - 1].uuid)
    ensures ListUserInstructions(rows, user, limit, after, order) == FirstRows(all[n..], limit)
  {
    if n > 0 {
      NextPage(rows, user, order, n - 1);
    } else {
      assert all[0..] == all;
    }
  }

  /** A client has seen the first rows of the listing and holds the page that follows them. */
  ghost predicate Progress(all: seq<Row>, seen: seq<Row>, page: seq<Row>) {
    && |seen| + |page| <= |all|
    && seen == all[..|seen|] && page == all[|seen|..|seen| + |page|]
    && (page == [] ==> |seen| == |all|)
  }

  lemma Glue(all: seq<Row>, seen: seq<Row>, page: seq<Row>)
    requires Progress(all, seen, page)
    ensures seen + page == all[..|seen| + |page|]
    ensures page != [] ==> page[|page| - 1] == all[|seen| + |page| - 1]
  {
  }

  lemma PageFollows(rows: seq<Row>, user: nat, limit: nat, order: Order, all: seq<Row>, seen: seq<Row>, page: seq<Row>)
    requires DistinctRows(rows) && all == Listing(rows, user, order, None) && 0 < limit
    requires Progress(all, seen, page) && page != []
    ensures Progress(all, seen + page, ListUserInstructions(rows, user, limit, Some(page[|page| - 1].uuid), order))
  {
    var n := |seen| + |page|;
    Glue(all, seen, page);
    PageAt(rows, user, limit, Some(page[|page| - 1].uuid), order, n, all);
    SliceAt(all, n, limit);
  }

  /** A client that asks for page after page, each from the last row of the one before, until a
      page comes back empty, sees every listed row of the user exactly once and in order. */
  method FollowPages(rows: seq<Row>, user: nat, limit: nat, order: Order) returns (seen: seq<Row>)
    requires DistinctRows(rows) && 0 < limit
    ensures seen == Listing(rows, user, order, None)
    ensures InOrder(seen, order)
    ensures forall x :: x in seen <==> x in rows && x.user == user && x.project.None?
  {
    ghost var all := Listing(rows, user, order, None);
    seen := [];
    var page := ListUserInstructions(rows, user, limit, None, order);
    PageAt(rows, user, limit, None, order, 0, all);
    SliceAt(all, 0, limit);
    while page != []
      invariant Progress(all, seen, page)
      decreases |all| - |seen|
    {
      PageFollows(rows, user, limit, order, all, seen, page);
      seen, page := seen + page, ListUserInstructions(rows, user, limit, Some(page[|page| - 1].uuid), order);
    }
    ListingExact(rows, user, order, None);
  }
}
