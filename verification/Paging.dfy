/** Keyset paging over `(created_at, id)`: over-fetch by one, continue strictly below the last row shown. */
module Paging {
  import opened Wrappers
  import opened Orders

  datatype Position = Position(at: int, id: nat)

  datatype Row = Row(key: Position, item: string)

  datatype Page<+C> = Page(items: seq<Row>, next: Option<C>)

  /** The row-value comparison `(created_at, id) < (at, id)`. */
  predicate Below(p: Position, q: Position) {
    p.at < q.at || (p.at == q.at && p.id < q.id)
  }

  /** `ORDER BY created_at DESC, id DESC`. */
  ghost predicate Newer(a: Row, b: Row) {
    Below(b.key, a.key)
  }

  /** `id` is a primary key. */
  ghost predicate Keyed(table: set<Row>) {
    forall a, b :: a in table && b in table && a.key.id == b.key.id ==> a == b
  }

  ghost function Under(table: set<Row>, after: Option<Position>): set<Row> {
    if after.None? then table else set r | r in table && Below(r.key, after.value)
  }

  ghost function Descending(table: set<Row>): (rows: seq<Row>)
    requires Keyed(table)
    ensures Lists(Newer, table, rows)
  {
    assert OrderOn(Newer, table);
    Listing(Newer, table)
  }

  ghost function ListPage(table: set<Row>, limit: nat, after: Option<Position>): seq<Row>
    requires Keyed(table)
  {
    var rows := Descending(Under(table, after));
    if |rows| <= limit then rows else rows[..limit]
  }

  /** The page cut from an over-fetch by one: a row beyond the limit is not shown, it only earns the page
      a next cursor. */
  function PageOf(rows: seq<Row>, limit: nat): Page<Position> {
    var visible := if |rows| <= limit then rows else rows[..limit];
    Page(visible, if |rows| > limit && |visible| > 0 then Some(visible[|visible| - 1].key) else None)
  }

  ghost function Fetch(table: set<Row>, limit: nat, after: Option<Position>): Page<Position>
    requires Keyed(table)
  {
    PageOf(ListPage(table, limit + 1, after), limit)
  }

  /** One request: the table as committed when it ran, and the page size it asked for. */
  datatype Request = Request(table: set<Row>, limit: nat)

  /** What the database allowed between fetches: anything but reusing an id or moving a row's timestamp. */
  ghost predicate Requests(requests: seq<Request>) {
    && (forall i :: 0 <= i < |requests| ==> Keyed(requests[i].table) && requests[i].limit >= 1)
    && (forall i, j, a, b :: 0 <= i < |requests| && 0 <= j < |requests| ==>
          a in requests[i].table && b in requests[j].table && a.key.id == b.key.id ==> a.key == b.key)
  }

  /** Every row a client is shown while it follows `next` from `after`. */
  ghost function Walk(requests: seq<Request>, after: Option<Position>): seq<Row>
    requires Requests(requests)
  {
    if requests == [] then [] else
    TailRequests(requests);
    var page := Fetch(requests[0].table, requests[0].limit, after);
    if page.next.None? then page.items else page.items + Walk(requests[1..], page.next)
  }

  /** How many of the requests the client makes before `next` is null. */
  ghost function Made(requests: seq<Request>, after: Option<Position>): (n: nat)
    requires Requests(requests)
    ensures n <= |requests|
  {
    if requests == [] then 0 else
    TailRequests(requests);
    var page := Fetch(requests[0].table, requests[0].limit, after);
    if page.next.None? then 1 else 1 + Made(requests[1..], page.next)
  }

  ghost predicate Finishes(requests: seq<Request>, after: Option<Position>)
    requires Requests(requests)
  {
    && requests != []
    && var page := Fetch(requests[0].table, requests[0].limit, after);
       page.next.None? || Finishes(requests[1..], page.next)
  }

  /** A page is the top of what lies below the cursor, and the cursor is its last row. */
  lemma FetchIsTop(table: set<Row>, limit: nat, after: Option<Position>)
    requires Keyed(table) && limit >= 1
    ensures var page := Fetch(table, limit, after);
            var rows := Descending(Under(table, after));
            && page.items <= rows
            && (page.next.None? ==> page.items == rows)
            && (page.next.Some? ==> |page.items| == limit < |rows| && page.next.value == page.items[limit - 1].key)
            && (page.next.Some? ==> forall r ::
                                      r in Under(table, after) <==> r in page.items || r in Under(table, page.next))
  {
    var page := Fetch(table, limit, after);
    var rows := Descending(Under(table, after));
    if page.next.Some? {
      forall r ensures r in Under(table, after) <==> r in page.items || r in Under(table, page.next) {
        CutAt(table, limit, after, rows, r);
      }
    }
  }

  /** Cutting the listing below its row number `limit` is cutting the table below that row's key. */
  lemma CutAt(table: set<Row>, limit: nat, after: Option<Position>, rows: seq<Row>, r: Row)
    requires Keyed(table) && 1 <= limit <= |rows| && rows == Descending(Under(table, after))
    ensures r in Under(table, after) <==> r in rows[..limit] || r in Under(table, Some(rows[limit - 1].key))
  {
    var last := rows[limit - 1];
    assert last in rows;
    if r in rows {
      var i :| 0 <= i < |rows| && rows[i] == r;
      if i >= limit {
        assert Newer(last, rows[i]);
      } else {
        assert rows[..limit][i] == r;
      }
    }
    if r in rows[..limit] {
      var i :| 0 <= i < limit && rows[..limit][i] == r;
      assert rows[i] == r;
    }
  }

  /** Of an earlier time, or of the same time and with a smaller id. */
  ghost predicate OlderThan(r: Row, at: int, id: nat) {
    r.key.at < at || (r.key.at == at && r.key.id < id)
  }

  /** The rows a request is to continue with: all of them, or those older than the cursor's row. */
  ghost predicate Continues(table: set<Row>, after: Option<Position>, r: Row) {
    r in table && (after.Some? ==> OlderThan(r, after.value.at, after.value.id))
  }

  ghost predicate NewestFirst(rows: seq<Row>) {
    forall i, j :: 0 <= i < j < |rows| ==> OlderThan(rows[j], rows[i].key.at, rows[i].key.id)
  }

  /** A page, row by row: the newest of the rows to continue with, as many as were asked for or else all of them, newest
      first, and a cursor at the last exactly when there are more. */
  lemma PageExactly(table: set<Row>, limit: nat, after: Option<Position>)
    requires Keyed(table)
    ensures var page := Fetch(table, limit, after);
      && NewestFirst(page.items) && |page.items| <= limit
      && (forall r :: r in page.items ==> Continues(table, after, r))
      && (|page.items| < limit ==> forall r :: Continues(table, after, r) ==> r in page.items)
      && (forall r, shown :: Continues(table, after, r) && r !in page.items && shown in page.items ==>
            OlderThan(r, shown.key.at, shown.key.id))
      && (page.next.Some? <==> limit > 0 && exists r :: Continues(table, after, r) && r !in page.items)
      && (page.next.Some? ==> page.items != [] && page.next.value == page.items[|page.items| - 1].key)
  {
    var page := Fetch(table, limit, after);
    var rows := Descending(Under(table, after));
    forall r ensures Continues(table, after, r) <==> r in rows {
    }
    forall i, j | 0 <= i < j < |rows| ensures OlderThan(rows[j], rows[i].key.at, rows[i].key.id) {
      assert Newer(rows[i], rows[j]);
    }
    PageIsFront(table, limit, after);
    hide Continues, OlderThan, Fetch, Descending;
    RestIsOlder(rows, |page.items|);
    if |page.items| < |rows| {
      NotInFront(rows, |page.items|);
    }
  }

  lemma PageIsFront(table: set<Row>, limit: nat, after: Option<Position>)
    requires Keyed(table)
    ensures var (page, rows) := (Fetch(table, limit, after), Descending(Under(table, after)));
      && page.items == rows[..if |rows| <= limit then |rows| else limit]
      && (page.next.Some? <==> |rows| > limit > 0)
      && (page.next.Some? ==> page.next.value == page.items[limit - 1].key)
  {
    hide Descending;
  }

  lemma RestIsOlder(rows: seq<Row>, n: nat)
    requires n <= |rows| && NewestFirst(rows)
    ensures NewestFirst(rows[..n])
    ensures forall r, shown :: r in rows && r !in rows[..n] && shown in rows[..n] ==>
              OlderThan(r, shown.key.at, shown.key.id)
  {
    hide OlderThan;
    forall k | 0 <= k < n ensures rows[k] in rows[..n] {
      assert rows[..n][k] == rows[k];
    }
    forall r, shown | r in rows && r !in rows[..n] && shown in rows[..n]
      ensures OlderThan(r, shown.key.at, shown.key.id) {
      var i :| 0 <= i < n && rows[..n][i] == shown;
      var j :| 0 <= j < |rows| && rows[j] == r;
    }
  }

  lemma NotInFront(rows: seq<Row>, n: nat)
    requires n < |rows| && NewestFirst(rows)
    ensures rows[n] in rows && rows[n] !in rows[..n]
  {
    forall i | 0 <= i < n ensures rows[..n][i] != rows[n] {
      assert OlderThan(rows[n], rows[i].key.at, rows[i].key.id);
    }
  }

  lemma {:induction false} WalkStaysBelow(requests: seq<Request>, after: Option<Position>)
    requires Requests(requests) && after.Some?
    ensures forall r :: r in Walk(requests, after) ==> Below(r.key, after.value)
  {
    hide Fetch, Descending, Keyed;
    if requests != [] {
      var page := Fetch(requests[0].table, requests[0].limit, after);
      FetchIsTop(requests[0].table, requests[0].limit, after);
      assert forall r :: r in page.items ==> r in Under(requests[0].table, after);
      if page.next.Some? {
        TailRequests(requests);
        WalkStaysBelow(requests[1..], page.next);
        assert page.items[|page.items| - 1] in page.items;
      }
    }
  }

  /** Rows arrive in strictly descending order, whatever happens to the table meanwhile. */
  lemma {:induction false} WalkDescends(requests: seq<Request>, after: Option<Position>)
    requires Requests(requests)
    ensures Strictly(Newer, Walk(requests, after)) && NewestFirst(Walk(requests, after))
  {
    hide Fetch;
    if requests != [] {
      var page := Fetch(requests[0].table, requests[0].limit, after);
      FetchIsTop(requests[0].table, requests[0].limit, after);
      if page.next.Some? {
        TailRequests(requests);
        WalkDescends(requests[1..], page.next);
        WalkStaysBelow(requests[1..], page.next);
        PageThenRest(page, Walk(requests[1..], page.next));
      }
    }
  }

  lemma PageThenRest(page: Page<Position>, rest: seq<Row>)
    requires Strictly(Newer, page.items) && Strictly(Newer, rest) && page.items != []
    requires page.next == Some(page.items[|page.items| - 1].key)
    requires forall r :: r in rest ==> Below(r.key, page.next.value)
    ensures Strictly(Newer, page.items + rest)
  {
    forall x, y | x in page.items && y in rest ensures Newer(x, y) {
      var i :| 0 <= i < |page.items| && page.items[i] == x;
      var last := page.items[|page.items| - 1];
      assert i < |page.items| - 1 ==> Newer(x, last);
    }
    Joined(Newer, page.items, rest);
  }

  lemma TailRequests(requests: seq<Request>)
    requires Requests(requests) && requests != []
    ensures Requests(requests[1..])
  {
  }

  lemma {:induction false} WalkComesFromTables(requests: seq<Request>, after: Option<Position>, r: Row)
    requires Requests(requests) && r in Walk(requests, after)
    ensures exists i :: 0 <= i < |requests| && r in requests[i].table
  {
    FetchIsTop(requests[0].table, requests[0].limit, after);
    var page := Fetch(requests[0].table, requests[0].limit, after);
    if r in page.items {
      assert r in requests[0].table;
    } else {
      TailRequests(requests);
      WalkComesFromTables(requests[1..], page.next, r);
      var i :| 0 <= i < |requests| - 1 && r in requests[1..][i].table;
      assert requests[i + 1] == requests[1..][i];
    }
  }

  /** No row is shown twice, whatever is inserted or deleted between the fetches. */
  lemma WalkNeverRepeats(requests: seq<Request>, i: nat, j: nat)
    requires Requests(requests) && i < j < |Walk(requests, None)|
    ensures Walk(requests, None)[i].key.id != Walk(requests, None)[j].key.id
  {
    var walk := Walk(requests, None);
    WalkDescends(requests, None);
    assert Newer(walk[i], walk[j]);
    WalkComesFromTables(requests, None, walk[i]);
    WalkComesFromTables(requests, None, walk[j]);
  }

  /** The row is in the table, whatever it holds at the moment. */
  ghost predicate HasRow(table: set<Row>, key: Position) {
    exists r :: r in table && r.key == key
  }

  ghost predicate Shows(rows: seq<Row>, key: Position) {
    exists r :: r in rows && r.key == key
  }

  /** A row that is there at every fetch the client makes is shown, changed or not in the meantime, and by
      WalkNeverRepeats only once. */
  lemma {:induction false} WalkMissesNothing(requests: seq<Request>, after: Option<Position>, key: Position)
    requires Requests(requests) && Finishes(requests, after)
    requires forall i :: 0 <= i < Made(requests, after) ==> HasRow(requests[i].table, key)
    requires after.Some? ==> Below(key, after.value)
    ensures Shows(Walk(requests, after), key)
  {
    FetchIsTop(requests[0].table, requests[0].limit, after);
    var page := Fetch(requests[0].table, requests[0].limit, after);
    assert HasRow(requests[0].table, key);
    var r :| r in requests[0].table && r.key == key;
    assert r in Under(requests[0].table, after);
    if r in page.items {
      assert r in Walk(requests, after);
    } else {
      TailRequests(requests);
      assert Below(key, page.next.value);
      forall i | 0 <= i < Made(requests[1..], page.next) ensures HasRow(requests[1..][i].table, key) {
        assert requests[1..][i] == requests[i + 1];
      }
      WalkMissesNothing(requests[1..], page.next, key);
      var shown :| shown in Walk(requests[1..], page.next) && shown.key == key;
      assert shown in Walk(requests, after);
    }
  }

  /** The measure: each page leaves strictly fewer rows below the next cursor. */
  lemma RowsBelowCursorShrink(table: set<Row>, limit: nat, after: Option<Position>)
    requires Keyed(table) && limit >= 1 && Fetch(table, limit, after).next.Some?
    ensures |Under(table, Fetch(table, limit, after).next)| < |Under(table, after)|
  {
    FetchIsTop(table, limit, after);
    var page := Fetch(table, limit, after);
    var last := page.items[limit - 1];
    assert last in Under(table, after) && last !in Under(table, page.next);
    StrictSubset(Under(table, page.next), Under(table, after));
  }

  lemma {:induction false} StrictSubset<T>(a: set<T>, b: set<T>)
    requires a < b
    ensures |a| < |b|
    decreases b
  {
    var x :| x in b && x !in a;
    if a != b - {x} {
      StrictSubset(a, b - {x});
    }
  }

  /** On a table nobody changes, enough requests reach the null cursor and the pages are the sorted table. */
  lemma {:induction false} FixedTableWalk(requests: seq<Request>, table: set<Row>, after: Option<Position>)
    requires Requests(requests) && forall i :: 0 <= i < |requests| ==> requests[i].table == table
    requires |requests| > |Under(table, after)| && Keyed(table)
    ensures Finishes(requests, after)
    ensures Walk(requests, after) == Descending(Under(table, after))
    decreases |requests|
  {
    FetchIsTop(table, requests[0].limit, after);
    var page := Fetch(table, requests[0].limit, after);
    if page.next.Some? {
      RowsBelowCursorShrink(table, requests[0].limit, after);
      TailRequests(requests);
      FixedTableWalk(requests[1..], table, page.next);
      WalkDescends(requests, after);
      OnlyListing(table, after, Walk(requests, after));
    }
  }

  lemma OnlyListing(table: set<Row>, after: Option<Position>, rows: seq<Row>)
    requires Keyed(table) && Strictly(Newer, rows)
    requires forall r :: r in rows <==> r in Under(table, after)
    ensures rows == Descending(Under(table, after))
  {
    ListingUnique(Newer, Under(table, after), rows, Descending(Under(table, after)));
  }
}
