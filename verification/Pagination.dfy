/** Following a time-ordered list page by page. */
module Pagination {
  import opened Outcomes
  import opened Amounts
  import opened Texts
  import Cursors

  /** A row's sort key: creation time in microseconds, as the database stores it, and its id. */
  datatype Row = Row(at: int, id: nat)

  /** How ids are written into cursors and read back. */
  datatype Ids = Ids(show: nat -> Text, scan: Text -> Option<nat>)

  ghost predicate Faithful(ids: Ids) {
    forall i: nat :: ids.show(i) != [] && ids.scan(ids.show(i)) == Some(i)
  }

  predicate Before(a: Row, b: Row) {
    a.at < b.at || (a.at == b.at && a.id < b.id)
  }

  /*********************** The query ***********************/

  ghost predicate IsNewest(r: Row, rows: set<Row>) {
    r in rows && forall s | s in rows && s != r :: Before(s, r)
  }

  lemma {:induction false} NewestExists(rows: set<Row>)
    requires rows != {}
    ensures exists r :: IsNewest(r, rows)
    decreases |rows|
  {
    var x :| x in rows;
    var rest := rows - {x};
    if rest == {} {
      forall s | s in rows
        ensures s == x
      {
        assert s !in rest;
      }
      assert IsNewest(x, rows);
    } else {
      NewestExists(rest);
      var y :| IsNewest(y, rest);
      var r := if Before(x, y) then y else x;
      forall s | s in rows && s != r
        ensures Before(s, r)
      {
        assert s == x || s in rest;
      }
      assert IsNewest(r, rows);
    }
  }

  /** The rows in descending order of (created_at, id). */
  ghost function Listing(rows: set<Row>): seq<Row>
    decreases |rows|
  {
    if rows == {} then []
    else
      NewestExists(rows);
      var r :| IsNewest(r, rows);
      [r] + Listing(rows - {r})
  }

  ghost predicate Descending(s: seq<Row>) {
    forall i, j | 0 <= i < j < |s| :: Before(s[j], s[i])
  }

  /** What descends the cursor, or everything. */
  ghost function Below(table: set<Row>, cursor: Option<Row>): set<Row> {
    set r | r in table && (cursor.None? || Before(r, cursor.value))
  }

  function Take<T>(s: seq<T>, n: nat): (r: seq<T>)
    ensures r <= s && |r| == if n <= |s| then n else |s|
    ensures n >= |s| ==> r == s
  {
    if n <= |s| then s[..n] else s
  }

  ghost function Query(table: set<Row>, cursor: Option<Row>, n: nat): seq<Row> {
    Take(Listing(Below(table, cursor)), n)
  }

  /** The listing is the rows, each once, newest first. */
  lemma {:induction false} ListingIsSorted(rows: set<Row>)
    ensures Descending(Listing(rows)) && |Listing(rows)| == |rows|
    ensures forall r :: r in Listing(rows) <==> r in rows
    decreases |rows|
  {
    if rows != {} {
      var l := Listing(rows);
      var rest := rows - {l[0]};
      assert IsNewest(l[0], rows) && l == [l[0]] + Listing(rest);
      ListingIsSorted(rest);
      forall i, j | 0 <= i < j < |l|
        ensures Before(l[j], l[i])
      {
        assert l[j] == Listing(rest)[j - 1] && l[j] in rest;
      }
    }
  }

  /** Newest first means by creation time, and by descending id within one instant. */
  lemma ListingOrder(rows: set<Row>, i: nat, j: nat)
    requires i < j < |Listing(rows)|
    ensures var a, b := Listing(rows)[i], Listing(rows)[j]; a.at > b.at || (a.at == b.at && a.id > b.id)
  {
    ListingIsSorted(rows);
  }

  /** It is the only such sequence. */
  lemma {:induction false} ListingUnique(s: seq<Row>, rows: set<Row>)
    requires Descending(s) && forall r :: r in s <==> r in rows
    ensures s == Listing(rows)
    decreases |rows|
  {
    if s == [] {
      assert rows == {};
    } else {
      var l := Listing(rows);
      assert s[0] in rows;
      assert IsNewest(l[0], rows) && l == [l[0]] + Listing(rows - {l[0]});
      assert l[0] in s;
      assert s[0] == l[0];
      forall r
        ensures r in s[1..] <==> r in rows - {s[0]}
      {
        if r in s[1..] {
          var k :| 0 <= k < |s[1..]| && s[1..][k] == r;
          assert s[k + 1] == r && Before(s[k + 1], s[0]);
        }
      }
      ListingUnique(s[1..], rows - {s[0]});
    }
  }

  /** Seeking below the k-th row drops exactly the first k. */
  lemma SeekDrops(rows: set<Row>, k: nat)
    requires 1 <= k <= |Listing(rows)|
    ensures Listing(Below(rows, Some(Listing(rows)[k - 1]))) == Listing(rows)[k..]
  {
    var l := Listing(rows);
    ListingIsSorted(rows);
    forall r
      ensures r in l[k..] <==> r in Below(rows, Some(l[k - 1]))
    {
      AfterIsBelow(l, k, r);
    }
    ListingUnique(l[k..], Below(rows, Some(l[k - 1])));
  }

  lemma AfterIsBelow(l: seq<Row>, k: nat, r: Row)
    requires Descending(l) && 1 <= k <= |l|
    ensures r in l[k..] <==> r in l && Before(r, l[k - 1])
  {
    if r in l[k..] {
      var i :| 0 <= i < |l[k..]| && l[k..][i] == r;
      assert l[k + i] == r;
    }
    if r in l && Before(r, l[k - 1]) {
      var i :| 0 <= i < |l| && l[i] == r;
      assert i >= k;
      assert l[k..][i - k] == r;
    }
  }

  /*********************** One request ***********************/

  datatype Page = Page(cursor: Option<Row>, limit: int)

  /** What stays the same over a visit: the id codec, the limit the client asks for, and the
      endpoint's default and greatest page. */
  datatype Visit = Visit(ids: Ids, limit: Option<int>, def: int, max: int)

  ghost predicate Proper(v: Visit) {
    Faithful(v.ids) && 1 <= v.def && 1 <= v.max
  }

  function PageSize(v: Visit): int {
    Cursors.Clamp(if v.limit.Some? then v.limit.value else 0, v.def, v.max)
  }

  /** Reads the query parameters of a list request. */
  function Parse(v: Visit, cursor: Option<Text>): Result<Page, Cursors.Invalid> {
    if cursor.None? || cursor.value == [] then Ok(Page(None, PageSize(v)))
    else
      var decoded := Cursors.Decode(cursor.value);
      if decoded.Err? then Err(Cursors.Invalid)
      else
        var id := v.ids.scan(decoded.value.1);
        if id.None? then Err(Cursors.Invalid)
        else Ok(Page(Some(Row(Cursors.UnixMicro(decoded.value.0), id.value)), PageSize(v)))
  }

  function CursorOf(ids: Ids, r: Row): Text {
    Cursors.Encode(r.at * 1000, ids.show(r.id))
  }

  /** The cursor in hand, as a text and as the row it stands for. */
  ghost predicate Stands(ids: Ids, cursor: Option<Text>, at: Option<Row>) {
    if at.None? then cursor.None? else IsInt64(at.value.at) && cursor == Some(CursorOf(ids, at.value))
  }

  datatype Listed = Listed(items: seq<Row>, next: Option<Text>)

  /** Probes for one row more than the page and trims: the page, and its last row when there is
      more. */
  ghost function Select(table: set<Row>, at: Option<Row>, limit: nat): (seq<Row>, Option<Row>) {
    var (kept, more) := Cursors.Trim(Query(table, at, limit + 1), limit);
    (kept, if more && kept != [] then Some(kept[|kept| - 1]) else None)
  }

  function NextCursor(ids: Ids, last: Option<Row>): (next: Option<Text>)
    ensures last.Some? <==> next.Some?
    ensures last.Some? && IsInt64(last.value.at) ==> Stands(ids, next, last)
  {
    if last.Some? then Some(CursorOf(ids, last.value)) else None
  }

  /** One list request: parse, select, and mint the next cursor. */
  ghost function Serve(v: Visit, table: set<Row>, cursor: Option<Text>): Result<Listed, Cursors.Invalid>
    requires Proper(v)
  {
    var page := Parse(v, cursor);
    if page.Err? then Err(Cursors.Invalid)
    else
      var (items, last) := Select(table, page.value.cursor, page.value.limit);
      Ok(Listed(items, NextCursor(v.ids, last)))
  }

  /** A minted cursor parses back to its row. */
  lemma CursorParses(v: Visit, cursor: Option<Text>, at: Option<Row>)
    requires Proper(v) && Stands(v.ids, cursor, at)
    ensures Parse(v, cursor) == Ok(Page(at, PageSize(v)))
  {
    if at.Some? {
      var id := v.ids.show(at.value.id);
      assert id != [] && v.ids.scan(id) == Some(at.value.id);
      Cursors.MicrosecondsSurvive(at.value.at, id);
      DecodedParses(v, cursor.value, at.value, at.value.at * 1000, id);
    }
  }

  lemma DecodedParses(v: Visit, text: Text, at: Row, nanos: int, id: Text)
    requires text != [] && Cursors.Decode(text) == Ok((nanos, id)) && nanos == at.at * 1000 && v.ids.scan(id) == Some(at.id)
    ensures Parse(v, Some(text)) == Ok(Page(Some(at), PageSize(v)))
  {
    assert Cursors.UnixMicro(nanos) == at.at;
  }

  /** The probe decides exactly whether there is more. */
  lemma SelectIsPage(table: set<Row>, at: Option<Row>, n: nat)
    requires n >= 1
    ensures var all := Listing(Below(table, at));
            Select(table, at, n) == (Take(all, n), if |all| > n then Some(all[n - 1]) else None)
  {
    var all := Listing(Below(table, at));
    assert |all| > n ==> Take(all, n + 1)[..n] == all[..n];
  }

  /*********************** Whole visits ***********************/

  /** A client that follows cursors to the end, the table being tables[k] at its k-th request:
      what it has seen, and whether it reached the end. */
  ghost function Follow(v: Visit, tables: seq<set<Row>>, cursor: Option<Text>): Result<(seq<Row>, bool), Cursors.Invalid>
    requires Proper(v)
  {
    if tables == [] then Ok(([], false))
    else
      var answer := Serve(v, tables[0], cursor);
      if answer.Err? then Err(Cursors.Invalid)
      else if answer.value.next.None? then Ok((answer.value.items, true))
      else
        var rest := Follow(v, tables[1..], answer.value.next);
        if rest.Err? then rest else Ok((answer.value.items + rest.value.0, rest.value.1))
  }

  /** The same with the row itself in place of its cursor. */
  ghost function Walk(tables: seq<set<Row>>, at: Option<Row>, n: nat): (seq<Row>, bool)
    requires n >= 1
  {
    if tables == [] then ([], false)
    else
      var all := Listing(Below(tables[0], at));
      if |all| <= n then (all, true)
      else
        var rest := Walk(tables[1..], Some(all[n - 1]), n);
        (all[..n] + rest.0, rest.1)
  }

  ghost predicate Stored(tables: seq<set<Row>>) {
    forall k, r | 0 <= k < |tables| && r in tables[k] :: IsInt64(r.at)
  }

  lemma FollowOnce(v: Visit, tables: seq<set<Row>>, cursor: Option<Text>, items: seq<Row>, next: Option<Text>, rest: (seq<Row>, bool))
    requires Proper(v) && tables != [] && Serve(v, tables[0], cursor) == Ok(Listed(items, next))
    requires next.Some? ==> Follow(v, tables[1..], next) == Ok(rest)
    ensures Follow(v, tables, cursor) == Ok(if next.None? then (items, true) else (items + rest.0, rest.1))
  {
  }

  lemma WalkOnce(tables: seq<set<Row>>, at: Option<Row>, n: nat)
    requires tables != [] && n >= 1
    ensures var (items, last) := Select(tables[0], at, n);
            Walk(tables, at, n)
            == if last.None? then (items, true) else (items + Walk(tables[1..], last, n).0, Walk(tables[1..], last, n).1)
  {
    SelectIsPage(tables[0], at, n);
  }

  lemma FollowStep(v: Visit, tables: seq<set<Row>>, cursor: Option<Text>, at: Option<Row>, next: Option<Text>)
    requires Proper(v) && tables != []
    requires var (items, last) := Select(tables[0], at, PageSize(v));
             && Serve(v, tables[0], cursor) == Ok(Listed(items, next))
             && (if last.Some? then next.Some? && Follow(v, tables[1..], next) == Ok(Walk(tables[1..], last, PageSize(v)))
                 else next.None?)
    ensures Follow(v, tables, cursor) == Ok(Walk(tables, at, PageSize(v)))
  {
    var (items, last) := Select(tables[0], at, PageSize(v));
    WalkOnce(tables, at, PageSize(v));
    FollowOnce(v, tables, cursor, items, next, if last.Some? then Walk(tables[1..], last, PageSize(v)) else ([], true));
  }

  /** Cursors neither fail nor lose anything. */
  lemma {:induction false} FollowIsWalk(v: Visit, tables: seq<set<Row>>, cursor: Option<Text>, at: Option<Row>)
    requires Proper(v) && Stored(tables) && Stands(v.ids, cursor, at)
    ensures Follow(v, tables, cursor) == Ok(Walk(tables, at, PageSize(v)))
    decreases |tables|
  {
    if tables != [] {
      var n := PageSize(v);
      var last := Select(tables[0], at, n).1;
      var next := NextCursor(v.ids, last);
      CursorParses(v, cursor, at);
      SelectIsPage(tables[0], at, n);
      if last.Some? {
        ListedIsStored(tables[0], at, n - 1);
        FollowIsWalk(v, tables[1..], next, last);
      }
      FollowStep(v, tables, cursor, at, next);
    }
  }

  lemma ListedIsStored(table: set<Row>, at: Option<Row>, k: nat)
    requires k < |Listing(Below(table, at))|
    ensures Listing(Below(table, at))[k] in table
  {
    ListingIsSorted(Below(table, at));
    assert Listing(Below(table, at))[k] in Listing(Below(table, at));
  }

  lemma DescendingJoins(a: seq<Row>, b: seq<Row>)
    requires Descending(a) && Descending(b) && a != [] && forall r | r in b :: Before(r, a[|a| - 1])
    ensures Descending(a + b)
  {
    forall i, j | 0 <= i < j < |a + b|
      ensures Before((a + b)[j], (a + b)[i])
    {
      if i < |a| <= j {
        assert (a + b)[j] in b;
        assert i == |a| - 1 || Before(a[|a| - 1], a[i]);
      }
    }
  }

  ghost predicate AlwaysBelow(tables: seq<set<Row>>, at: Option<Row>, r: Row) {
    forall k | 0 <= k < |tables| :: r in Below(tables[k], at)
  }

  /** A row that stays is on this page or still ahead. */
  lemma SeenOrAhead(tables: seq<set<Row>>, at: Option<Row>, n: nat, r: Row)
    requires tables != [] && 1 <= n < |Listing(Below(tables[0], at))| && AlwaysBelow(tables, at, r)
    ensures var all := Listing(Below(tables[0], at));
            r in all[..n] || AlwaysBelow(tables[1..], Some(all[n - 1]), r)
  {
    var all := Listing(Below(tables[0], at));
    ListingIsSorted(Below(tables[0], at));
    assert r in Below(tables[0], at);
    var i :| 0 <= i < |all| && all[i] == r;
    if i < n {
      assert all[..n][i] == r;
    } else {
      forall k | 0 <= k < |tables[1..]|
        ensures r in Below(tables[1..][k], Some(all[n - 1]))
      {
        assert r in Below(tables[k + 1], at);
      }
    }
  }

  lemma {:induction false} WalkSeesAll(tables: seq<set<Row>>, at: Option<Row>, n: nat, r: Row)
    requires n >= 1 && Walk(tables, at, n).1 && AlwaysBelow(tables, at, r)
    ensures r in Walk(tables, at, n).0
    decreases |tables|
  {
    var all := Listing(Below(tables[0], at));
    ListingIsSorted(Below(tables[0], at));
    assert r in Below(tables[0], at);
    if |all| > n {
      SeenOrAhead(tables, at, n, r);
      if r !in all[..n] {
        WalkSeesAll(tables[1..], Some(all[n - 1]), n, r);
      }
    }
  }

  lemma {:induction false} WalkDescends(tables: seq<set<Row>>, at: Option<Row>, n: nat)
    requires n >= 1
    ensures Descending(Walk(tables, at, n).0)
    ensures at.Some? ==> forall r | r in Walk(tables, at, n).0 :: Before(r, at.value)
    decreases |tables|
  {
    if tables != [] {
      var all := Listing(Below(tables[0], at));
      ListingIsSorted(Below(tables[0], at));
      if |all| > n {
        assert all[n - 1] in all;
        WalkDescends(tables[1..], Some(all[n - 1]), n);
        DescendingJoins(all[..n], Walk(tables[1..], Some(all[n - 1]), n).0);
        assert forall r | r in all[..n] :: r in all;
      }
    }
  }

  /** Rows may come and go between requests, anywhere. No request fails, no row is seen twice, the
      order holds across pages, and a client that reaches the end has seen every row that was
      there all along. */
  lemma NothingTwiceNothingMissed(v: Visit, tables: seq<set<Row>>)
    requires Proper(v) && Stored(tables)
    ensures var f := Follow(v, tables, None);
            && f.Ok? && Descending(f.value.0)
            && (f.value.1 ==> forall r | (forall k | 0 <= k < |tables| :: r in tables[k]) :: r in f.value.0)
  {
    var n := PageSize(v);
    FollowIsWalk(v, tables, None, None);
    WalkDescends(tables, None, n);
    if Walk(tables, None, n).1 {
      forall r | (forall k | 0 <= k < |tables| :: r in tables[k])
        ensures r in Walk(tables, None, n).0
      {
        WalkSeesAll(tables, None, n, r);
      }
    }
  }

  /** The first table, to which only newer rows have been added. */
  ghost predicate Grown(first: set<Row>, table: set<Row>) {
    first <= table && forall r, s | r in table - first && s in first :: Before(s, r)
  }

  lemma NewerAreNotBelow(first: set<Row>, table: set<Row>, c: Row)
    requires Grown(first, table) && c in first
    ensures Below(table, Some(c)) == Below(first, Some(c))
  {
    assert forall r | r in table - first :: !Before(r, c);
  }

  lemma SeekAgain(first: set<Row>, at: Option<Row>, n: nat)
    requires 1 <= n <= |Listing(Below(first, at))|
    ensures var all := Listing(Below(first, at));
            all[n - 1] in first && Listing(Below(first, Some(all[n - 1]))) == all[n..]
  {
    var rows := Below(first, at);
    var last := Listing(rows)[n - 1];
    SeekDrops(rows, n);
    ListingIsSorted(rows);
    assert last in Listing(rows);
    assert last in rows;
    assert Below(rows, Some(last)) == Below(first, Some(last));
  }

  /** How many rows k pages of n hold. */
  ghost function Room(k: nat, n: nat): nat {
    if k == 0 then 0 else n + Room(k - 1, n)
  }

  lemma {:induction false} RoomIsProduct(k: nat, n: nat)
    ensures Room(k, n) == k * n
  {
    if k > 0 {
      RoomIsProduct(k - 1, n);
      assert (k - 1) * n == k * n - n;
    }
  }

  lemma TakeMore(s: seq<Row>, n: nat, m: nat)
    requires n <= |s|
    ensures s[..n] + Take(s[n..], m) == Take(s, n + m)
  {
  }

  lemma {:induction false} WalkIsExact(first: set<Row>, tables: seq<set<Row>>, at: Option<Row>, n: nat)
    requires n >= 1 && forall k | 0 <= k < |tables| :: Grown(first, tables[k])
    requires if at.Some? then at.value in first else tables != [] ==> tables[0] == first
    ensures var all := Listing(Below(first, at));
            Walk(tables, at, n) == (Take(all, Room(|tables|, n)), tables != [] && |all| <= Room(|tables|, n))
    decreases |tables|
  {
    if tables != [] {
      var all := Listing(Below(first, at));
      assert Grown(first, tables[0]);
      if at.Some? {
        NewerAreNotBelow(first, tables[0], at.value);
      }
      if |all| > n {
        SeekAgain(first, at, n);
        WalkIsExact(first, tables[1..], Some(all[n - 1]), n);
        WalkFurther(tables, at, n, all, Room(|tables| - 1, n));
      }
    }
  }

  lemma WalkFurther(tables: seq<set<Row>>, at: Option<Row>, n: nat, all: seq<Row>, room: nat)
    requires tables != [] && 1 <= n < |all| && all == Listing(Below(tables[0], at))
    requires Walk(tables[1..], Some(all[n - 1]), n) == (Take(all[n..], room), |tables| > 1 && |all| - n <= room)
    ensures Walk(tables, at, n) == (Take(all, n + room), |tables| > 1 && |all| <= n + room)
  {
    TakeMore(all, n, room);
  }

  /** With only newer rows arriving, the visit is exactly the rows of the start, newest first, and
      it is over on the page that holds the last of them and not before: every page but the last
      is full, and no empty page follows. A page holds the limit asked for, at most the endpoint's
      greatest, or its default. */
  lemma VisitIsExact(v: Visit, tables: seq<set<Row>>)
    requires Proper(v) && Stored(tables) && tables != []
    requires forall k | 0 <= k < |tables| :: Grown(tables[0], tables[k])
    ensures var n := if v.limit.None? || v.limit.value <= 0 then v.def else if v.limit.value > v.max then v.max else v.limit.value;
            Follow(v, tables, None) == Ok((Take(Listing(tables[0]), |tables| * n), |tables[0]| <= |tables| * n))
  {
    FollowIsWalk(v, tables, None, None);
    WalkIsExact(tables[0], tables, None, PageSize(v));
    RoomIsProduct(|tables|, PageSize(v));
    assert Below(tables[0], None) == tables[0];
    ListingIsSorted(tables[0]);
  }
}
