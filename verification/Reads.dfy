/**
  What a client reads: which records a GET returns, in which order, page by page, said
  of the records in the tables and not of how the handler finds them.
 */
module Reads {
  import opened Prelude
  import opened Timestamps
  import opened Tables
  import opened Sql
  import opened Requests
  import opened Runs
  import Query

  // ----------------------------------------------------------- what is asked for

  predicate AfterText(text: string, stamp: int) {
    text == "" || (ConvertSigned(text).Some? && ConvertSigned(text).value < stamp)
  }

  /** Without an upper bound the server uses a date in 2099. */
  predicate BeforeText(text: string, stamp: int) {
    if text == "" then stamp < MAX_TIMESTAMP else ConvertSigned(text).Some? && stamp < ConvertSigned(text).value
  }

  /** The parameters ask for this record, and it is live at tick q. */
  predicate Asked(p: GetParams, id: string, b: Bso, q: int) {
    && (p.ids == [] || id in p.ids)
    && AfterText(p.newer, b.modified) && BeforeText(p.older, b.modified)
    && q < b.ttl
  }

  /** The row shows this record. */
  predicate Shows(row: Row, id: string, b: Bso) {
    && row.id == id && row.payload == b.payload && row.sortIndex == b.sortIndex
    && row.modified == b.modified && row.ttl == b.ttl
  }

  predicate GoodIds(ids: seq<string>) {
    |ids| <= 100 && forall i :: 0 <= i < |ids| ==> BSOIdOk(ids[i])
  }

  predicate GoodBounds(p: GetParams) {
    && (p.older == "" || ConvertSigned(p.older).Some?)
    && (p.newer == "" || (ConvertSigned(p.newer).Some? && ConvertSigned(p.newer).value >= 0))
  }

  predicate GoodParams(p: GetParams) {
    GoodIds(p.ids) && GoodBounds(p) && (p.limit.Some? ==> p.limit.value >= 0) && p.offset >= 0
  }

  /** A GET without conditions of a collection that is there, on a running server. */
  ghost predicate PlainGet(sv: Server, r: Request) {
    && Inv(sv) && !sv.stopped && r.CollectionGet? && r.headers == Headers("", "")
    && CollectionNameOk(r.coll) && r.coll in sv.store.names
  }

  function From(r: Request, limit: Option<int>, offset: int): Request
    requires r.CollectionGet?
  {
    CollectionGet(r.coll, r.headers, r.params.(limit := limit, offset := offset))
  }

  // ------------------------------------------------------------------- one search

  function SearchOf(st: Store, r: Request, tm: Times): Query.Search
    requires r.CollectionGet? && r.coll in st.names && ParseBounds(r.params).Some?
  {
    Query.Search(st.names[r.coll], r.params.ids, ParseBounds(r.params).value.0, ParseBounds(r.params).value.1, r.params.sort, Now(tm.middle))
  }

  lemma BoundsOk(p: GetParams)
    ensures GoodBounds(p) <==> ParseBounds(p).Some?
    ensures GoodBounds(p) ==> ParseBounds(p).value.1 >= 0
  {}

  /** Some record that is asked for is shown by this row. */
  ghost predicate Returned(st: Store, r: Request, q: int, row: Row)
    requires r.CollectionGet? && r.coll in st.names
  {
    var key := Key(st.names[r.coll], row.id);
    key in st.bsos && Asked(r.params, row.id, st.bsos[key], q) && Shows(row, row.id, st.bsos[key])
  }

  lemma SelectedIsAsked(st: Store, r: Request, tm: Times, k: Key, b: Bso)
    requires r.CollectionGet? && r.coll in st.names && GoodParams(r.params) && ParseBounds(r.params).Some? && 0 < b.modified
    ensures Query.Selected(SearchOf(st, r, tm), k, b) <==> k.cid == st.names[r.coll] && Asked(r.params, k.id, b, Now(tm.middle))
  {}

  lemma FoundIsReturned(st: Store, r: Request, tm: Times, row: Row)
    requires Consistent(st) && r.CollectionGet? && r.coll in st.names && GoodParams(r.params) && ParseBounds(r.params).Some?
    ensures row in Query.Found(st.bsos, SearchOf(st, r, tm)) <==> Returned(st, r, Now(tm.middle), row)
  {
    var s, q := SearchOf(st, r, tm), Now(tm.middle);
    if row in Query.Found(st.bsos, s) {
      var k :| k in st.bsos && Query.Selected(s, k, st.bsos[k]) && row == ToRow(k.id, st.bsos[k]);
      assert RowOk(st, k, st.bsos[k]);
      SelectedIsAsked(st, r, tm, k, st.bsos[k]);
    }
    if Returned(st, r, q, row) {
      var k := Key(st.names[r.coll], row.id);
      assert RowOk(st, k, st.bsos[k]);
      SelectedIsAsked(st, r, tm, k, st.bsos[k]);
      assert row == ToRow(k.id, st.bsos[k]);
    }
  }

  /** All rows of a search, in the database's order. */
  function AllRows(st: Store, r: Request, tm: Times, arrange: Arrange): seq<Row>
    requires r.CollectionGet? && r.coll in st.names && ParseBounds(r.params).Some?
  {
    arrange(Query.Found(st.bsos, SearchOf(st, r, tm)), r.params.sort)
  }

  /** The rows of one page of a list. */
  function Slice(full: seq<Row>, limit: Option<int>, k: nat): seq<Row>
    requires limit.Some? ==> limit.value >= 0
  {
    if k >= |full| then [] else if limit.None? || k + limit.value >= |full| then full[k..] else full[k..k + limit.value]
  }

  /** One page of a list, and where the next one starts, if there is more. */
  function PageOf(full: seq<Row>, limit: Option<int>, k: nat): Body
    requires limit.Some? ==> limit.value >= 0
  {
    Rows(Slice(full, limit, k), if limit.Some? && k + limit.value < |full| then Some(k + limit.value) else None)
  }

  lemma WindowIsSlice(full: seq<Row>, limit: Option<int>, k: nat)
    requires limit.Some? ==> limit.value >= 0
    ensures Window(full, if limit.Some? then limit.value else -1, k) == Slice(full, limit, k)
  {}

  lemma SliceAll(full: seq<Row>)
    ensures Slice(full, None, 0) == full
  {}

  lemma GetIs(sv: Server, cfg: Config, r: Request, tm: Times, arrange: Arrange)
    requires PlainGet(sv, r) && GoodParams(r.params) && ParseBounds(r.params).Some?
    ensures Answer(sv, cfg, r, tm, arrange) ==
            Response(200, Some(CollectionStamp(sv.store, sv.store.names[r.coll])), PageOf(AllRows(sv.store, r, tm, arrange), r.params.limit, r.params.offset))
  {
    BoundsOk(r.params);
    WindowIsSlice(AllRows(sv.store, r, tm, arrange), r.params.limit, r.params.offset);
  }

  /** Rows that each show another record of one collection. */
  lemma DistinctIds(st: Store, r: Request, q: int, full: seq<Row>, found: set<Row>)
    requires r.CollectionGet? && r.coll in st.names && multiset(full) == multiset(found)
    requires forall row :: row in found ==> Returned(st, r, q, row)
    ensures forall row :: row in full <==> row in found
    ensures forall i, j :: 0 <= i < j < |full| ==> full[i].id != full[j].id
  {
    forall row ensures row in full <==> row in found { assert row in full <==> row in multiset(full); }
    Query.NoRepeats(full, found);
    forall i, j | 0 <= i < j < |full| ensures full[i].id != full[j].id {
      assert full[i] in full && full[j] in full;
      assert Returned(st, r, q, full[i]) && Returned(st, r, q, full[j]);
    }
  }

  /**
    A GET without a limit returns exactly the live records that its ids and bounds ask
    for, each once, in the order asked for, with the collection's stamp.
   */
  lemma GetReturns(sv: Server, cfg: Config, r: Request, tm: Times, arrange: Arrange)
    requires PlainGet(sv, r) && GoodParams(r.params) && r.params.limit.None? && r.params.offset == 0 && IsArrangement(arrange)
    ensures var resp := Answer(sv, cfg, r, tm, arrange);
            var cid := sv.store.names[r.coll];
            && resp.status == 200 && resp.body.Rows? && resp.body.next == None
            && cid in sv.store.collections && resp.lastModified == Some(sv.store.collections[cid].modified)
            && (forall row :: row in resp.body.rows <==> Returned(sv.store, r, Now(tm.middle), row))
            && (forall i, j :: 0 <= i < j < |resp.body.rows| ==> resp.body.rows[i].id != resp.body.rows[j].id)
            && (forall i, j :: 0 <= i < j < |resp.body.rows| ==> InOrder(r.params.sort, resp.body.rows[i], resp.body.rows[j]))
  {
    BoundsOk(r.params);
    GetIs(sv, cfg, r, tm, arrange);
    var found, full := Query.Found(sv.store.bsos, SearchOf(sv.store, r, tm)), AllRows(sv.store, r, tm, arrange);
    forall row ensures row in found <==> Returned(sv.store, r, Now(tm.middle), row) { FoundIsReturned(sv.store, r, tm, row); }
    DistinctIds(sv.store, r, Now(tm.middle), full, found);
    SliceAll(full);
  }

  // ---------------------------------------------------------------------- pages

  /** The rows of the same GET without a limit, from the first. */
  ghost function Unlimited(sv: Server, cfg: Config, r: Request, tm: Times, arrange: Arrange): seq<Row>
    requires PlainGet(sv, r) && GoodParams(r.params)
  {
    var body := Answer(sv, cfg, From(r, None, 0), tm, arrange).body;
    if body.Rows? then body.rows else []
  }

  lemma UnlimitedIs(sv: Server, cfg: Config, r: Request, tm: Times, arrange: Arrange)
    requires PlainGet(sv, r) && GoodParams(r.params) && ParseBounds(r.params).Some?
    ensures Unlimited(sv, cfg, r, tm, arrange) == AllRows(sv.store, r, tm, arrange)
  {
    var r0 := From(r, None, 0);
    assert ParseBounds(r0.params) == ParseBounds(r.params) && SearchOf(sv.store, r0, tm) == SearchOf(sv.store, r, tm);
    GetIs(sv, cfg, r0, tm, arrange);
    SliceAll(AllRows(sv.store, r, tm, arrange));
  }

  /**
    A GET with a limit and an offset returns that part of the rows the same GET without
    them returns, and a next offset exactly if there are more.
   */
  lemma PageIs(sv: Server, cfg: Config, r: Request, tm: Times, arrange: Arrange)
    requires PlainGet(sv, r) && GoodParams(r.params)
    ensures Answer(sv, cfg, r, tm, arrange) ==
            Response(200, Some(CollectionStamp(sv.store, sv.store.names[r.coll])),
                     PageOf(Unlimited(sv, cfg, r, tm, arrange), r.params.limit, r.params.offset))
  {
    BoundsOk(r.params);
    GetIs(sv, cfg, r, tm, arrange);
    UnlimitedIs(sv, cfg, r, tm, arrange);
  }

  /** Pages served by offset: each has rows, and a next offset further on. */
  ghost predicate Advances(page: nat -> Body, size: nat) {
    forall k: nat :: page(k).Rows? && (page(k).next.Some? ==> k < page(k).next.value <= size)
  }

  /** All pages from offset k on, by asking again from each next offset. */
  ghost function Follow(page: nat -> Body, size: nat, k: nat): seq<seq<Row>>
    requires Advances(page, size)
    decreases size - k
  {
    [page(k).rows] + if page(k).next.None? then [] else Follow(page, size, page(k).next.value)
  }

  /** The answers to a GET sent from any offset. */
  ghost function Pager(sv: Server, cfg: Config, r: Request, tm: Times, arrange: Arrange): nat -> Body
    requires r.CollectionGet?
  {
    (k: nat) => Answer(sv, cfg, From(r, r.params.limit, k), tm, arrange).body
  }

  /** A list cut into pieces of a given length, from k on. */
  function Cut(full: seq<Row>, limit: nat, k: nat): seq<seq<Row>>
    requires limit >= 1
    decreases |full| - k
  {
    [Slice(full, Some(limit), k)] + if k + limit < |full| then Cut(full, limit, k + limit) else []
  }

  lemma {:induction false} FollowIsCut(page: nat -> Body, full: seq<Row>, limit: nat, k: nat)
    requires limit >= 1 && forall j: nat :: page(j) == PageOf(full, Some(limit), j)
    ensures Advances(page, |full|) && Follow(page, |full|, k) == Cut(full, limit, k)
    decreases |full| - k
  {
    if k + limit < |full| { FollowIsCut(page, full, limit, k + limit); }
  }

  lemma SliceSplit(full: seq<Row>, limit: int, k: nat)
    requires limit >= 0 && k + limit < |full|
    ensures Slice(full, Some(limit), k) + Slice(full, None, k + limit) == Slice(full, None, k)
  {}

  lemma {:induction false} CutIsAll(full: seq<Row>, limit: nat, k: nat)
    requires limit >= 1
    ensures Flatten(Cut(full, limit, k)) == Slice(full, None, k)
    decreases |full| - k
  {
    if k + limit < |full| {
      FlattenCons(Slice(full, Some(limit), k), Cut(full, limit, k + limit));
      CutIsAll(full, limit, k + limit);
      SliceSplit(full, limit, k);
    } else {
      FlattenCons(Slice(full, Some(limit), k), []);
      assert Slice(full, Some(limit), k) + [] == Slice(full, None, k);
    }
  }

  lemma PagerIs(sv: Server, cfg: Config, r: Request, tm: Times, arrange: Arrange, k: nat)
    requires PlainGet(sv, r) && GoodParams(r.params)
    ensures Pager(sv, cfg, r, tm, arrange)(k) == PageOf(Unlimited(sv, cfg, r, tm, arrange), r.params.limit, k)
  {
    var rk := From(r, r.params.limit, k);
    assert From(rk, None, 0) == From(r, None, 0);
    PageIs(sv, cfg, rk, tm, arrange);
  }

  /**
    For any limit from 1 on, sending the GET again from each next offset ends, and the
    pages put together are the rows without a limit: none lost, none repeated.
   */
  lemma PagesAreAll(sv: Server, cfg: Config, r: Request, tm: Times, arrange: Arrange)
    requires PlainGet(sv, r) && GoodParams(r.params) && r.params.limit.Some? && r.params.limit.value >= 1
    ensures var page, full := Pager(sv, cfg, r, tm, arrange), Unlimited(sv, cfg, r, tm, arrange);
            && Advances(page, |full|)
            && Flatten(Follow(page, |full|, r.params.offset)) == Slice(full, None, r.params.offset)
            && Flatten(Follow(page, |full|, 0)) == full
  {
    var page, full, limit := Pager(sv, cfg, r, tm, arrange), Unlimited(sv, cfg, r, tm, arrange), r.params.limit.value;
    forall k: nat ensures page(k) == PageOf(full, Some(limit), k) { PagerIs(sv, cfg, r, tm, arrange, k); }
    PagesOfAll(page, full, limit, r.params.offset);
    PagesOfAll(page, full, limit, 0);
    SliceAll(full);
  }

  lemma PagesOfAll(page: nat -> Body, full: seq<Row>, limit: nat, k: nat)
    requires limit >= 1 && forall j: nat :: page(j) == PageOf(full, Some(limit), j)
    ensures Advances(page, |full|) && Flatten(Follow(page, |full|, k)) == Slice(full, None, k)
  {
    FollowIsCut(page, full, limit, k);
    CutIsAll(full, limit, k);
  }

  lemma FlattenCons(first: seq<Row>, rest: seq<seq<Row>>)
    ensures Flatten([first] + rest) == first + Flatten(rest)
  {
    assert ([first] + rest)[1..] == rest;
  }

  // ------------------------------------------------------------- other answers

  /** With bad parameters a GET is refused; of a collection that is not there it is empty. */
  lemma GetRefused(sv: Server, cfg: Config, r: Request, tm: Times, arrange: Arrange)
    requires Inv(sv) && !sv.stopped && r.CollectionGet? && r.headers == Headers("", "")
    ensures CollectionNameOk(r.coll) && r.coll in sv.store.names ==>
              Answer(sv, cfg, r, tm, arrange).status == if GoodParams(r.params) then 200 else 400
    ensures CollectionNameOk(r.coll) && r.coll !in sv.store.names ==> Answer(sv, cfg, r, tm, arrange) == Response(200, None, Rows([], None))
    ensures !CollectionNameOk(r.coll) ==> Answer(sv, cfg, r, tm, arrange).status == 500
  {
    BoundsOk(r.params);
  }

  /** A record that a single read finds: it is served up to and including the tick it expires. */
  predicate ReadableAt(st: Store, coll: string, id: string, q: int) {
    coll in st.names && Key(st.names[coll], id) in st.bsos && q <= st.bsos[Key(st.names[coll], id)].ttl
  }

  /** A GET of one record shows it exactly if it is there and has not expired, and is a 404 otherwise, or a 500 for an invalid name. */
  lemma GetOneReturns(sv: Server, cfg: Config, r: Request, tm: Times, arrange: Arrange)
    requires !sv.stopped && r.BsoGet? && r.headers == Headers("", "")
    ensures var resp := Answer(sv, cfg, r, tm, arrange);
            if BSOIdOk(r.id) && !CollectionNameOk(r.coll) then resp == Response(500, None, NoBody)
            else if BSOIdOk(r.id) && ReadableAt(sv.store, r.coll, r.id, Now(tm.middle)) then
              var b := sv.store.bsos[Key(sv.store.names[r.coll], r.id)];
              && resp.status == 200 && resp.lastModified == Some(b.modified)
              && resp.body.Rows? && |resp.body.rows| == 1 && Shows(resp.body.rows[0], r.id, b)
            else resp == Response(404, None, NoBody)
  {}

  // --------------------------------------------------- orders the database may use

  ghost predicate Ordered(rows: seq<Row>, sort: SortType) {
    forall i, j :: 0 <= i < j < |rows| ==> InOrder(sort, rows[i], rows[j])
  }

  /** What sorts first. */
  function Rank(sort: SortType, row: Row): int {
    match sort
    case SortNone => 0
    case SortNewest => -row.modified
    case SortOldest => row.modified
    case SortIndexDesc => -row.sortIndex
  }

  lemma {:induction false} FirstExists(rows: set<Row>, sort: SortType) returns (first: Row)
    requires rows != {}
    ensures first in rows && forall x :: x in rows ==> Rank(sort, first) <= Rank(sort, x)
    decreases |rows|
  {
    first :| first in rows;
    if rows != {first} {
      assert rows - {first} != {};
      var other := FirstExists(rows - {first}, sort);
      if Rank(sort, other) < Rank(sort, first) { first := other; }
    }
  }

  ghost predicate IsFirst(rows: set<Row>, sort: SortType, first: Row) {
    first in rows && forall x :: x in rows ==> Rank(sort, first) <= Rank(sort, x)
  }

  ghost function Sorted(rows: set<Row>, sort: SortType): (r: seq<Row>)
    ensures multiset(r) == multiset(rows) && Ordered(r, sort)
    decreases |rows|
  {
    if rows == {} then []
    else
      assert exists first :: IsFirst(rows, sort, first) by {
        var first := FirstExists(rows, sort);
        assert IsFirst(rows, sort, first);
      }
      var first :| IsFirst(rows, sort, first);
      var rest := Sorted(rows - {first}, sort);
      assert multiset([first] + rest) == multiset(rows) by { assert multiset(rows) == multiset{first} + multiset(rows - {first}); }
      assert Ordered([first] + rest, sort) by { FirstThenRest(first, rest, rows, sort); }
      [first] + rest
  }

  lemma FirstThenRest(first: Row, rest: seq<Row>, rows: set<Row>, sort: SortType)
    requires IsFirst(rows, sort, first) && multiset(rest) == multiset(rows - {first}) && Ordered(rest, sort)
    ensures Ordered([first] + rest, sort)
  {
    var all := [first] + rest;
    forall i, j | 0 <= i < j < |all| ensures InOrder(sort, all[i], all[j]) {
      assert all[j] == rest[j - 1] && rest[j - 1] in multiset(rest);
      if i > 0 { assert all[i] == rest[i - 1]; }
    }
  }

  /** Every choice of rows can be ordered as a GET asks. */
  lemma ArrangementExists() returns (arrange: Arrange)
    ensures IsArrangement(arrange)
  {
    arrange := (rows: set<Row>, sort: SortType) => Sorted(rows, sort);
  }
}
