/** Reading records back: filters, paging, and what expiry and purging do to readers. */
module Query {
  import opened Prelude
  import opened Tables
  import opened Sql

  datatype QueryError = InvalidOffset | InvalidLimit | InvalidNewer

  datatype GetResults = GetResults(rows: seq<Row>, more: bool, offset: int)

  /** A search: which records, in which order, as seen at tick `cutoff`. */
  datatype Search = Search(cid: int, ids: seq<string>, older: int, newer: int, sort: SortType, cutoff: int)

  function FirstHundred(ids: seq<string>): seq<string> {
    if |ids| > 100 then ids[..100] else ids
  }

  predicate Selected(s: Search, k: Key, b: Bso) {
    && k.cid == s.cid
    && s.newer < b.modified < s.older
    && b.ttl > s.cutoff
    && (s.ids == [] || k.id in FirstHundred(s.ids))
  }

  function Found(bsos: map<Key, Bso>, s: Search): set<Row> {
    set k | k in bsos && Selected(s, k, bsos[k]) :: ToRow(k.id, bsos[k])
  }

  /** One page of a result: at most `limit` rows from `offset`, and where the next page starts. */
  function Page(full: seq<Row>, limit: int, offset: nat): GetResults {
    var more := limit >= 0 && |full| > limit + offset;
    GetResults(Window(full, limit, offset), more, if more then limit + offset else 0)
  }

  function GetBSOs(bsos: map<Key, Bso>, s: Search, limit: int, offset: int, arrange: Arrange): Result<GetResults, QueryError> {
    if offset < 0 then Err(InvalidOffset)
    else if limit < -1 then Err(InvalidLimit)
    else if s.newer < 0 then Err(InvalidNewer)
    else Ok(Page(arrange(Found(bsos, s), s.sort), limit, offset))
  }

  /** Fetching one row too many gives the page and tells whether there is another. */
  lemma OneRowMore(full: seq<Row>, limit: int, offset: nat)
    ensures var extra := Window(full, limit + 1, offset);
            limit >= 0 ==>
              && (|extra| > limit <==> |full| > limit + offset)
              && Window(full, limit, offset) == if |extra| > limit then extra[..|extra| - 1] else extra
  {}

  /** A single record is still served at the tick it expires. */
  function GetBSO(bsos: map<Key, Bso>, cid: int, id: string, cutoff: int): Option<Row> {
    var k := Key(cid, id);
    if BSOIdOk(id) && k in bsos && bsos[k].ttl >= cutoff then Some(ToRow(id, bsos[k])) else None
  }

  function GetBSOModified(bsos: map<Key, Bso>, cid: int, id: string, cutoff: int): Option<int> {
    var k := Key(cid, id);
    if k in bsos && bsos[k].ttl > cutoff then Some(bsos[k].modified) else None
  }

  // ------------------------------------------------------------------ paging

  /** All pages a client gets by following the returned offset while there is more. */
  function FollowPages(bsos: map<Key, Bso>, s: Search, limit: int, offset: nat, arrange: Arrange): seq<seq<Row>>
    requires limit >= 1 && s.newer >= 0
    decreases |arrange(Found(bsos, s), s.sort)| - offset
  {
    var page := GetBSOs(bsos, s, limit, offset, arrange).value;
    [page.rows] + if page.more then FollowPages(bsos, s, limit, page.offset, arrange) else []
  }

  /** The pages, put together, are the unlimited result: nothing lost, nothing repeated. */
  lemma {:induction false} PagesComplete(bsos: map<Key, Bso>, s: Search, limit: int, offset: nat, arrange: Arrange)
    requires limit >= 1 && s.newer >= 0
    ensures GetBSOs(bsos, s, -1, offset, arrange).Ok?
    ensures Flatten(FollowPages(bsos, s, limit, offset, arrange)) == GetBSOs(bsos, s, -1, offset, arrange).value.rows
    decreases |arrange(Found(bsos, s), s.sort)| - offset
  {
    var full := arrange(Found(bsos, s), s.sort);
    var page := GetBSOs(bsos, s, limit, offset, arrange).value;
    if page.more {
      PagesComplete(bsos, s, limit, page.offset, arrange);
      assert full[offset..] == full[offset..offset + limit] + full[offset + limit..];
    } else {
      assert FollowPages(bsos, s, limit, offset, arrange)[1..] == [];
    }
  }

  /** Every page but the last is full, and no row is in two places of the result. */
  lemma PagesFullAndDistinct(bsos: map<Key, Bso>, s: Search, limit: int, offset: nat, arrange: Arrange)
    requires limit >= 0 && s.newer >= 0 && IsArrangement(arrange)
    ensures var page := GetBSOs(bsos, s, limit, offset, arrange).value;
            && |page.rows| <= limit
            && (page.more ==> |page.rows| == limit && page.offset == offset + limit)
            && (limit == 0 && page.more ==> page.offset == offset)
            && (forall i, j :: 0 <= i < j < |page.rows| ==> page.rows[i] != page.rows[j])
  {
    var rows := Found(bsos, s);
    var full := arrange(rows, s.sort);
    assert multiset(full) == multiset(rows);
    NoRepeats(full, rows);
  }

  lemma NoRepeats(full: seq<Row>, rows: set<Row>)
    requires multiset(full) == multiset(rows)
    ensures forall i, j :: 0 <= i < j < |full| ==> full[i] != full[j]
  {
    forall i, j | 0 <= i < j < |full| ensures full[i] != full[j] {
      var x := full[j];
      assert full == full[..j] + [x] + full[j + 1..];
      assert multiset(full)[x] <= 1;
      assert multiset(full[..j])[x] == 0;
      assert full[i] in full[..j];
    }
  }

  // ----------------------------------------------------------------- purging

  function PurgeAt(st: Store, ticks: seq<int>): Store {
    if ticks == [] then st else Apply(PurgeAt(st, ticks[..|ticks| - 1]), PurgeExpired(ticks[|ticks| - 1]))
  }

  lemma {:induction false} PurgedRows(st: Store, ticks: seq<int>, q: int)
    requires forall i :: 0 <= i < |ticks| ==> ticks[i] <= q
    ensures forall k :: k in PurgeAt(st, ticks).bsos ==> k in st.bsos && PurgeAt(st, ticks).bsos[k] == st.bsos[k]
    ensures forall k :: k in st.bsos && st.bsos[k].ttl > q ==> k in PurgeAt(st, ticks).bsos
  {
    if ticks != [] {
      PurgedRows(st, ticks[..|ticks| - 1], q);
    }
  }

  /** However often expired records were purged, up to now, no reader can tell. */
  lemma PurgeInvisible(st: Store, ticks: seq<int>, s: Search, limit: int, offset: int, id: string, arrange: Arrange)
    requires forall i :: 0 <= i < |ticks| ==> ticks[i] <= s.cutoff
    ensures GetBSOs(PurgeAt(st, ticks).bsos, s, limit, offset, arrange) == GetBSOs(st.bsos, s, limit, offset, arrange)
    ensures GetBSOModified(PurgeAt(st, ticks).bsos, s.cid, id, s.cutoff) == GetBSOModified(st.bsos, s.cid, id, s.cutoff)
    ensures GetBSO(PurgeAt(st, ticks).bsos, s.cid, id, s.cutoff + 1) == GetBSO(st.bsos, s.cid, id, s.cutoff + 1)
  {
    PurgedRows(st, ticks, s.cutoff);
    var bsos' := PurgeAt(st, ticks).bsos;
    forall r ensures r in Found(bsos', s) <==> r in Found(st.bsos, s) {
      if r in Found(st.bsos, s) {
        var k :| k in st.bsos && Selected(s, k, st.bsos[k]) && r == ToRow(k.id, st.bsos[k]);
        assert k in bsos';
      }
    }
    assert Found(bsos', s) == Found(st.bsos, s);
  }

  /** At the purging tick itself a single-record read can tell, exactly when the record expires then. */
  lemma PurgeVisibleAtItsTick(st: Store, p: int, cid: int, id: string)
    requires BSOIdOk(id)
    ensures GetBSO(Apply(st, PurgeExpired(p)).bsos, cid, id, p) == GetBSO(st.bsos, cid, id, p) <==>
              !(Key(cid, id) in st.bsos && st.bsos[Key(cid, id)].ttl == p)
  {}

  /** When the record of an accepted write expires: its own TTL, else the old expiry, even one that is past. */
  function ExpiryOf(bsos: map<Key, Bso>, cid: int, input: PutInput, now: int): int {
    if input.ttl.Some? then Expiry(now, input.ttl.value)
    else if Key(cid, input.id) in bsos then bsos[Key(cid, input.id)].ttl
    else Expiry(now, DEFAULT_TTL)
  }

  /** An accepted write can be read back at a tick exactly if it has not expired by then. */
  lemma WriteVisible(bsos: map<Key, Bso>, cid: int, input: PutInput, now: int, q: int)
    requires PutCheck(input).None?
    ensures GetBSOModified(PutRow(bsos, cid, input, now), cid, input.id, q).Some? <==> ExpiryOf(bsos, cid, input, now) > q
    ensures GetBSO(PutRow(bsos, cid, input, now), cid, input.id, q).Some? <==> ExpiryOf(bsos, cid, input, now) >= q
  {}

  /**
    A write can tell too. Without its own TTL, a write to an expired record stays
    invisible forever after, while the same write after a purge is a fresh record.
   */
  lemma ExpiredRecordSwallowsWrite(st: Store, cid: int, input: PutInput, p: int, now: int, q: int)
    requires PutCheck(input).None? && input.ttl.None?
    requires Key(cid, input.id) in st.bsos && st.bsos[Key(cid, input.id)].ttl <= p <= q
    ensures GetBSOModified(PutRow(st.bsos, cid, input, now), cid, input.id, q).None?
    ensures var purged := Apply(st, PurgeExpired(p));
            GetBSOModified(PutRow(purged.bsos, cid, input, now), cid, input.id, q) ==
            if Expiry(now, DEFAULT_TTL) > q then Some(now) else None
  {
    var purged := Apply(st, PurgeExpired(p));
    assert Key(cid, input.id) !in purged.bsos;
  }
}
