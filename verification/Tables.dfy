/**
  One user's database: the BSO, Collections, KeyValues and Batches tables, and what
  each database operation does to them. A transaction is one step. Strings are
  sequences of Unicode scalar values, so Go's len(s) is `Utf8Len(s)`.
 */
module Tables {
  import opened Prelude

  const DEFAULT_TTL: int := 100 * 365 * 24 * 60 * 60 * 1000

  datatype Key = Key(cid: int, id: string)

  datatype Bso = Bso(sortIndex: int, payload: string, payloadSize: int, modified: int, ttl: int)

  datatype Collection = Collection(name: string, modified: int)

  datatype Batch = Batch(cid: int, modified: int, bsos: string)

  /**
    `names` is the unique index on Collections.Name. `storage` is the storage-level
    stamp kept in KeyValues, 0 when never written. `nextCid` and `nextBatch` are the
    AUTOINCREMENT counters.
   */
  datatype Store = Store(
    bsos: map<Key, Bso>,
    collections: map<int, Collection>,
    names: map<string, int>,
    storage: int,
    nextCid: int,
    batches: map<int, Batch>,
    nextBatch: int)

  datatype PutInput = PutInput(
    id: string,
    payload: Option<string>,
    ttl: Option<int>,
    sortIndex: Option<int>)

  datatype PutError = NothingToDo | InvalidBSOId | InvalidSortIndex | InvalidTTL

  datatype CidError = InvalidCollectionName | NameTaken | NotFound

  datatype PostResults = PostResults(success: seq<string>, failed: map<string, PutError>)

  // --------------------------------------------------------------- validators

  predicate BSOIdOk(id: string) {
    1 <= |id| <= 64 && forall i :: 0 <= i < |id| ==> ' ' <= id[i] <= '~'
  }

  predicate CollectionNameOk(name: string) {
    1 <= |name| <= 32 && forall i :: 0 <= i < |name| ==> NameChar(name[i])
  }

  predicate NameChar(c: char) {
    '0' <= c <= '9' || 'A' <= c <= 'Z' || 'a' <= c <= 'z' || c == '_' || c == '-' || c == '.'
  }

  predicate SortIndexOk(sortIndex: int) {
    -999999999 <= sortIndex <= 99999999
  }

  predicate TTLOk(ttl: int) {
    ttl >= 0
  }

  function Utf8Len(s: string): nat {
    if s == [] then 0 else Utf8Len(s[..|s| - 1]) + CharLen(s[|s| - 1])
  }

  function CharLen(c: char): nat {
    if c < '\U{80}' then 1 else if c < '\U{800}' then 2 else if c < '\U{10000}' then 3 else 4
  }

  /** Two's complement wrap-around of Go's 64-bit int. */
  function Wrap64(n: int): (w: int)
    ensures -0x8000_0000_0000_0000 <= w < 0x8000_0000_0000_0000
    ensures -0x8000_0000_0000_0000 <= n < 0x8000_0000_0000_0000 ==> w == n
  {
    (n + 0x8000_0000_0000_0000) % 0x1_0000_0000_0000_0000 - 0x8000_0000_0000_0000
  }

  // ------------------------------------------------------------ one record

  function PutCheck(input: PutInput): Option<PutError> {
    if input.payload.None? && input.sortIndex.None? && input.ttl.None? then Some(NothingToDo)
    else if !BSOIdOk(input.id) then Some(InvalidBSOId)
    else if input.sortIndex.Some? && !SortIndexOk(input.sortIndex.value) then Some(InvalidSortIndex)
    else if input.ttl.Some? && !TTLOk(input.ttl.value) then Some(InvalidTTL)
    else None
  }

  /** The instant a record expires: its TTL is relative to the stamp of the write. */
  function Expiry(modified: int, ttl: int): int {
    Wrap64(modified + ttl)
  }

  /** Only the given fields change; the stamp moves only with the payload or the sort index. */
  function UpdatedRow(row: Bso, input: PutInput, modified: int): Bso {
    Bso(
      if input.sortIndex.Some? then input.sortIndex.value else row.sortIndex,
      if input.payload.Some? then input.payload.value else row.payload,
      if input.payload.Some? then Utf8Len(input.payload.value) else row.payloadSize,
      if input.payload.Some? || input.sortIndex.Some? then modified else row.modified,
      if input.ttl.Some? then Expiry(modified, input.ttl.value) else row.ttl)
  }

  function InsertedRow(input: PutInput, modified: int): Bso {
    var payload := if input.payload.Some? then input.payload.value else "";
    Bso(
      if input.sortIndex.Some? then input.sortIndex.value else 0,
      payload,
      Utf8Len(payload),
      modified,
      Expiry(modified, if input.ttl.Some? then input.ttl.value else DEFAULT_TTL))
  }

  /** Insert or update one record; a refused record leaves the table alone. */
  function PutRow(bsos: map<Key, Bso>, cid: int, input: PutInput, modified: int): map<Key, Bso> {
    var key := Key(cid, input.id);
    if PutCheck(input).Some? then bsos
    else if key in bsos then bsos[key := UpdatedRow(bsos[key], input, modified)]
    else bsos[key := InsertedRow(input, modified)]
  }

  /** The records of one POST in order, all with the same stamp. */
  function PutRows(bsos: map<Key, Bso>, cid: int, inputs: seq<PutInput>, modified: int): map<Key, Bso> {
    if inputs == [] then bsos
    else
      var n := |inputs| - 1;
      PutRow(PutRows(bsos, cid, inputs[..n], modified), cid, inputs[n], modified)
  }

  function PutOutcome(inputs: seq<PutInput>): PostResults {
    if inputs == [] then PostResults([], map[])
    else
      var n := |inputs| - 1;
      var r := PutOutcome(inputs[..n]);
      match PutCheck(inputs[n])
      case Some(e) => PostResults(r.success, r.failed[inputs[n].id := e])
      case None => PostResults(r.success + [inputs[n].id], r.failed)
  }

  /** Insertion, payload write or sort index write: what a client must fetch again. */
  predicate WritesContent(bsos: map<Key, Bso>, cid: int, input: PutInput) {
    PutCheck(input).None? &&
    (Key(cid, input.id) !in bsos || input.payload.Some? || input.sortIndex.Some?)
  }

  function ContentWrites(bsos: map<Key, Bso>, cid: int, inputs: seq<PutInput>, modified: int): set<Key> {
    if inputs == [] then {}
    else
      var n := |inputs| - 1;
      ContentWrites(bsos, cid, inputs[..n], modified) +
      if WritesContent(PutRows(bsos, cid, inputs[..n], modified), cid, inputs[n])
      then {Key(cid, inputs[n].id)} else {}
  }

  // ------------------------------------------------------------- operations

  /** Everything the server ever does to the tables. */
  datatype Effect =
    | CreateCollection(name: string, now: int)
    | PostBSOs(cid: int, inputs: seq<PutInput>, now: int)
    | DeleteBSOs(cid: int, ids: seq<string>, now: int)
    | DeleteCollection(cid: int, now: int)
    | DeleteEverything
    | PurgeExpired(now: int)
    | BatchCreate(cid: int, data: string, now: int)
    | BatchAppend(id: int, cid: int, data: string, now: int)
    | BatchRemove(id: int)
    | BatchPurge(now: int, ttl: int)

  function Touch(collections: map<int, Collection>, cid: int, modified: int): map<int, Collection> {
    if cid in collections then collections[cid := collections[cid].(modified := modified)] else collections
  }

  function TouchBoth(st: Store, cid: int, modified: int): Store {
    st.(collections := Touch(st.collections, cid, modified), storage := modified)
  }

  predicate BatchIn(st: Store, id: int, cid: int) {
    id in st.batches && st.batches[id].cid == cid
  }

  function Apply(st: Store, e: Effect): Store {
    match e
    case CreateCollection(name, now) =>
      if name in st.names then st
      else st.(
        collections := st.collections[st.nextCid := Collection(name, now)],
        names := st.names[name := st.nextCid],
        nextCid := st.nextCid + 1)
    case PostBSOs(cid, inputs, now) =>
      TouchBoth(st.(bsos := PutRows(st.bsos, cid, inputs, now)), cid, now)
    case DeleteBSOs(cid, ids, now) =>
      TouchBoth(st.(bsos := map k | k in st.bsos && !(k.cid == cid && k.id in ids) :: st.bsos[k]), cid, now)
    case DeleteCollection(cid, now) =>
      st.(bsos := map k | k in st.bsos && k.cid != cid :: st.bsos[k],
        collections := Touch(st.collections, cid, 0),
        storage := now)
    case DeleteEverything => st.(bsos := map[])
    case PurgeExpired(now) => st.(bsos := map k | k in st.bsos && !(st.bsos[k].ttl <= now) :: st.bsos[k])
    case BatchCreate(cid, data, now) =>
      st.(batches := st.batches[st.nextBatch := Batch(cid, now, data)], nextBatch := st.nextBatch + 1)
    case BatchAppend(id, cid, data, now) =>
      if BatchIn(st, id, cid)
      then st.(batches := st.batches[id := Batch(cid, now, st.batches[id].bsos + data)])
      else st
    case BatchRemove(id) => st.(batches := st.batches - {id})
    case BatchPurge(now, ttl) =>
      st.(batches := map b | b in st.batches && !(now - st.batches[b].modified >= ttl) :: st.batches[b])
  }

  function ApplyAll(st: Store, effects: seq<Effect>): Store {
    if effects == [] then st
    else Apply(ApplyAll(st, effects[..|effects| - 1]), effects[|effects| - 1])
  }

  lemma {:induction false} ApplyAllConcat(st: Store, a: seq<Effect>, b: seq<Effect>)
    ensures ApplyAll(st, a + b) == ApplyAll(ApplyAll(st, a), b)
  {
    if b == [] {
      assert a + b == a;
    } else {
      var n := |b| - 1;
      ApplyAllConcat(st, a, b[..n]);
      assert (a + b)[..|a + b| - 1] == a + b[..n];
    }
  }

  lemma ApplyOne(st: Store, e: Effect)
    ensures ApplyAll(st, [e]) == Apply(st, e)
  {
    assert [e][..0] == [];
  }

  lemma ApplyTwo(st: Store, e: Effect, f: Effect)
    ensures ApplyAll(st, [e, f]) == Apply(Apply(st, e), f)
  {
    assert [e, f][..1] == [e];
    ApplyOne(st, e);
  }

  lemma ApplyCons(st: Store, e: Effect, rest: seq<Effect>)
    ensures ApplyAll(st, [e] + rest) == ApplyAll(Apply(st, e), rest)
  {
    ApplyOne(st, e);
    ApplyAllConcat(st, [e], rest);
  }

  // ------------------------------------------------------------- invariants

  /** The stamp an operation leaves on a collection or on the storage. */
  predicate Stamps(e: Effect) {
    e.CreateCollection? || e.PostBSOs? || e.DeleteBSOs? || e.DeleteCollection?
  }

  /** Rows exist for what they refer to, sizes are true, and data never outruns its stamps. */
  ghost predicate Consistent(st: Store) {
    && (forall n :: n in st.names ==> st.names[n] in st.collections && st.collections[st.names[n]].name == n)
    && (forall c :: c in st.collections ==> st.collections[c].name in st.names && st.names[st.collections[c].name] == c)
    && (forall c :: c in st.collections ==> 0 < c < st.nextCid)
    && 0 < st.nextCid
    && (forall b :: b in st.batches ==> b < st.nextBatch && st.batches[b].cid in st.collections)
    && RowsOk(st, st.bsos)
  }

  ghost predicate RowsOk(st: Store, rows: map<Key, Bso>) {
    forall k :: k in rows ==> RowOk(st, k, rows[k])
  }

  predicate RowOk(st: Store, k: Key, row: Bso) {
    && k.cid in st.collections
    && row.payloadSize == Utf8Len(row.payload)
    && 0 < row.modified <= st.collections[k.cid].modified
    && row.modified <= st.storage
  }

  /** Every stamp in the store is a multiple of ten and at most `bound`. */
  ghost predicate StampedBy(st: Store, bound: int) {
    && StampTo(st.storage, bound)
    && forall c :: c in st.collections ==> StampTo(st.collections[c].modified, bound)
  }

  predicate StampTo(stamp: int, bound: int) {
    0 <= stamp <= bound && stamp % 10 == 0
  }

  /** What the request handlers guarantee before they run an operation. */
  predicate Allowed(st: Store, e: Effect) {
    match e
    case PostBSOs(cid, _, _) => cid in st.collections
    case BatchCreate(cid, _, _) => cid in st.collections
    case _ => true
  }

  lemma {:induction false} PutRowsOk(st: Store, cid: int, inputs: seq<PutInput>, now: int)
    requires Consistent(st) && cid in st.collections && 0 < now
    requires st.collections[cid].modified <= now && st.storage <= now
    ensures RowsOk(TouchBoth(st, cid, now), PutRows(st.bsos, cid, inputs, now))
  {
    if inputs != [] {
      PutRowsOk(st, cid, inputs[..|inputs| - 1], now);
    }
  }

  /** A store whose rows all refer to the same collections with the same or later stamps. */
  lemma RowsStay(st: Store, st': Store)
    requires RowsOk(st, st.bsos) && st'.storage >= st.storage
    requires forall k :: k in st'.bsos ==> k in st.bsos && st'.bsos[k] == st.bsos[k] && k.cid in st'.collections
    requires forall k :: k in st'.bsos && k.cid in st.collections ==> st'.collections[k.cid].modified >= st.collections[k.cid].modified
    ensures RowsOk(st', st'.bsos)
  {
    forall k | k in st'.bsos ensures RowOk(st', k, st'.bsos[k]) { assert RowOk(st, k, st.bsos[k]); }
  }

  lemma CreateKeeps(st: Store, name: string, now: int, bound: int)
    requires Consistent(st) && StampedBy(st, bound) && now >= bound && now > 0 && now % 10 == 0
    ensures Consistent(Apply(st, CreateCollection(name, now))) && StampedBy(Apply(st, CreateCollection(name, now)), now)
  {
    var st' := Apply(st, CreateCollection(name, now));
    forall k | k in st.bsos ensures k.cid in st.collections { assert RowOk(st, k, st.bsos[k]); }
    RowsStay(st, st');
  }

  lemma PostKeeps(st: Store, cid: int, inputs: seq<PutInput>, now: int, bound: int)
    requires Consistent(st) && StampedBy(st, bound) && cid in st.collections && now >= bound && now > 0 && now % 10 == 0
    ensures Consistent(Apply(st, PostBSOs(cid, inputs, now))) && StampedBy(Apply(st, PostBSOs(cid, inputs, now)), now)
  {
    PutRowsOk(st, cid, inputs, now);
    assert RowsOk(Apply(st, PostBSOs(cid, inputs, now)), PutRows(st.bsos, cid, inputs, now));
  }

  lemma DeleteKeeps(st: Store, e: Effect, bound: int)
    requires Consistent(st) && StampedBy(st, bound) && (e.DeleteBSOs? || e.DeleteCollection?) && e.now >= bound && e.now > 0 && e.now % 10 == 0
    ensures Consistent(Apply(st, e)) && StampedBy(Apply(st, e), e.now)
  {
    forall k | k in st.bsos ensures k.cid in st.collections { assert RowOk(st, k, st.bsos[k]); }
    RowsStay(st, Apply(st, e));
  }

  lemma BatchKeeps(st: Store, e: Effect, bound: int)
    requires Consistent(st) && StampedBy(st, bound) && Allowed(st, e)
    requires e.BatchCreate? || e.BatchAppend? || e.BatchRemove? || e.BatchPurge?
    ensures Consistent(Apply(st, e)) && StampedBy(Apply(st, e), bound)
  {
    forall k | k in st.bsos ensures k.cid in st.collections { assert RowOk(st, k, st.bsos[k]); }
    RowsStay(st, Apply(st, e));
  }

  lemma PurgeKeeps(st: Store, e: Effect, bound: int)
    requires Consistent(st) && StampedBy(st, bound) && (e.PurgeExpired? || e.DeleteEverything?)
    ensures Consistent(Apply(st, e)) && StampedBy(Apply(st, e), bound)
  {
    forall k | k in st.bsos ensures k.cid in st.collections { assert RowOk(st, k, st.bsos[k]); }
    RowsStay(st, Apply(st, e));
  }

  /** Every operation with a stamp no older than the store's keeps the invariant. */
  lemma ApplyKeeps(st: Store, e: Effect, bound: int)
    requires Consistent(st) && StampedBy(st, bound) && Allowed(st, e)
    requires Stamps(e) ==> e.now >= bound && e.now > 0 && e.now % 10 == 0
    ensures Consistent(Apply(st, e))
    ensures StampedBy(Apply(st, e), if Stamps(e) then e.now else bound)
  {
    match e
    case CreateCollection(name, now) => CreateKeeps(st, name, now, bound);
    case PostBSOs(cid, inputs, now) => PostKeeps(st, cid, inputs, now, bound);
    case DeleteBSOs(_, _, _) => DeleteKeeps(st, e, bound);
    case DeleteCollection(_, _) => DeleteKeeps(st, e, bound);
    case DeleteEverything => PurgeKeeps(st, e, bound);
    case PurgeExpired(_) => PurgeKeeps(st, e, bound);
    case _ => BatchKeeps(st, e, bound);
  }

  /** A new database: whatever collections the schema inserts, never written, and no records. */
  ghost predicate Fresh(st: Store) {
    && Consistent(st)
    && st.bsos == map[] && st.batches == map[]
    && StampedBy(st, 0)
  }
}
