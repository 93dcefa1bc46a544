/**
  When a record that was put can be read back: over whole runs, with purges, exactly
  while its expiry lies ahead, and the expiry of a record put without a TTL may be past.
 */
module Visibility {
  import opened Prelude
  import opened Timestamps
  import opened Tables
  import opened Sql
  import opened Json
  import opened Records
  import opened Requests
  import opened Runs
  import BatchLines
  import Query
  import Sync

  // ------------------------------------------------------- a record left alone

  /** The operation writes or deletes this record. */
  ghost predicate Touches(e: Effect, key: Key) {
    match e
    case PostBSOs(cid, inputs, _) => cid == key.cid && exists i :: 0 <= i < |inputs| && inputs[i].id == key.id
    case DeleteBSOs(cid, ids, _) => cid == key.cid && key.id in ids
    case DeleteCollection(cid, _) => cid == key.cid
    case DeleteEverything => true
    case _ => false
  }

  ghost predicate LeavesAlone(es: seq<Effect>, key: Key) {
    forall i :: 0 <= i < |es| ==> !Touches(es[i], key)
  }

  /** Nothing expired after this tick was purged. */
  ghost predicate PurgesUpTo(es: seq<Effect>, q: int) {
    forall i :: 0 <= i < |es| && es[i].PurgeExpired? ==> es[i].now <= q
  }

  lemma {:induction false} PutRowsOther(bsos: map<Key, Bso>, cid: int, inputs: seq<PutInput>, now: int, key: Key)
    requires cid == key.cid ==> forall i :: 0 <= i < |inputs| ==> inputs[i].id != key.id
    ensures key in PutRows(bsos, cid, inputs, now) <==> key in bsos
    ensures key in bsos ==> PutRows(bsos, cid, inputs, now)[key] == bsos[key]
  {
    if inputs != [] { PutRowsOther(bsos, cid, inputs[..|inputs| - 1], now, key); }
  }

  /** The record is there as it was, or it has been purged as expired. */
  predicate Stays(st: Store, st': Store, key: Key, q: int)
    requires key in st.bsos
  {
    (key in st'.bsos ==> st'.bsos[key] == st.bsos[key]) && (st.bsos[key].ttl > q ==> key in st'.bsos)
  }

  lemma StaysOne(st: Store, e: Effect, key: Key, q: int)
    requires key in st.bsos && !Touches(e, key) && (e.PurgeExpired? ==> e.now <= q)
    ensures Stays(st, Apply(st, e), key, q)
  {
    if e.PostBSOs? { PutRowsOther(st.bsos, e.cid, e.inputs, e.now, key); }
  }

  lemma GoneStaysGone(st: Store, e: Effect, key: Key)
    requires key !in st.bsos && !Touches(e, key)
    ensures key !in Apply(st, e).bsos
  {
    if e.PostBSOs? { PutRowsOther(st.bsos, e.cid, e.inputs, e.now, key); }
  }

  lemma {:induction false} StaysThrough(st: Store, es: seq<Effect>, key: Key, q: int)
    requires key in st.bsos && LeavesAlone(es, key) && PurgesUpTo(es, q)
    ensures Stays(st, ApplyAll(st, es), key, q)
  {
    if es != [] {
      var n := |es| - 1;
      var mid := ApplyAll(st, es[..n]);
      StaysThrough(st, es[..n], key, q);
      if key in mid.bsos { StaysOne(mid, es[n], key, q); } else { GoneStaysGone(mid, es[n], key); }
    }
  }

  // ------------------------------------------------------------ purges of a run

  ghost predicate NoPurge(es: seq<Effect>) {
    forall i :: 0 <= i < |es| ==> !es[i].PurgeExpired?
  }

  lemma CommitPurgesNothing(st: Store, cfg: Config, cid: int, id: int, sent: seq<PutInput>, failed: set<string>, missing: int, now: int)
    ensures NoPurge(PlanCommit(st, cfg, cid, id, sent, failed, missing, now).effects)
  {}

  lemma FinishPurgesNothing(st: Store, cfg: Config, cid: int, id: int, commit: bool, sent: seq<PutInput>, failed: set<string>, found: bool, now: int)
    ensures NoPurge(PlanFinish(st, cfg, cid, id, commit, sent, failed, found, now).effects)
  {
    CommitPurgesNothing(st, cfg, cid, id, sent, failed, if found then 500 else 400, now);
  }

  lemma BatchPurgesNothing(st: Store, cfg: Config, cid: int, batch: string, commit: bool, inputs: seq<PutInput>, tm: Times)
    ensures NoPurge(PlanBatch(st, cfg, cid, batch, commit, inputs, tm).effects)
  {
    var filtered, failed, now := BatchLines.Filtered(inputs), BatchLines.Failures(inputs).Keys, Now(tm.write);
    var data := BatchLines.EncodeAll(filtered);
    if batch == "true" {
      FinishPurgesNothing(Apply(st, BatchCreate(cid, data, Now(tm.middle))), cfg, cid, st.nextBatch, commit, filtered, failed, true, now);
    } else if BatchIdInt(batch).Some? {
      var id := BatchIdInt(batch).value;
      FinishPurgesNothing(st, cfg, cid, id, commit, filtered, failed, BatchIn(st, id, cid), now);
      FinishPurgesNothing(Apply(st, BatchAppend(id, cid, data, Now(tm.middle))), cfg, cid, id, commit, filtered, failed, true, now);
    }
  }

  lemma PostPurgesNothing(st: Store, cfg: Config, cid: int, r: Request, tm: Times)
    requires r.CollectionPost?
    ensures NoPurge(PlanPostTo(st, cfg, cid, r, tm).effects)
  {
    if r.batch.Some? && r.batch.value != "" && r.body.Some? {
      var decoded := DecodeBody(r.body.value, cfg.maxRecordPayloadBytes);
      if decoded.Some? { BatchPurgesNothing(st, cfg, cid, r.batch.value, r.commit, decoded.value.inputs, tm); }
    }
  }

  /** Requests never purge; only tidying does. */
  lemma RequestsPurgeNothing(st: Store, cfg: Config, r: Request, tm: Times, arrange: Arrange)
    ensures NoPurge(PlanRequest(st, cfg, r, tm, arrange).effects)
  {
    if r.CollectionPost? {
      var st1 := ApplyAll(st, Automake(st, r.coll, tm));
      PostPurgesNothing(st1, cfg, CidOf(st1, r.coll), r, tm);
    }
  }

  lemma StepPurges(sv: Server, cfg: Config, step: Step)
    requires Enabled(sv, step)
    ensures sv.clock <= Next(sv, cfg, step).clock && PurgesUpTo(StepEffects(sv, cfg, step), Now(Next(sv, cfg, step).clock))
  {
    match step
    case Serve(r, tm) => RequestsPurgeNothing(sv.store, cfg, r, tm, AnyOrder);
    case Tidy(purge, batchPurge) => NowMonotone(purge, batchPurge);
    case _ =>
  }

  /** No purge of a run is later than its end. */
  lemma {:induction false} RunPurges(sv: Server, cfg: Config, steps: seq<Step>, t: nat)
    requires ValidRun(sv, cfg, steps) && Run(sv, cfg, steps).clock <= t
    ensures sv.clock <= t && PurgesUpTo(Log(sv, cfg, steps), Now(t))
    decreases |steps|
  {
    if steps != [] {
      var sv' := Next(sv, cfg, steps[0]);
      StepPurges(sv, cfg, steps[0]);
      RunPurges(sv', cfg, steps[1..], t);
      NowMonotone(sv'.clock, t);
      PurgesConcat(StepEffects(sv, cfg, steps[0]), Log(sv', cfg, steps[1..]), Now(sv'.clock), Now(t));
    }
  }

  lemma PurgesConcat(a: seq<Effect>, b: seq<Effect>, p: int, q: int)
    requires PurgesUpTo(a, p) && p <= q && PurgesUpTo(b, q)
    ensures PurgesUpTo(a + b, q)
  {}

  // ------------------------------------------------------------- an accepted PUT

  /** The tables once the collection is there, and the record a PUT writes. */
  function PutStore(st: Store, r: Request, tm: Times): Store
    requires r.BsoPut?
  {
    ApplyAll(st, Automake(st, r.coll, tm))
  }

  function PutRecord(r: Request): PutInput
    requires r.BsoPut?
  {
    match ParseRaw(r.record)
    case Ok(parsed) => ToMilliseconds(parsed).(id := r.id)
    case Err(_) => PutInput(r.id, None, None, None)
  }

  /** What a PUT answered with 200 has done. */
  lemma AcceptedPut(st: Store, cfg: Config, r: Request, tm: Times)
    requires r.BsoPut? && PlanPut(st, cfg, r, tm).resp.status == 200
    ensures BSOIdOk(r.id) && CollectionNameOk(r.coll) && ParseRaw(r.record).Ok? && PutCheck(PutRecord(r)).None?
    ensures var st1 := PutStore(st, r, tm);
            && r.coll in st1.names
            && ApplyAll(st, PlanPut(st, cfg, r, tm).effects) == Apply(st1, PostBSOs(st1.names[r.coll], [PutRecord(r)], Now(tm.write)))
    ensures var st1 := PutStore(st, r, tm);
            PlanPut(st, cfg, r, tm).effects == Automake(st, r.coll, tm) + [PostBSOs(st1.names[r.coll], [PutRecord(r)], Now(tm.write))]
  {
    var made, st1 := Automake(st, r.coll, tm), PutStore(st, r, tm);
    if r.coll !in st.names { ApplyOne(st, CreateCollection(r.coll, Now(tm.create))); }
    var e := PostBSOs(CidOf(st1, r.coll), [PutRecord(r)], Now(tm.write));
    assert PlanPutTo(st1, cfg, CidOf(st1, r.coll), r, tm).effects == [e];
    ApplyAllConcat(st, made, [e]);
    ApplyOne(st1, e);
  }

  lemma PutRowsOne(bsos: map<Key, Bso>, cid: int, input: PutInput, now: int)
    ensures PutRows(bsos, cid, [input], now) == PutRow(bsos, cid, input, now)
  {
    assert [input][..0] == [];
  }

  /** The row a PUT leaves for its record. */
  function PutResult(st: Store, r: Request, tm: Times): Bso
    requires r.BsoPut?
  {
    var st1, input := PutStore(st, r, tm), PutRecord(r);
    var key := Key(CidOf(st1, r.coll), r.id);
    if key in st1.bsos then UpdatedRow(st1.bsos[key], input, Now(tm.write)) else InsertedRow(input, Now(tm.write))
  }

  /** A GET of a whole collection, or of these ids of it. */
  function GetAll(coll: string, ids: seq<string>, sort: SortType): Request {
    CollectionGet(coll, Headers("", ""), GetParams(ids, "", "", None, 0, sort))
  }

  /** What such a GET returns of one record. */
  lemma GetFinds(st: Store, coll: string, id: string, ids: seq<string>, sort: SortType, tm: Times, arrange: Arrange, limit: int)
    requires Consistent(st) && StampedBy(st, limit) && limit < MAX_TIMESTAMP && IsArrangement(arrange)
    requires CollectionNameOk(coll) && coll in st.names && BSOIdOk(id) && (ids == [] || ids == [id])
    ensures var resp, key := GetCollection(st, GetAll(coll, ids, sort), tm, arrange), Key(st.names[coll], id);
            && resp.status == 200 && resp.body.Rows?
            && forall row :: row in resp.body.rows && row.id == id <==> key in st.bsos && st.bsos[key].ttl > Now(tm.middle) && row == ToRow(id, st.bsos[key])
  {
    var cid := st.names[coll];
    var search := Query.Search(cid, ids, MAX_TIMESTAMP, 0, sort, Now(tm.middle));
    var found := Query.Found(st.bsos, search);
    var full := arrange(found, sort);
    assert multiset(full) == multiset(found);
    assert full[0..] == full;
    assert ParseBounds(GetAll(coll, ids, sort).params) == Some((MAX_TIMESTAMP, 0));
    assert Query.GetBSOs(st.bsos, search, -1, 0, arrange) == Ok(Query.GetResults(full, false, 0));
    forall row ensures row in full <==> row in found { assert row in full <==> row in multiset(full); }
    forall row ensures row in found && row.id == id <==> FoundRow(st, Key(cid, id), Now(tm.middle), row) {
      FindsOne(st, search, id, row, limit);
    }
  }

  predicate FoundRow(st: Store, key: Key, q: int, row: Row) {
    key in st.bsos && st.bsos[key].ttl > q && row == ToRow(key.id, st.bsos[key])
  }

  lemma FindsOne(st: Store, s: Query.Search, id: string, row: Row, limit: int)
    requires Consistent(st) && StampedBy(st, limit) && limit < s.older && s.newer == 0 && (s.ids == [] || s.ids == [id])
    ensures row in Query.Found(st.bsos, s) && row.id == id <==> FoundRow(st, Key(s.cid, id), s.cutoff, row)
  {
    var key := Key(s.cid, id);
    if key in st.bsos { assert RowOk(st, key, st.bsos[key]); }
  }

  // ---------------------------------------------------------------- main result

  ghost predicate PutThenRun(sv: Server, cfg: Config, put: Step, steps: seq<Step>) {
    && Inv(sv) && !sv.stopped && put.Serve? && put.r.BsoPut? && Enabled(sv, put)
    && PlanPut(sv.store, cfg, put.r, put.tm).resp.status == 200
    && ValidRun(Next(sv, cfg, put), cfg, steps)
  }

  /**
    A record that was put with 200 is returned by a GET of its collection, after any run
    that neither writes nor deletes it, purges included, exactly if it has not expired by
    then; and it is returned as that PUT left it. It expires by the TTL of the PUT, else
    when it did before, which may be in the past, else after the default time.
   */
  lemma PutVisibleExactly(sv: Server, cfg: Config, put: Step, steps: seq<Step>, ids: seq<string>, sort: SortType, tm: Times, arrange: Arrange)
    requires PutThenRun(sv, cfg, put, steps) && IsArrangement(arrange)
    requires LeavesAlone(Log(Next(sv, cfg, put), cfg, steps), Key(CidOf(PutStore(sv.store, put.r, put.tm), put.r.coll), put.r.id))
    requires Run(Next(sv, cfg, put), cfg, steps).clock <= tm.middle
    requires StampLimit(Run(Next(sv, cfg, put), cfg, steps)) < MAX_TIMESTAMP && (ids == [] || ids == [put.r.id])
    ensures var st1, now := PutStore(sv.store, put.r, put.tm), Run(Next(sv, cfg, put), cfg, steps).store;
            var resp := GetCollection(now, GetAll(put.r.coll, ids, sort), tm, arrange);
            var expiry := Query.ExpiryOf(st1.bsos, CidOf(st1, put.r.coll), PutRecord(put.r), Now(put.tm.write));
            && resp.status == 200 && resp.body.Rows?
            && forall row :: row in resp.body.rows && row.id == put.r.id <==>
                 expiry > Now(tm.middle) && row == ToRow(put.r.id, PutResult(sv.store, put.r, put.tm))
  {
    var s1 := Next(sv, cfg, put);
    var s2, st1 := Run(s1, cfg, steps), PutStore(sv.store, put.r, put.tm);
    var cid, q := CidOf(st1, put.r.coll), Now(tm.middle);
    var key := Key(cid, put.r.id);
    StepKeeps(sv, cfg, put);
    RunKeeps(s1, cfg, steps);
    AfterPut(sv, cfg, put, key);
    RunAppliesLog(s1, cfg, steps);
    RunPurges(s1, cfg, steps, tm.middle);
    StaysThrough(s1.store, Log(s1, cfg, steps), key, q);
    Sync.NamesStay(s1.store, Log(s1, cfg, steps), put.r.coll);
    GetFinds(s2.store, put.r.coll, put.r.id, ids, sort, tm, arrange, StampLimit(s2));
  }

  /** The store right after the PUT. */
  lemma AfterPut(sv: Server, cfg: Config, put: Step, key: Key)
    requires Inv(sv) && !sv.stopped && put.Serve? && put.r.BsoPut? && PlanPut(sv.store, cfg, put.r, put.tm).resp.status == 200
    requires key == Key(CidOf(PutStore(sv.store, put.r, put.tm), put.r.coll), put.r.id)
    ensures var st := Next(sv, cfg, put).store;
            && key in st.bsos && st.bsos[key] == PutResult(sv.store, put.r, put.tm)
            && put.r.coll in st.names && st.names[put.r.coll] == key.cid
            && BSOIdOk(put.r.id) && CollectionNameOk(put.r.coll)
    ensures var st1 := PutStore(sv.store, put.r, put.tm);
            PutResult(sv.store, put.r, put.tm).ttl == Query.ExpiryOf(st1.bsos, key.cid, PutRecord(put.r), Now(put.tm.write))
  {
    var st1 := PutStore(sv.store, put.r, put.tm);
    AcceptedPut(sv.store, cfg, put.r, put.tm);
    PutRowsOne(st1.bsos, key.cid, PutRecord(put.r), Now(put.tm.write));
  }

  // ------------------------------------------------------------------ instances

  function PutOf(coll: string, id: string, record: RawRecord, clock: nat): Step {
    Serve(BsoPut(coll, id, Headers("", ""), record), TimesFrom(clock))
  }

  function OnlyTTL(): RawRecord {
    Some(map["ttl" := JInt(0)])
  }

  function OnlyPayload(payload: string): RawRecord {
    Some(map["payload" := JString(payload)])
  }

  lemma TTLParses()
    ensures ParseRaw(OnlyTTL()) == Ok(PutInput("", None, Some(0), None))
  {
    KeysDistinct();
  }

  lemma PayloadParses(payload: string)
    ensures ParseRaw(OnlyPayload(payload)) == Ok(PutInput("", Some(payload), None, None))
  {
    KeysDistinct();
  }

  /** A valid PUT without a condition is answered with 200. */
  lemma PutAnswered(st: Store, cfg: Config, r: Request, tm: Times, parsed: PutInput)
    requires r.BsoPut? && BSOIdOk(r.id) && CollectionNameOk(r.coll) && r.headers == Headers("", "")
    requires ParseRaw(r.record) == Ok(parsed) && !TooLarge(parsed, cfg.maxRecordPayloadBytes)
    requires PutCheck(ToMilliseconds(parsed).(id := r.id)).None?
    ensures PlanPut(st, cfg, r, tm).resp.status == 200
  {
    var st1 := PutStore(st, r, tm);
    PutToAnswered(st1, cfg, CidOf(st1, r.coll), r, tm, parsed);
  }

  lemma PutToAnswered(st: Store, cfg: Config, cid: int, r: Request, tm: Times, parsed: PutInput)
    requires r.BsoPut? && r.headers == Headers("", "")
    requires ParseRaw(r.record) == Ok(parsed) && !TooLarge(parsed, cfg.maxRecordPayloadBytes)
    requires PutCheck(ToMilliseconds(parsed).(id := r.id)).None?
    ensures PlanPutTo(st, cfg, cid, r, tm).resp.status == 200
  {}

  /** On any running server such a step can be taken, and is answered with 200. */
  lemma PutStep(sv: Server, cfg: Config, coll: string, id: string, record: RawRecord, parsed: PutInput) returns (put: Step)
    requires Inv(sv) && !sv.stopped && BSOIdOk(id) && CollectionNameOk(coll)
    requires ParseRaw(record) == Ok(parsed) && !TooLarge(parsed, cfg.maxRecordPayloadBytes)
    requires PutCheck(ToMilliseconds(parsed).(id := id)).None?
    ensures put == PutOf(coll, id, record, sv.clock) && PutThenRun(sv, cfg, put, [])
    ensures !Next(sv, cfg, put).stopped && Next(sv, cfg, put).clock == sv.clock + HALF_SECOND && Inv(Next(sv, cfg, put))
    ensures PutRecord(put.r) == ToMilliseconds(parsed).(id := id)
  {
    put := PutOf(coll, id, record, sv.clock);
    TimesEnabled(sv, put.r);
    PutAnswered(sv.store, cfg, put.r, put.tm, parsed);
    StepKeeps(sv, cfg, put);
  }

  lemma PutTTL(sv: Server, cfg: Config, coll: string, id: string) returns (put: Step)
    requires Inv(sv) && !sv.stopped && BSOIdOk(id) && CollectionNameOk(coll)
    ensures put == PutOf(coll, id, OnlyTTL(), sv.clock) && PutThenRun(sv, cfg, put, []) && PutRecord(put.r).ttl == Some(0)
    ensures !Next(sv, cfg, put).stopped && Next(sv, cfg, put).clock == sv.clock + HALF_SECOND && Inv(Next(sv, cfg, put))
  {
    TTLParses();
    put := PutStep(sv, cfg, coll, id, OnlyTTL(), PutInput("", None, Some(0), None));
  }

  lemma PutPayload(sv: Server, cfg: Config, coll: string, id: string, payload: string) returns (put: Step)
    requires Inv(sv) && !sv.stopped && BSOIdOk(id) && CollectionNameOk(coll) && Utf8Len(payload) <= cfg.maxRecordPayloadBytes
    ensures put == PutOf(coll, id, OnlyPayload(payload), sv.clock) && PutThenRun(sv, cfg, put, []) && PutRecord(put.r).ttl.None?
    ensures !Next(sv, cfg, put).stopped && Next(sv, cfg, put).clock == sv.clock + HALF_SECOND && Inv(Next(sv, cfg, put))
  {
    PayloadParses(payload);
    put := PutStep(sv, cfg, coll, id, OnlyPayload(payload), PutInput("", Some(payload), None, None));
  }

  /**
    A write that nobody can read: on any running server a record is put with a TTL of
    zero, then put again without one. The second PUT is answered with 200, and a GET of
    the collection after it returns no such record.
   */
  lemma AcceptedAndInvisible(sv: Server, cfg: Config, coll: string, id: string, payload: string, sort: SortType, tm: Times, arrange: Arrange)
    returns (first: Step, second: Step)
    requires Inv(sv) && !sv.stopped && BSOIdOk(id) && CollectionNameOk(coll) && Utf8Len(payload) <= cfg.maxRecordPayloadBytes
    requires Now(sv.clock + HALF_SECOND + HALF_SECOND) < MAX_TIMESTAMP && sv.clock + HALF_SECOND + HALF_SECOND <= tm.middle && IsArrangement(arrange)
    ensures ValidRun(sv, cfg, [first, second]) && second.Serve? && second.r == PutOf(coll, id, OnlyPayload(payload), 0).r
    ensures PlanPut(Next(sv, cfg, first).store, cfg, second.r, second.tm).resp.status == 200
    ensures var resp := GetCollection(Run(sv, cfg, [first, second]).store, GetAll(coll, [], sort), tm, arrange);
            resp.status == 200 && resp.body.Rows? && forall row :: row in resp.body.rows ==> row.id != id
  {
    first := PutTTL(sv, cfg, coll, id);
    second := PutPayload(Next(sv, cfg, first), cfg, coll, id, payload);
    TwoSteps(sv, cfg, first, second);
    NowMonotone(first.tm.write, second.tm.write);
    NowMonotone(first.tm.write, tm.middle);
    NotReturned(sv, cfg, first, second, sort, tm, arrange);
  }

  lemma NotReturned(sv: Server, cfg: Config, first: Step, second: Step, sort: SortType, tm: Times, arrange: Arrange)
    requires PutThenRun(sv, cfg, first, []) && PutThenRun(Next(sv, cfg, first), cfg, second, []) && IsArrangement(arrange)
    requires Next(Next(sv, cfg, first), cfg, second).clock <= tm.middle && StampLimit(Next(Next(sv, cfg, first), cfg, second)) < MAX_TIMESTAMP
    requires first.tm.write <= tm.middle && Now(first.tm.write) <= Now(tm.middle) && Now(first.tm.write) < MAX_TIMESTAMP
    requires PutRecord(first.r).ttl == Some(0)
    requires second.r.id == first.r.id && second.r.coll == first.r.coll && PutRecord(second.r).ttl.None?
    ensures var resp := GetCollection(Next(Next(sv, cfg, first), cfg, second).store, GetAll(second.r.coll, [], sort), tm, arrange);
            resp.status == 200 && resp.body.Rows? && forall row :: row in resp.body.rows ==> row.id != second.r.id
  {
    ExpiresAtOnce(sv, cfg, first, second, tm.middle);
    PutVisibleExactly(Next(sv, cfg, first), cfg, second, [], [], sort, tm, arrange);
  }

  lemma TwoSteps(sv: Server, cfg: Config, first: Step, second: Step)
    requires Enabled(sv, first) && Enabled(Next(sv, cfg, first), second)
    ensures ValidRun(sv, cfg, [first, second]) && Run(sv, cfg, [first, second]) == Next(Next(sv, cfg, first), cfg, second)
  {
    assert [first, second] == [first] + [second] && [second] == [second] + [];
    FirstStep(sv, cfg, first, [second]);
    FirstStep(Next(sv, cfg, first), cfg, second, []);
  }

  /** The second PUT keeps the expiry of the first, which has passed. */
  lemma ExpiresAtOnce(sv: Server, cfg: Config, first: Step, second: Step, t: nat)
    requires PutThenRun(sv, cfg, first, []) && first.tm.write <= t && Now(t) >= Now(first.tm.write) && Now(first.tm.write) < MAX_TIMESTAMP
    requires PutRecord(first.r).ttl == Some(0)
    requires second.Serve? && second.r.BsoPut? && second.r.id == first.r.id && second.r.coll == first.r.coll && PutRecord(second.r).ttl.None?
    ensures var st1 := PutStore(Next(sv, cfg, first).store, second.r, second.tm);
            Query.ExpiryOf(st1.bsos, CidOf(st1, second.r.coll), PutRecord(second.r), Now(second.tm.write)) <= Now(t)
  {
    var st := Next(sv, cfg, first).store;
    AfterPut(sv, cfg, first, Key(CidOf(PutStore(sv.store, first.r, first.tm), first.r.coll), first.r.id));
    assert PutStore(st, second.r, second.tm) == st;
    AcceptedPut(sv.store, cfg, first.r, first.tm);
  }

  /** A write hidden by a whole-collection delete: the client's condition no longer notices it. */
  lemma HiddenWrite(sv: Server, cfg: Config, id: string, payload: string, r: Request, tm: Times, seen: nat) returns (put: Step, delete: Step)
    requires Inv(sv) && !sv.stopped && BSOIdOk(id) && Utf8Len(payload) <= cfg.maxRecordPayloadBytes
    requires r.CollectionPost? && CollectionNameOk(r.coll) && r.coll in sv.store.names
    requires Sync.IsStamp(seen) && seen <= StampLimit(sv) && r.headers == Headers("", ModifiedToString(seen))
    ensures ValidRun(sv, cfg, [put, delete])
    ensures exists e :: e in Log(sv, cfg, [put, delete]) && e.PostBSOs? && e.cid == sv.store.names[r.coll]
    ensures var now := Run(sv, cfg, [put, delete]).store;
            PlanPost(now, cfg, r, tm) == PlanPost(now, cfg, Sync.Unconditional(r), tm)
  {
    put := PutPayload(sv, cfg, r.coll, id, payload);
    var s1 := Next(sv, cfg, put);
    delete := Serve(CollectionDelete(r.coll, Headers("", ""), None), TimesFrom(s1.clock));
    TimesEnabled(s1, delete.r);
    TwoSteps(sv, cfg, put, delete);
    OneStep(sv, cfg, put);
    WriteLogged(sv, cfg, put, delete);
    Sync.DeleteHidesWrites(sv, cfg, [put], delete, r, tm, seen);
  }

  lemma WriteLogged(sv: Server, cfg: Config, put: Step, delete: Step)
    requires PutThenRun(sv, cfg, put, []) && put.r.coll in sv.store.names
    ensures exists e :: e in Log(sv, cfg, [put, delete]) && e.PostBSOs? && e.cid == sv.store.names[put.r.coll]
  {
    var es := StepEffects(sv, cfg, put);
    OneStep(sv, cfg, put);
    PutEffect(sv.store, cfg, put.r, put.tm);
    Sync.LogSnoc(sv, cfg, [put], delete);
    assert [put] + [delete] == [put, delete];
    FirstEffect(es, StepEffects(Run(sv, cfg, [put]), cfg, delete));
  }

  lemma PutEffect(st: Store, cfg: Config, r: Request, tm: Times)
    requires r.BsoPut? && PlanPut(st, cfg, r, tm).resp.status == 200 && r.coll in st.names
    ensures var es := PlanPut(st, cfg, r, tm).effects;
            es != [] && es[0].PostBSOs? && es[0].cid == st.names[r.coll]
  {
    AcceptedPut(st, cfg, r, tm);
  }

  lemma FirstEffect(a: seq<Effect>, b: seq<Effect>)
    requires a != []
    ensures a[0] in a + b
  {
    assert (a + b)[0] == a[0];
  }

  lemma OneStep(sv: Server, cfg: Config, step: Step)
    requires Enabled(sv, step)
    ensures ValidRun(sv, cfg, [step]) && Run(sv, cfg, [step]) == Next(sv, cfg, step) && Log(sv, cfg, [step]) == StepEffects(sv, cfg, step)
  {
    assert [step] == [step] + [] && [step][1..] == [];
    FirstStep(sv, cfg, step, []);
    assert StepEffects(sv, cfg, step) + [] == StepEffects(sv, cfg, step);
  }
}
