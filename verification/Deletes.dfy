/**
  What a DELETE removes and what it leaves, said of the tables, and that what was deleted
  is not read again until it is written again.
 */
module Deletes {
  import opened Prelude
  import opened Timestamps
  import opened Tables
  import opened Sql
  import opened Requests
  import opened Runs
  import opened Sync
  import opened Reads
  import opened Conditions

  /** Everything but the records and the stamps is as it was. */
  predicate RestSame(st: Store, st': Store) {
    && st'.names == st.names && st'.nextCid == st.nextCid && st'.batches == st.batches && st'.nextBatch == st.nextBatch
    && st'.collections.Keys == st.collections.Keys
  }

  /** One collection carries this stamp, and all others the one they had. */
  ghost predicate OnlyStamped(st: Store, st': Store, cid: int, stamp: int) {
    && cid in st'.collections && st'.collections[cid].modified == stamp
    && forall c :: c in st.collections && c != cid ==> c in st'.collections && st'.collections[c] == st.collections[c]
  }

  /** Exactly the records with these keys are gone; every other is as it was. */
  ghost predicate OnlyGone(st: Store, st': Store, gone: iset<Key>) {
    && (forall k :: k in st'.bsos <==> k in st.bsos && k !in gone)
    && forall k :: k in st'.bsos ==> st'.bsos[k] == st.bsos[k]
  }

  // -------------------------------------------------------------- one record

  lemma DeletePlan(st: Store, r: Request, tm: Times)
    requires r.BsoDelete? && r.headers == Headers("", "") && BSOIdOk(r.id) && CollectionNameOk(r.coll)
    ensures var plan := PlanBsoDelete(st, r, tm);
            if ReadableAt(st, r.coll, r.id, Now(tm.middle))
            then plan == Plan([DeleteBSOs(st.names[r.coll], [r.id], Now(tm.write))], Response(200, Some(Now(tm.write)), NoBody))
            else plan == Plan([], Status(if r.coll in st.names then 404 else 406))
  {}

  /**
    A DELETE of one record that is there removes that record and no other, and stamps its
    collection and the storage with the stamp it answers.
   */
  lemma DeleteOne(sv: Server, cfg: Config, r: Request, tm: Times, arrange: Arrange)
    requires Inv(sv) && !sv.stopped && r.BsoDelete? && r.headers == Headers("", "") && BSOIdOk(r.id) && CollectionNameOk(r.coll)
    requires ReadableAt(sv.store, r.coll, r.id, Now(tm.middle))
    ensures var st, st', cid := sv.store, Next(sv, cfg, Serve(r, tm)).store, sv.store.names[r.coll];
            && Answer(sv, cfg, r, tm, arrange) == Response(200, Some(Now(tm.write)), NoBody)
            && OnlyGone(st, st', iset{Key(cid, r.id)}) && OnlyStamped(st, st', cid, Now(tm.write))
            && st'.storage == Now(tm.write) && RestSame(st, st')
  {
    DeletePlan(sv.store, r, tm);
    ApplyOne(sv.store, DeleteBSOs(sv.store.names[r.coll], [r.id], Now(tm.write)));
    assert RowOk(sv.store, Key(sv.store.names[r.coll], r.id), sv.store.bsos[Key(sv.store.names[r.coll], r.id)]);
  }

  /** An invalid name is looked up as collection 0, which has no records. */
  lemma NoRecordsOfZero(st: Store, r: Request, tm: Times)
    requires Consistent(st) && r.BsoDelete? && (!BSOIdOk(r.id) || !CollectionNameOk(r.coll))
    ensures PlanBsoDelete(st, r, tm) == Plan([], Status(404))
  {
    forall k | k in st.bsos ensures k.cid != 0 { assert RowOk(st, k, st.bsos[k]); }
  }

  /**
    A DELETE of a record that cannot be read changes nothing. It is a 406 exactly if id
    and name are valid and the collection is not there, and otherwise a 404.
   */
  lemma DeleteMissing(sv: Server, cfg: Config, r: Request, tm: Times, arrange: Arrange)
    requires Inv(sv) && !sv.stopped && r.BsoDelete? && r.headers == Headers("", "")
    ensures var valid, readable := BSOIdOk(r.id) && CollectionNameOk(r.coll), ReadableAt(sv.store, r.coll, r.id, Now(tm.middle));
            && (Answer(sv, cfg, r, tm, arrange).status == 406 <==> valid && r.coll !in sv.store.names)
            && (Answer(sv, cfg, r, tm, arrange).status == 404 <==> !valid || (r.coll in sv.store.names && !readable))
            && (!valid || !readable ==> Next(sv, cfg, Serve(r, tm)).store == sv.store)
  {
    if BSOIdOk(r.id) && CollectionNameOk(r.coll) {
      DeletePlan(sv.store, r, tm);
    } else {
      NoRecordsOfZero(sv.store, r, tm);
    }
  }

  // ------------------------------------------------------------ many records

  /** A DELETE that reaches the tables. */
  ghost predicate DeletesCollection(sv: Server, r: Request) {
    && Inv(sv) && !sv.stopped && r.CollectionDelete? && r.headers == Headers("", "")
    && CollectionNameOk(r.coll) && r.coll in sv.store.names
  }

  /** A DELETE of named records removes exactly those of the collection, and stamps it and the storage. */
  lemma DeleteNamed(sv: Server, cfg: Config, r: Request, tm: Times, arrange: Arrange)
    requires DeletesCollection(sv, r) && r.ids.Some? && |r.ids.value| <= cfg.maxPOSTRecords
    ensures var st, st', cid := sv.store, Next(sv, cfg, Serve(r, tm)).store, sv.store.names[r.coll];
            && Answer(sv, cfg, r, tm, arrange) == Response(200, Some(Now(tm.write)), NoBody)
            && OnlyGone(st, st', iset k: Key | k.cid == cid && k.id in r.ids.value) && OnlyStamped(st, st', cid, Now(tm.write))
            && st'.storage == Now(tm.write) && RestSame(st, st')
  {
    ApplyOne(sv.store, DeleteBSOs(sv.store.names[r.coll], r.ids.value, Now(tm.write)));
  }

  /** A DELETE of a whole collection removes all its records and resets its stamp; only the storage is stamped. */
  lemma DeleteWhole(sv: Server, cfg: Config, r: Request, tm: Times, arrange: Arrange)
    requires DeletesCollection(sv, r) && r.ids.None?
    ensures var st, st', cid := sv.store, Next(sv, cfg, Serve(r, tm)).store, sv.store.names[r.coll];
            && Answer(sv, cfg, r, tm, arrange) == Response(200, Some(Now(tm.write)), NoBody)
            && OnlyGone(st, st', iset k: Key | k.cid == cid) && OnlyStamped(st, st', cid, 0)
            && st'.storage == Now(tm.write) && RestSame(st, st')
  {
    ApplyOne(sv.store, DeleteCollection(sv.store.names[r.coll], Now(tm.write)));
  }

  /** An invalid name, no such collection, or too many ids: nothing changes. */
  lemma DeleteRefused(sv: Server, cfg: Config, r: Request, tm: Times, arrange: Arrange)
    requires !sv.stopped && r.CollectionDelete? && r.headers == Headers("", "")
    ensures var status := Answer(sv, cfg, r, tm, arrange).status;
            && status == (if !CollectionNameOk(r.coll) then 500 else if r.coll !in sv.store.names then 404
                          else if r.ids.Some? && |r.ids.value| > cfg.maxPOSTRecords then 400 else 200)
            && (status != 200 ==> Next(sv, cfg, Serve(r, tm)).store == sv.store)
  {}

  /** Deleting everything removes every record and nothing else, not even a stamp. */
  lemma DeleteAllRecords(sv: Server, cfg: Config, tm: Times, arrange: Arrange)
    requires !sv.stopped
    ensures Answer(sv, cfg, DeleteAll, tm, arrange) == Response(200, Some(Now(tm.write)), NoBody)
    ensures var st, st' := sv.store, Next(sv, cfg, Serve(DeleteAll, tm)).store;
            st'.bsos == map[] && st'.collections == st.collections && st'.storage == st.storage && RestSame(st, st')
  {
    ApplyOne(sv.store, DeleteEverything);
  }

  // ------------------------------------------------------------ gone until written

  /** A record that is gone stays gone through operations that do not write it. */
  lemma StaysGone(st: Store, es: seq<Effect>, key: Key)
    requires key !in st.bsos && key !in Writes(st, es)
    ensures key !in ApplyAll(st, es).bsos
  {
    NotWritten(st, es, key);
  }

  lemma NotInUnlimited(sv: Server, cfg: Config, r: Request, tm: Times, arrange: Arrange, id: string)
    requires PlainGet(sv, r) && GoodParams(r.params) && IsArrangement(arrange) && Key(sv.store.names[r.coll], id) !in sv.store.bsos
    ensures forall row :: row in Unlimited(sv, cfg, r, tm, arrange) ==> row.id != id
  {
    GetReturns(sv, cfg, From(r, None, 0), tm, arrange);
  }

  lemma SliceWithin(full: seq<Row>, limit: Option<int>, k: nat, row: Row)
    requires (limit.Some? ==> limit.value >= 0) && row in Slice(full, limit, k)
    ensures row in full
  {}

  /** No GET returns a record that is not in the tables, whatever its parameters. */
  lemma NotInTables(sv: Server, cfg: Config, r: Request, tm: Times, arrange: Arrange, id: string)
    requires PlainGet(sv, r) && GoodParams(r.params) && IsArrangement(arrange) && Key(sv.store.names[r.coll], id) !in sv.store.bsos
    ensures var resp := Answer(sv, cfg, r, tm, arrange);
            resp.status == 200 && resp.body.Rows? && forall row :: row in resp.body.rows ==> row.id != id
  {
    NotInUnlimited(sv, cfg, r, tm, arrange, id);
    PageIs(sv, cfg, r, tm, arrange);
    var full := Unlimited(sv, cfg, r, tm, arrange);
    forall row | row in Slice(full, r.params.limit, r.params.offset) ensures row in full { SliceWithin(full, r.params.limit, r.params.offset, row); }
  }

  /**
    After a DELETE of a record, and any run that does not write it again, no GET of its
    collection returns it and a GET of the record is a 404.
   */
  lemma DeletedIsGone(sv: Server, cfg: Config, delete: Step, steps: seq<Step>, r: Request, tm: Times, arrange: Arrange)
    requires Inv(sv) && !sv.stopped && delete.Serve? && Enabled(sv, delete) && delete.r.BsoDelete? && delete.r.headers == Headers("", "")
    requires BSOIdOk(delete.r.id) && CollectionNameOk(delete.r.coll) && ReadableAt(sv.store, delete.r.coll, delete.r.id, Now(delete.tm.middle))
    requires ValidRun(Next(sv, cfg, delete), cfg, steps) && !Run(Next(sv, cfg, delete), cfg, steps).stopped && IsArrangement(arrange)
    requires Key(sv.store.names[delete.r.coll], delete.r.id) !in Writes(Next(sv, cfg, delete).store, Log(Next(sv, cfg, delete), cfg, steps))
    requires r.CollectionGet? && r.headers == Headers("", "") && r.coll == delete.r.coll && GoodParams(r.params)
    ensures var s2 := Run(Next(sv, cfg, delete), cfg, steps);
            var resp := Answer(s2, cfg, r, tm, arrange);
            && resp.status == 200 && resp.body.Rows? && (forall row :: row in resp.body.rows ==> row.id != delete.r.id)
            && Answer(s2, cfg, BsoGet(r.coll, delete.r.id, Headers("", "")), tm, arrange).status == 404
  {
    var s1 := Next(sv, cfg, delete);
    var s2, key := Run(s1, cfg, steps), Key(sv.store.names[delete.r.coll], delete.r.id);
    DeleteOne(sv, cfg, delete.r, delete.tm, arrange);
    assert key in iset{key};
    StepKeeps(sv, cfg, delete);
    RunKeeps(s1, cfg, steps);
    RunAppliesLog(s1, cfg, steps);
    StaysGone(s1.store, Log(s1, cfg, steps), key);
    NamesStay(s1.store, Log(s1, cfg, steps), r.coll);
    NotInTables(s2, cfg, r, tm, arrange, delete.r.id);
    GetOneReturns(s2, cfg, BsoGet(r.coll, delete.r.id, Headers("", "")), tm, arrange);
  }
}
