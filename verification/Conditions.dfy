/**
  Conditional requests: a PUT, a DELETE, a POST or a GET with X-If-Unmodified-Since or
  X-If-Modified-Since, against the stamp in the tables it is about, and what a client
  can conclude over a whole run when its request was not refused.
 */
module Conditions {
  import opened Prelude
  import opened Timestamps
  import opened Tables
  import opened Sql
  import opened Requests
  import opened Runs
  import BatchProtocol
  import opened Sync
  import opened Reads
  import Query

  // -------------------------------------------------------------- the two headers

  function IfUnmodified(seen: nat): Headers {
    Headers("", ModifiedToString(seen))
  }

  function IfModified(seen: nat): Headers {
    Headers(ModifiedToString(seen), "")
  }

  /** The same request with other headers. */
  function With(r: Request, h: Headers): Request {
    match r
    case CollectionGet(coll, _, params) => CollectionGet(coll, h, params)
    case CollectionPost(coll, _, body, batch, commit) => CollectionPost(coll, h, body, batch, commit)
    case CollectionDelete(coll, _, ids) => CollectionDelete(coll, h, ids)
    case BsoGet(coll, id, _) => BsoGet(coll, id, h)
    case BsoPut(coll, id, _, record) => BsoPut(coll, id, h, record)
    case BsoDelete(coll, id, _) => BsoDelete(coll, id, h)
    case InfoCollections(_) => InfoCollections(h)
    case DeleteAll => DeleteAll
  }

  function NoCondition(r: Request): Request {
    With(r, Headers("", ""))
  }

  lemma ReadsSigned(seen: nat)
    requires IsStamp(seen)
    ensures ModifiedToString(seen) != "" && ConvertSigned(ModifiedToString(seen)) == Some(ReadBack(seen))
  {
    TextReadsBack(seen);
  }

  lemma JudgedUnmodified(seen: nat, stamp: int)
    requires IsStamp(seen)
    ensures Judge(IfUnmodified(seen), stamp) == if stamp > ReadBack(seen) then PreconditionFailed else Proceed
  {
    ReadsSigned(seen);
  }

  lemma JudgedModified(seen: nat, stamp: int)
    requires IsStamp(seen)
    ensures Judge(IfModified(seen), stamp) == if stamp <= ReadBack(seen) then NotModified else Proceed
  {
    ReadsSigned(seen);
  }

  /** Both requests do the same: same answer, same tables after. */
  ghost predicate SameEffect(sv: Server, cfg: Config, r: Request, r0: Request, tm: Times, arrange: Arrange) {
    && Answer(sv, cfg, r, tm, arrange) == Answer(sv, cfg, r0, tm, arrange)
    && Next(sv, cfg, Serve(r, tm)).store == Next(sv, cfg, Serve(r0, tm)).store
  }

  /** The request is refused with this status and stamp, and changes nothing. */
  ghost predicate RefusedWith(sv: Server, cfg: Config, r: Request, tm: Times, arrange: Arrange, status: int, stamp: int) {
    Answer(sv, cfg, r, tm, arrange) == Response(status, Some(stamp), NoBody) && Next(sv, cfg, Serve(r, tm)).store == sv.store
  }

  // ------------------------------------------------------------------ PUT

  /** The record a PUT is about, if it is there and has not expired. */
  predicate Unexpired(st: Store, coll: string, id: string, q: int) {
    coll in st.names && Key(st.names[coll], id) in st.bsos && q < st.bsos[Key(st.names[coll], id)].ttl
  }

  function StampOfRecord(st: Store, coll: string, id: string): int
    requires coll in st.names && Key(st.names[coll], id) in st.bsos
  {
    st.bsos[Key(st.names[coll], id)].modified
  }

  lemma Made(st: Store, coll: string, tm: Times)
    requires Consistent(st)
    ensures var st1 := ApplyAll(st, Automake(st, coll, tm));
            && coll in st1.names && st1.bsos == st.bsos && st1.storage == st.storage
            && (coll in st.names ==> st1 == st)
            && (coll !in st.names ==> forall k :: k in st.bsos ==> k.cid != st1.names[coll])
  {
    if coll !in st.names {
      ApplyOne(st, CreateCollection(coll, Now(tm.create)));
      forall k | k in st.bsos ensures k.cid != st.nextCid { assert RowOk(st, k, st.bsos[k]); }
    }
  }

  /** The stamp a PUT is judged by: that of the record, or 0. */
  lemma PutJudged(st: Store, cfg: Config, r: Request, tm: Times)
    requires Consistent(st) && r.BsoPut? && BSOIdOk(r.id) && CollectionNameOk(r.coll)
    ensures var st1 := ApplyAll(st, Automake(st, r.coll, tm));
            var stamp := if Unexpired(st, r.coll, r.id, Now(tm.middle)) then StampOfRecord(st, r.coll, r.id) else 0;
            var v := Judge(r.headers, stamp);
            && (v != Proceed ==> PlanPut(st, cfg, r, tm) == Plan(Automake(st, r.coll, tm), Refusal(v, stamp)))
            && (v == Proceed ==> PlanPut(st, cfg, r, tm) == PlanPut(st, cfg, NoCondition(r), tm))
  {
    var made, stamp := Automake(st, r.coll, tm), if Unexpired(st, r.coll, r.id, Now(tm.middle)) then StampOfRecord(st, r.coll, r.id) else 0;
    var st1 := ApplyAll(st, made);
    Made(st, r.coll, tm);
    PutToJudged(st1, cfg, st1.names[r.coll], r, tm, stamp);
    assert made + [] == made;
  }

  lemma PutToJudged(st: Store, cfg: Config, cid: int, r: Request, tm: Times, stamp: int)
    requires r.BsoPut?
    requires stamp == if Key(cid, r.id) in st.bsos && Now(tm.middle) < st.bsos[Key(cid, r.id)].ttl then st.bsos[Key(cid, r.id)].modified else 0
    ensures var v := Judge(r.headers, stamp);
            && (v != Proceed ==> PlanPutTo(st, cfg, cid, r, tm) == Plan([], Refusal(v, stamp)))
            && (v == Proceed ==> PlanPutTo(st, cfg, cid, r, tm) == PlanPutTo(st, cfg, cid, NoCondition(r), tm))
  {}

  lemma PutNever412(st: Store, cfg: Config, r: Request, tm: Times)
    requires r.BsoPut?
    ensures PlanPut(st, cfg, NoCondition(r), tm).resp.status != 412 && PlanPut(st, cfg, NoCondition(r), tm).resp.status != 304
  {}

  /**
    A PUT on condition that its record has not changed since a stamp is answered with 412
    and the record's stamp, exactly if the record is there, has not expired and carries a
    stamp after what is read back; then nothing changes. Otherwise it does what it would
    do without the condition.
   */
  lemma ConditionalPut(sv: Server, cfg: Config, r: Request, tm: Times, arrange: Arrange, seen: nat)
    requires Inv(sv) && !sv.stopped && r.BsoPut? && BSOIdOk(r.id) && CollectionNameOk(r.coll)
    requires IsStamp(seen) && r.headers == IfUnmodified(seen)
    ensures var st := sv.store;
            if Unexpired(st, r.coll, r.id, Now(tm.middle)) && StampOfRecord(st, r.coll, r.id) > ReadBack(seen)
            then RefusedWith(sv, cfg, r, tm, arrange, 412, StampOfRecord(st, r.coll, r.id))
            else SameEffect(sv, cfg, r, NoCondition(r), tm, arrange) && Answer(sv, cfg, r, tm, arrange).status != 412
  {
    var stamp := if Unexpired(sv.store, r.coll, r.id, Now(tm.middle)) then StampOfRecord(sv.store, r.coll, r.id) else 0;
    PutJudged(sv.store, cfg, r, tm);
    PutNever412(sv.store, cfg, r, tm);
    JudgedUnmodified(seen, stamp);
    if stamp > ReadBack(seen) {
      PutRefused(sv, cfg, r, tm, arrange, PreconditionFailed, stamp);
    } else {
      PutSame(sv, cfg, r, tm, arrange);
    }
  }

  lemma PutSame(sv: Server, cfg: Config, r: Request, tm: Times, arrange: Arrange)
    requires !sv.stopped && r.BsoPut? && PlanPut(sv.store, cfg, r, tm) == PlanPut(sv.store, cfg, NoCondition(r), tm)
    ensures SameEffect(sv, cfg, r, NoCondition(r), tm, arrange) && Answer(sv, cfg, r, tm, arrange) == PlanPut(sv.store, cfg, r, tm).resp
  {}

  lemma PutRefused(sv: Server, cfg: Config, r: Request, tm: Times, arrange: Arrange, v: Verdict, stamp: int)
    requires !sv.stopped && r.BsoPut? && r.coll in sv.store.names && v != Proceed
    requires PlanPut(sv.store, cfg, r, tm) == Plan(Automake(sv.store, r.coll, tm), Refusal(v, stamp))
    ensures Answer(sv, cfg, r, tm, arrange) == Refusal(v, stamp) && Next(sv, cfg, Serve(r, tm)).store == sv.store
  {}

  /**
    A PUT on condition that its record has changed since a stamp is answered with 304
    exactly if it has not; a record that is not there counts as unchanged. Then no record
    and no storage stamp changes, though the collection may have been made.
   */
  lemma PutIfModified(sv: Server, cfg: Config, r: Request, tm: Times, arrange: Arrange, seen: nat)
    requires Inv(sv) && !sv.stopped && r.BsoPut? && BSOIdOk(r.id) && CollectionNameOk(r.coll)
    requires IsStamp(seen) && r.headers == IfModified(seen)
    ensures var stamp := if Unexpired(sv.store, r.coll, r.id, Now(tm.middle)) then StampOfRecord(sv.store, r.coll, r.id) else 0;
            var now := Next(sv, cfg, Serve(r, tm)).store;
            if stamp <= ReadBack(seen)
            then Answer(sv, cfg, r, tm, arrange) == Response(304, Some(stamp), NoBody) && now.bsos == sv.store.bsos && now.storage == sv.store.storage
            else SameEffect(sv, cfg, r, NoCondition(r), tm, arrange)
  {
    PutJudged(sv.store, cfg, r, tm);
    Made(sv.store, r.coll, tm);
    JudgedModified(seen, if Unexpired(sv.store, r.coll, r.id, Now(tm.middle)) then StampOfRecord(sv.store, r.coll, r.id) else 0);
  }

  // ------------------------------------------------------ GET and DELETE of one record

  /** The stamp of a record a single read finds. */
  lemma DeleteJudged(st: Store, r: Request, tm: Times)
    requires r.BsoDelete? && BSOIdOk(r.id) && CollectionNameOk(r.coll) && ReadableAt(st, r.coll, r.id, Now(tm.middle))
    ensures var stamp := StampOfRecord(st, r.coll, r.id);
            var v := Judge(r.headers, stamp);
            && (v != Proceed ==> PlanBsoDelete(st, r, tm) == Plan([], Refusal(v, stamp)))
            && (v == Proceed ==> PlanBsoDelete(st, r, tm) == PlanBsoDelete(st, NoCondition(r), tm) && PlanBsoDelete(st, r, tm).resp.status == 200)
  {}

  /**
    A DELETE of a record on condition that it has not changed since a stamp is answered
    with 412 and the record's stamp exactly if it carries a stamp after what is read
    back, and then nothing changes; otherwise it does what it would do without the condition.
   */
  lemma ConditionalDelete(sv: Server, cfg: Config, r: Request, tm: Times, arrange: Arrange, seen: nat)
    requires !sv.stopped && r.BsoDelete? && BSOIdOk(r.id) && CollectionNameOk(r.coll)
    requires IsStamp(seen) && r.headers == IfUnmodified(seen)
    ensures if ReadableAt(sv.store, r.coll, r.id, Now(tm.middle)) && StampOfRecord(sv.store, r.coll, r.id) > ReadBack(seen)
            then RefusedWith(sv, cfg, r, tm, arrange, 412, StampOfRecord(sv.store, r.coll, r.id))
            else SameEffect(sv, cfg, r, NoCondition(r), tm, arrange) && Answer(sv, cfg, r, tm, arrange).status != 412
  {
    if ReadableAt(sv.store, r.coll, r.id, Now(tm.middle)) {
      DeleteJudged(sv.store, r, tm);
      JudgedUnmodified(seen, StampOfRecord(sv.store, r.coll, r.id));
    }
  }

  lemma DeleteIfModified(sv: Server, cfg: Config, r: Request, tm: Times, arrange: Arrange, seen: nat)
    requires !sv.stopped && r.BsoDelete? && BSOIdOk(r.id) && CollectionNameOk(r.coll)
    requires IsStamp(seen) && r.headers == IfModified(seen)
    ensures if ReadableAt(sv.store, r.coll, r.id, Now(tm.middle)) && StampOfRecord(sv.store, r.coll, r.id) <= ReadBack(seen)
            then RefusedWith(sv, cfg, r, tm, arrange, 304, StampOfRecord(sv.store, r.coll, r.id))
            else SameEffect(sv, cfg, r, NoCondition(r), tm, arrange)
  {
    if ReadableAt(sv.store, r.coll, r.id, Now(tm.middle)) {
      DeleteJudged(sv.store, r, tm);
      JudgedModified(seen, StampOfRecord(sv.store, r.coll, r.id));
    }
  }

  /** A GET of one record: 304 or 412 by its stamp, else the record as without the condition. */
  lemma ConditionalGetOne(sv: Server, cfg: Config, r: Request, tm: Times, arrange: Arrange, seen: nat)
    requires !sv.stopped && r.BsoGet? && BSOIdOk(r.id) && CollectionNameOk(r.coll) && IsStamp(seen)
    requires ReadableAt(sv.store, r.coll, r.id, Now(tm.middle))
    ensures var stamp := StampOfRecord(sv.store, r.coll, r.id);
            && (r.headers == IfModified(seen) ==>
                  Answer(sv, cfg, r, tm, arrange) ==
                  if stamp <= ReadBack(seen) then Response(304, Some(stamp), NoBody) else Answer(sv, cfg, NoCondition(r), tm, arrange))
            && (r.headers == IfUnmodified(seen) ==>
                  Answer(sv, cfg, r, tm, arrange) ==
                  if stamp > ReadBack(seen) then Response(412, Some(stamp), NoBody) else Answer(sv, cfg, NoCondition(r), tm, arrange))
  {
    JudgedModified(seen, StampOfRecord(sv.store, r.coll, r.id));
    JudgedUnmodified(seen, StampOfRecord(sv.store, r.coll, r.id));
  }

  // ------------------------------------------------------------- whole collections

  /** A request about a whole collection that reaches its condition. */
  ghost predicate AboutCollection(sv: Server, r: Request) {
    && !sv.stopped && (r.CollectionGet? || r.CollectionPost? || r.CollectionDelete?)
    && CollectionNameOk(r.coll) && r.coll in sv.store.names
    && (r.CollectionGet? ==> GoodParams(r.params))
  }

  lemma CollectionJudged(sv: Server, cfg: Config, r: Request, tm: Times, arrange: Arrange)
    requires AboutCollection(sv, r)
    ensures var stamp := CollectionStamp(sv.store, sv.store.names[r.coll]);
            var v := Judge(r.headers, stamp);
            && (v != Proceed ==> PlanRequest(sv.store, cfg, r, tm, arrange) == Plan([], Refusal(v, stamp)))
            && (v == Proceed ==> PlanRequest(sv.store, cfg, r, tm, arrange) == PlanRequest(sv.store, cfg, NoCondition(r), tm, arrange))
  {
    if r.CollectionPost? {
      PostJudged(sv.store, cfg, r, tm);
    } else if r.CollectionGet? {
      GetJudged(sv.store, r, tm, arrange);
    }
  }

  lemma GetJudged(st: Store, r: Request, tm: Times, arrange: Arrange)
    requires r.CollectionGet? && CollectionNameOk(r.coll) && r.coll in st.names && GoodParams(r.params)
    ensures var stamp := CollectionStamp(st, st.names[r.coll]);
            var v := Judge(r.headers, stamp);
            && (v != Proceed ==> GetCollection(st, r, tm, arrange) == Refusal(v, stamp))
            && (v == Proceed ==> GetCollection(st, r, tm, arrange) == GetCollection(st, NoCondition(r), tm, arrange))
  {
    BoundsOk(r.params);
  }

  lemma PostJudged(st: Store, cfg: Config, r: Request, tm: Times)
    requires r.CollectionPost? && CollectionNameOk(r.coll) && r.coll in st.names
    ensures var stamp := CollectionStamp(st, st.names[r.coll]);
            var v := Judge(r.headers, stamp);
            && (v != Proceed ==> PlanPost(st, cfg, r, tm) == Plan([], Refusal(v, stamp)))
            && (v == Proceed ==> PlanPost(st, cfg, r, tm) == PlanPost(st, cfg, NoCondition(r), tm))
  {
    assert Automake(st, r.coll, tm) == [] && ApplyAll(st, []) == st;
  }

  /** Effects do not depend on the order of rows. */
  lemma EffectsAnyOrder(st: Store, cfg: Config, r: Request, tm: Times, arrange: Arrange)
    ensures PlanRequest(st, cfg, r, tm, arrange).effects == PlanRequest(st, cfg, r, tm, AnyOrder).effects
  {}

  /** The collection's stamp after a run, compared with what is read back of a stamp the client saw. */
  lemma StampAfterRun(sv: Server, cfg: Config, steps: seq<Step>, coll: string, seen: nat)
    requires Inv(sv) && ValidRun(sv, cfg, steps) && coll in sv.store.names && seen <= StampLimit(sv)
    ensures var now, cid := Run(sv, cfg, steps).store, sv.store.names[coll];
            && coll in now.names && now.names[coll] == cid
            && (CollectionStamp(now, cid) > ReadBack(seen) <==> Refused(seen, CollectionStamp(sv.store, cid), LastMark(Log(sv, cfg, steps), cid)))
  {
    RunKeeps(sv, cfg, steps);
    RunAppliesLog(sv, cfg, steps);
    NamesStay(sv.store, Log(sv, cfg, steps), coll);
    StampAfter(sv.store, Log(sv, cfg, steps), sv.store.names[coll], seen);
  }

  /**
    A GET, a POST or a DELETE of a collection after any run. On condition that nothing
    changed since a stamp the client saw it is refused with 412 exactly if the last thing
    to move the collection's stamp was a write, or nothing moved it and it was newer
    already; on condition that something changed it is refused with 304 exactly
    otherwise. When it is not refused it does what it would do without the condition.
   */
  lemma CollectionConditions(sv: Server, cfg: Config, steps: seq<Step>, r: Request, tm: Times, arrange: Arrange, seen: nat)
    requires Inv(sv) && ValidRun(sv, cfg, steps) && AboutCollection(Run(sv, cfg, steps), r) && r.coll in sv.store.names
    requires IsStamp(seen) && seen <= StampLimit(sv)
    ensures var s2, cid := Run(sv, cfg, steps), sv.store.names[r.coll];
            var stamp := CollectionStamp(s2.store, cid);
            var newer := Refused(seen, CollectionStamp(sv.store, cid), LastMark(Log(sv, cfg, steps), cid));
            && (r.headers == IfUnmodified(seen) ==>
                  if newer then RefusedWith(s2, cfg, r, tm, arrange, 412, stamp) else SameEffect(s2, cfg, r, NoCondition(r), tm, arrange))
            && (r.headers == IfModified(seen) ==>
                  if newer then SameEffect(s2, cfg, r, NoCondition(r), tm, arrange) else RefusedWith(s2, cfg, r, tm, arrange, 304, stamp))
  {
    var s2, cid := Run(sv, cfg, steps), sv.store.names[r.coll];
    StampAfterRun(sv, cfg, steps, r.coll, seen);
    if r.headers == IfUnmodified(seen) { CollectionIfUnmodified(s2, cfg, r, tm, arrange, seen, CollectionStamp(s2.store, cid)); }
    if r.headers == IfModified(seen) { CollectionIfModified(s2, cfg, r, tm, arrange, seen, CollectionStamp(s2.store, cid)); }
  }

  lemma CollectionIfUnmodified(sv: Server, cfg: Config, r: Request, tm: Times, arrange: Arrange, seen: nat, stamp: int)
    requires AboutCollection(sv, r) && IsStamp(seen) && r.headers == IfUnmodified(seen) && stamp == CollectionStamp(sv.store, sv.store.names[r.coll])
    ensures if stamp > ReadBack(seen) then RefusedWith(sv, cfg, r, tm, arrange, 412, stamp) else SameEffect(sv, cfg, r, NoCondition(r), tm, arrange)
  {
    CollectionJudged(sv, cfg, r, tm, arrange);
    EffectsAnyOrder(sv.store, cfg, r, tm, arrange);
    EffectsAnyOrder(sv.store, cfg, NoCondition(r), tm, arrange);
    JudgedUnmodified(seen, stamp);
  }

  lemma CollectionIfModified(sv: Server, cfg: Config, r: Request, tm: Times, arrange: Arrange, seen: nat, stamp: int)
    requires AboutCollection(sv, r) && IsStamp(seen) && r.headers == IfModified(seen) && stamp == CollectionStamp(sv.store, sv.store.names[r.coll])
    ensures if stamp <= ReadBack(seen) then RefusedWith(sv, cfg, r, tm, arrange, 304, stamp) else SameEffect(sv, cfg, r, NoCondition(r), tm, arrange)
  {
    CollectionJudged(sv, cfg, r, tm, arrange);
    EffectsAnyOrder(sv.store, cfg, r, tm, arrange);
    EffectsAnyOrder(sv.store, cfg, NoCondition(r), tm, arrange);
    JudgedModified(seen, stamp);
  }

  /** info/collections is judged by the storage stamp. */
  lemma InfoConditions(sv: Server, cfg: Config, r: Request, tm: Times, arrange: Arrange, seen: nat)
    requires !sv.stopped && r.InfoCollections? && IsStamp(seen)
    ensures r.headers == IfModified(seen) ==>
              Answer(sv, cfg, r, tm, arrange) ==
              if sv.store.storage <= ReadBack(seen) then Response(304, Some(sv.store.storage), NoBody) else Answer(sv, cfg, NoCondition(r), tm, arrange)
    ensures r.headers == IfUnmodified(seen) ==>
              Answer(sv, cfg, r, tm, arrange) ==
              if sv.store.storage > ReadBack(seen) then Response(412, Some(sv.store.storage), NoBody) else Answer(sv, cfg, NoCondition(r), tm, arrange)
  {
    JudgedModified(seen, sv.store.storage);
    JudgedUnmodified(seen, sv.store.storage);
  }

  // ------------------------------------------------------- what a client concludes

  predicate SameContent(a: Bso, b: Bso) {
    a.payload == b.payload && a.sortIndex == b.sortIndex && a.modified == b.modified
  }

  /** The operation deletes this record. */
  predicate Removes(e: Effect, key: Key) {
    match e
    case DeleteBSOs(cid, ids, _) => cid == key.cid && key.id in ids
    case DeleteCollection(cid, _) => cid == key.cid
    case DeleteEverything => true
    case _ => false
  }

  lemma {:induction false} NotWrittenRows(bsos: map<Key, Bso>, cid: int, inputs: seq<PutInput>, now: int, key: Key)
    requires key !in ContentWrites(bsos, cid, inputs, now)
    ensures key in PutRows(bsos, cid, inputs, now) <==> key in bsos
    ensures key in bsos ==> SameContent(bsos[key], PutRows(bsos, cid, inputs, now)[key])
  {
    if inputs != [] { NotWrittenRows(bsos, cid, inputs[..|inputs| - 1], now, key); }
  }

  lemma NotWrittenOne(st: Store, e: Effect, key: Key)
    requires key !in EffectWrites(st, e)
    ensures key in Apply(st, e).bsos ==> key in st.bsos && SameContent(st.bsos[key], Apply(st, e).bsos[key]) && !Removes(e, key)
  {
    if e.PostBSOs? { NotWrittenRows(st.bsos, e.cid, e.inputs, e.now, key); }
  }

  lemma {:induction false} NotWritten(st: Store, es: seq<Effect>, key: Key)
    requires key !in Writes(st, es)
    ensures key in ApplyAll(st, es).bsos ==>
              key in st.bsos && SameContent(st.bsos[key], ApplyAll(st, es).bsos[key]) && forall e :: e in es ==> !Removes(e, key)
    decreases |es|
  {
    if es != [] {
      var st' := Apply(st, es[0]);
      ApplyCons(st, es[0], es[1..]);
      assert es == [es[0]] + es[1..];
      NotWritten(st', es[1..], key);
      NotWrittenOne(st, es[0], key);
      assert forall e :: e in es ==> e == es[0] || e in es[1..];
    }
  }

  /** Records that already carry a stamp after this one. */
  function NewerAlready(bsos: map<Key, Bso>, ts: int): set<Key> {
    set k | k in bsos && bsos[k].modified > ts
  }

  /**
    A record that after a run carries no stamp after one the server had given out before
    it: it was there before with the same content, and nothing in between gave it content
    or deleted it.
   */
  lemma UnchangedSince(sv: Server, cfg: Config, steps: seq<Step>, key: Key, seen: int)
    requires Inv(sv) && ValidRun(sv, cfg, steps) && seen <= StampLimit(sv)
    requires key in Run(sv, cfg, steps).store.bsos && Run(sv, cfg, steps).store.bsos[key].modified <= seen
    ensures var now, log := Run(sv, cfg, steps).store, Log(sv, cfg, steps);
            && key in sv.store.bsos && SameContent(sv.store.bsos[key], now.bsos[key])
            && key !in Writes(sv.store, log) && forall e :: e in log ==> !Removes(e, key)
  {
    var log, already := Log(sv, cfg, steps), NewerAlready(sv.store.bsos, seen);
    RunKeeps(sv, cfg, steps);
    RunAppliesLog(sv, cfg, steps);
    EffectsNewer(sv.store, log, key.cid, seen, already);
    NotWritten(sv.store, log, key);
  }

  /**
    Conditional PUTs are safe: if after a run a PUT conditional on a stamp the client saw
    is not refused, and its record is there unexpired, then nothing in the run gave the
    record content or deleted it, and its content is what it was.
   */
  lemma ConditionalPutSafe(sv: Server, cfg: Config, steps: seq<Step>, r: Request, tm: Times, arrange: Arrange, seen: nat)
    requires Inv(sv) && ValidRun(sv, cfg, steps) && !Run(sv, cfg, steps).stopped
    requires r.BsoPut? && BSOIdOk(r.id) && CollectionNameOk(r.coll)
    requires IsStamp(seen) && seen <= StampLimit(sv) && r.headers == IfUnmodified(seen)
    requires Answer(Run(sv, cfg, steps), cfg, r, tm, arrange).status != 412
    requires Unexpired(Run(sv, cfg, steps).store, r.coll, r.id, Now(tm.middle))
    ensures var now, log := Run(sv, cfg, steps).store, Log(sv, cfg, steps);
            var key := Key(now.names[r.coll], r.id);
            && key in sv.store.bsos && SameContent(sv.store.bsos[key], now.bsos[key])
            && key !in Writes(sv.store, log) && forall e :: e in log ==> !Removes(e, key)
  {
    var s2 := Run(sv, cfg, steps);
    RunKeeps(sv, cfg, steps);
    ConditionalPut(s2, cfg, r, tm, arrange, seen);
    UnchangedSince(sv, cfg, steps, Key(s2.store.names[r.coll], r.id), seen);
  }

  /** The same for a DELETE of a record that is still readable. */
  lemma ConditionalDeleteSafe(sv: Server, cfg: Config, steps: seq<Step>, r: Request, tm: Times, arrange: Arrange, seen: nat)
    requires Inv(sv) && ValidRun(sv, cfg, steps) && !Run(sv, cfg, steps).stopped
    requires r.BsoDelete? && BSOIdOk(r.id) && CollectionNameOk(r.coll)
    requires IsStamp(seen) && seen <= StampLimit(sv) && r.headers == IfUnmodified(seen)
    requires Answer(Run(sv, cfg, steps), cfg, r, tm, arrange).status != 412
    requires ReadableAt(Run(sv, cfg, steps).store, r.coll, r.id, Now(tm.middle))
    ensures var now, log := Run(sv, cfg, steps).store, Log(sv, cfg, steps);
            var key := Key(now.names[r.coll], r.id);
            && key in sv.store.bsos && SameContent(sv.store.bsos[key], now.bsos[key])
            && key !in Writes(sv.store, log) && forall e :: e in log ==> !Removes(e, key)
  {
    var s2 := Run(sv, cfg, steps);
    ConditionalDelete(s2, cfg, r, tm, arrange, seen);
    UnchangedSince(sv, cfg, steps, Key(s2.store.names[r.coll], r.id), seen);
  }

  // -------------------------------------------------------- collections not there

  /**
    The first POST to a collection is judged by the stamp its own request gave it: on
    condition that nothing changed since any stamp the client can have seen, it is answered
    with 412, and the collection is there, empty, from then on.
   */
  lemma FirstPostRefused(sv: Server, cfg: Config, r: Request, tm: Times, arrange: Arrange, seen: nat)
    requires Inv(sv) && !sv.stopped && Enabled(sv, Serve(r, tm)) && r.CollectionPost? && CollectionNameOk(r.coll) && r.coll !in sv.store.names
    requires IsStamp(seen) && seen <= StampLimit(sv) && r.headers == IfUnmodified(seen)
    ensures var st, st' := sv.store, Next(sv, cfg, Serve(r, tm)).store;
            && Answer(sv, cfg, r, tm, arrange) == Response(412, Some(Now(tm.create)), NoBody)
            && r.coll in st'.names && CollectionStamp(st', st'.names[r.coll]) == Now(tm.create)
            && st'.bsos == st.bsos && st'.storage == st.storage && st'.batches == st.batches
            && forall k :: k in st'.bsos ==> k.cid != st'.names[r.coll]
  {
    var st1 := ApplyAll(sv.store, Automake(sv.store, r.coll, tm));
    ApplyOne(sv.store, CreateCollection(r.coll, Now(tm.create)));
    Made(sv.store, r.coll, tm);
    BatchProtocol.MadePlan(sv.store, cfg, r, tm);
    PostJudged(st1, cfg, r, tm);
    DelayExceedsLimit(sv, r, tm);
    JudgedUnmodified(seen, Now(tm.create));
  }

  // ------------------------------------------------------------------ bad conditions

  predicate BadNumber(text: string) {
    text != "" && (ConvertSigned(text).None? || ConvertSigned(text).value < 0)
  }

  /** Two conditions at once, or one that is not a number from 0 on. */
  predicate BadCondition(h: Headers) {
    (h.modifiedSince != "" && h.unmodifiedSince != "") || BadNumber(h.modifiedSince) || BadNumber(h.unmodifiedSince)
  }

  lemma BadJudged(h: Headers, stamp: int)
    ensures Judge(h, stamp) == BadHeader <==> BadCondition(h)
  {}

  /** Every request that comes as far as its condition is refused with 400 for a bad one, and changes no record and no stamp. */
  lemma BadConditionsRefused(sv: Server, cfg: Config, r: Request, tm: Times, arrange: Arrange)
    requires Inv(sv) && !sv.stopped && !r.DeleteAll? && BadCondition(r.headers)
    requires r.InfoCollections? || AboutCollection(sv, r) || (!r.CollectionGet? && !r.CollectionPost? && !r.CollectionDelete? && CollectionNameOk(r.coll) && BSOIdOk(r.id))
    requires r.BsoGet? || r.BsoDelete? ==> ReadableAt(sv.store, r.coll, r.id, Now(tm.middle))
    ensures var st, st' := sv.store, Next(sv, cfg, Serve(r, tm)).store;
            && Answer(sv, cfg, r, tm, arrange) == Response(400, None, NoBody)
            && st'.bsos == st.bsos && st'.storage == st.storage && st'.batches == st.batches && (!r.BsoPut? ==> st' == st)
  {
    if r.BsoPut? {
      var st1, stamp := ApplyAll(sv.store, Automake(sv.store, r.coll, tm)), if Unexpired(sv.store, r.coll, r.id, Now(tm.middle)) then StampOfRecord(sv.store, r.coll, r.id) else 0;
      PutJudged(sv.store, cfg, r, tm);
      BadJudged(r.headers, stamp);
      if r.coll !in sv.store.names { ApplyOne(sv.store, CreateCollection(r.coll, Now(tm.create))); }
    } else if r.BsoDelete? {
      DeleteJudged(sv.store, r, tm);
      BadJudged(r.headers, StampOfRecord(sv.store, r.coll, r.id));
    } else if r.BsoGet? {
      BadJudged(r.headers, StampOfRecord(sv.store, r.coll, r.id));
    } else if r.InfoCollections? {
      BadJudged(r.headers, sv.store.storage);
    } else {
      BadJudged(r.headers, CollectionStamp(sv.store, sv.store.names[r.coll]));
      CollectionJudged(sv, cfg, r, tm, arrange);
      EffectsAnyOrder(sv.store, cfg, r, tm, arrange);
    }
  }
}
