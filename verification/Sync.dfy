/**
  What clients rely on: fetching what is newer than a stamp they saw, and writing on
  condition that nothing was written since.
 */
module Sync {
  import opened Prelude
  import opened Timestamps
  import opened Tables
  import opened Sql
  import opened Requests
  import opened Runs
  import Query
  import Records
  import BatchLines

  // ----------------------------------------------------------- what was written

  /** The records an operation inserts, or gives a payload or a sort index. */
  function EffectWrites(st: Store, e: Effect): set<Key> {
    match e
    case PostBSOs(cid, inputs, now) => ContentWrites(st.bsos, cid, inputs, now)
    case _ => {}
  }

  /** The records written anywhere in a sequence of operations. */
  function Writes(st: Store, es: seq<Effect>): set<Key>
    decreases |es|
  {
    if es == [] then {} else EffectWrites(st, es[0]) + Writes(Apply(st, es[0]), es[1..])
  }

  /** In a collection, exactly the records in `written` carry a stamp after ts. */
  ghost predicate NewerIs(bsos: map<Key, Bso>, cid: int, ts: int, written: set<Key>) {
    forall k :: k in bsos && k.cid == cid ==> (bsos[k].modified > ts <==> k in written)
  }

  lemma {:induction false} PutRowsNewer(bsos: map<Key, Bso>, c: int, inputs: seq<PutInput>, now: int, cid: int, ts: int, written: set<Key>)
    requires NewerIs(bsos, cid, ts, written) && now > ts
    ensures NewerIs(PutRows(bsos, c, inputs, now), cid, ts, written + ContentWrites(bsos, c, inputs, now))
  {
    if inputs != [] {
      var n := |inputs| - 1;
      PutRowsNewer(bsos, c, inputs[..n], now, cid, ts, written);
      var rows := PutRows(bsos, c, inputs[..n], now);
      PutRowNewer(rows, c, inputs[n], now, cid, ts, written + ContentWrites(bsos, c, inputs[..n], now));
    }
  }

  lemma PutRowNewer(rows: map<Key, Bso>, c: int, input: PutInput, now: int, cid: int, ts: int, written: set<Key>)
    requires NewerIs(rows, cid, ts, written) && now > ts
    ensures NewerIs(PutRow(rows, c, input, now), cid, ts,
                    written + if WritesContent(rows, c, input) then {Key(c, input.id)} else {})
  {}

  lemma EffectNewer(st: Store, e: Effect, cid: int, ts: int, written: set<Key>)
    requires NewerIs(st.bsos, cid, ts, written) && (Stamps(e) ==> e.now > ts)
    ensures NewerIs(Apply(st, e).bsos, cid, ts, written + EffectWrites(st, e))
  {
    match e
    case PostBSOs(c, inputs, now) => PutRowsNewer(st.bsos, c, inputs, now, cid, ts, written);
    case _ =>
  }

  lemma {:induction false} EffectsNewer(st: Store, es: seq<Effect>, cid: int, ts: int, written: set<Key>)
    requires NewerIs(st.bsos, cid, ts, written)
    requires forall e :: e in es && Stamps(e) ==> e.now > ts
    ensures NewerIs(ApplyAll(st, es).bsos, cid, ts, written + Writes(st, es))
    decreases |es|
  {
    if es == [] {
      assert written + {} == written;
    } else {
      var st' := Apply(st, es[0]);
      EffectNewer(st, es[0], cid, ts, written);
      EffectsNewer(st', es[1..], cid, ts, written + EffectWrites(st, es[0]));
      ApplyCons(st, es[0], es[1..]);
      assert es == [es[0]] + es[1..];
      assert written + EffectWrites(st, es[0]) + Writes(st', es[1..]) == written + Writes(st, es);
    }
  }

  // ------------------------------------------------------------ incremental GET

  /** The live records of a collection that were written during a run. */
  function Changed(st: Store, cid: int, cutoff: int, written: set<Key>): set<Row> {
    set k | k in st.bsos && k.cid == cid && st.bsos[k].ttl > cutoff && k in written :: ToRow(k.id, st.bsos[k])
  }

  function NewerThan(coll: string, ts: nat, sort: SortType): Request {
    CollectionGet(coll, Headers("", ""), GetParams([], "", ModifiedToString(ts), None, 0, sort))
  }

  /** After any run, a record's stamp is after what the client saw exactly when it was written since. */
  lemma NewerIsWritten(sv: Server, cfg: Config, steps: seq<Step>, cid: int, ts: int)
    requires Inv(sv) && ValidRun(sv, cfg, steps)
    requires cid in sv.store.collections && sv.store.collections[cid].modified <= ts <= StampLimit(sv)
    ensures NewerIs(Run(sv, cfg, steps).store.bsos, cid, ts, Writes(sv.store, Log(sv, cfg, steps)))
  {
    var log := Log(sv, cfg, steps);
    RunKeeps(sv, cfg, steps);
    RunAppliesLog(sv, cfg, steps);
    NothingNewer(sv.store, cid, ts);
    EffectsNewer(sv.store, log, cid, ts, {});
    assert {} + Writes(sv.store, log) == Writes(sv.store, log);
  }

  lemma NothingNewer(st: Store, cid: int, ts: int)
    requires Consistent(st) && cid in st.collections && st.collections[cid].modified <= ts
    ensures NewerIs(st.bsos, cid, ts, {})
  {
    forall k | k in st.bsos && k.cid == cid ensures st.bsos[k].modified <= ts { assert RowOk(st, k, st.bsos[k]); }
  }

  /** A stamp as the server gives them out. */
  predicate IsStamp(ts: int) {
    0 <= ts < 0x80000000000 * 1000 && ts % 10 == 0
  }

  /** What the server understands when a client sends a stamp back. */
  function ReadBack(ts: nat): nat {
    if Echoes(ts) || ts == 0 then ts else ts - 1
  }

  lemma TextReadsBack(ts: nat)
    requires IsStamp(ts)
    ensures ConvertTimestamp(ModifiedToString(ts)) == Some(ReadBack(ts)) && ModifiedToString(ts) != ""
  {
    if Echoes(ts) { EchoedStamp(ts); } else { RoundTrip(ts); }
    PrintsHundredths(ts);
    assert |Hundredths(ts / 10)| >= 3;
  }

  /** The records that carry exactly this stamp. */
  function StampedAt(bsos: map<Key, Bso>, ts: int): set<Key> {
    set k | k in bsos && bsos[k].modified == ts
  }

  /** What a GET for newer records returns beyond the new ones: those of the client's own stamp, if it is read back short. */
  function Repeated(bsos: map<Key, Bso>, ts: nat): set<Key> {
    if Echoes(ts) then {} else StampedAt(bsos, ts)
  }

  /**
    Incremental sync is exact: after any run, a GET for what is newer than a stamp the
    client saw returns each live record written during the run once. Beyond those it
    returns nothing, except that for a stamp that is read back one millisecond short it
    returns the records of that stamp again. The stamp may be the collection's, or any
    later one the server had given out.
   */
  lemma IncrementalSyncExact(sv: Server, cfg: Config, steps: seq<Step>, coll: string, ts: nat, sort: SortType, tm: Times, arrange: Arrange)
    requires Inv(sv) && ValidRun(sv, cfg, steps)
    requires CollectionNameOk(coll) && coll in sv.store.names
    requires CollectionStamp(sv.store, sv.store.names[coll]) <= ts <= StampLimit(sv) && ts % 10 == 0
    requires StampLimit(Run(sv, cfg, steps)) < MAX_TIMESTAMP && IsArrangement(arrange)
    ensures var now := Run(sv, cfg, steps).store;
            var cid := sv.store.names[coll];
            var resp := GetCollection(now, NewerThan(coll, ts, sort), tm, arrange);
            var written := Writes(sv.store, Log(sv, cfg, steps)) + Repeated(now.bsos, ts);
            && resp.status == 200 && resp.lastModified == Some(CollectionStamp(now, cid))
            && resp.body.Rows? && resp.body.next == None
            && multiset(resp.body.rows) == multiset(Changed(now, cid, Now(tm.middle), written))
  {
    var cid, s1, written := sv.store.names[coll], Run(sv, cfg, steps), Writes(sv.store, Log(sv, cfg, steps));
    RunKeeps(sv, cfg, steps);
    RunAppliesLog(sv, cfg, steps);
    NamesStay(sv.store, Log(sv, cfg, steps), coll);
    NewerIsWritten(sv, cfg, steps, cid, ts);
    NewerThanReadBack(s1.store.bsos, cid, ts, written);
    TextReadsBack(ts);
    GetNewer(s1.store, coll, ReadBack(ts), ModifiedToString(ts), sort, tm, arrange, written + Repeated(s1.store.bsos, ts), StampLimit(s1));
  }

  lemma NewerThanReadBack(bsos: map<Key, Bso>, cid: int, ts: nat, written: set<Key>)
    requires NewerIs(bsos, cid, ts, written)
    ensures NewerIs(bsos, cid, ReadBack(ts), written + Repeated(bsos, ts))
  {}

  /** The GET itself, on any consistent store. */
  lemma GetNewer(st: Store, coll: string, ts: nat, text: string, sort: SortType, tm: Times, arrange: Arrange, written: set<Key>, limit: int)
    requires Consistent(st) && StampedBy(st, limit) && limit < MAX_TIMESTAMP && IsArrangement(arrange)
    requires CollectionNameOk(coll) && coll in st.names
    requires text != "" && ConvertTimestamp(text) == Some(ts)
    requires NewerIs(st.bsos, st.names[coll], ts, written)
    ensures var resp := GetCollection(st, CollectionGet(coll, Headers("", ""), GetParams([], "", text, None, 0, sort)), tm, arrange);
            && resp.status == 200 && resp.lastModified == Some(CollectionStamp(st, st.names[coll]))
            && resp.body.Rows? && resp.body.next == None
            && multiset(resp.body.rows) == multiset(Changed(st, st.names[coll], Now(tm.middle), written))
  {
    var r := CollectionGet(coll, Headers("", ""), GetParams([], "", text, None, 0, sort));
    var search := Query.Search(st.names[coll], [], MAX_TIMESTAMP, ts, sort, Now(tm.middle));
    FoundIsChanged(st, search, written, limit);
    assert ParseBounds(r.params) == Some((MAX_TIMESTAMP, ts));
    var full := arrange(Query.Found(st.bsos, search), sort);
    assert multiset(full) == multiset(Query.Found(st.bsos, search));
    assert full[0..] == full;
    assert Query.GetBSOs(st.bsos, search, -1, 0, arrange) == Ok(Query.GetResults(full, false, 0));
  }

  lemma FoundIsChanged(st: Store, s: Query.Search, written: set<Key>, limit: int)
    requires Consistent(st) && StampedBy(st, limit) && limit < s.older && s.ids == []
    requires NewerIs(st.bsos, s.cid, s.newer, written)
    ensures Query.Found(st.bsos, s) == Changed(st, s.cid, s.cutoff, written)
  {
    forall k | k in st.bsos
      ensures Query.Selected(s, k, st.bsos[k]) <==> k.cid == s.cid && st.bsos[k].ttl > s.cutoff && k in written
    {
      assert RowOk(st, k, st.bsos[k]);
    }
  }

  /** Collections are never removed or renamed. */
  lemma {:induction false} NamesStay(st: Store, es: seq<Effect>, coll: string)
    requires coll in st.names
    ensures coll in ApplyAll(st, es).names && ApplyAll(st, es).names[coll] == st.names[coll]
  {
    if es != [] {
      NamesStay(st, es[..|es| - 1], coll);
    }
  }

  // ---------------------------------------------------------- conditional POST

  datatype Mark = Untouched | Touched | Reset

  function Moves(e: Effect, cid: int): Mark {
    match e
    case PostBSOs(c, _, _) => if c == cid then Touched else Untouched
    case DeleteBSOs(c, _, _) => if c == cid then Touched else Untouched
    case DeleteCollection(c, _) => if c == cid then Reset else Untouched
    case _ => Untouched
  }

  /** The last operation that moved a collection's stamp: a write, or a whole-collection delete. */
  function LastMark(es: seq<Effect>, cid: int): Mark {
    if es == [] then Untouched
    else if Moves(es[|es| - 1], cid) != Untouched then Moves(es[|es| - 1], cid)
    else LastMark(es[..|es| - 1], cid)
  }

  lemma StampAfterOne(st: Store, e: Effect, cid: int)
    requires cid in st.collections && cid < st.nextCid
    ensures cid in Apply(st, e).collections && cid < Apply(st, e).nextCid
    ensures match Moves(e, cid)
            case Untouched => CollectionStamp(Apply(st, e), cid) == CollectionStamp(st, cid)
            case Touched => Stamps(e) && CollectionStamp(Apply(st, e), cid) == e.now
            case Reset => CollectionStamp(Apply(st, e), cid) == 0
  {}

  lemma {:induction false} StampAfter(st: Store, es: seq<Effect>, cid: int, ts: int)
    requires cid in st.collections && cid < st.nextCid
    requires forall e :: e in es && Stamps(e) ==> e.now > ts
    ensures cid in ApplyAll(st, es).collections && cid < ApplyAll(st, es).nextCid
    ensures match LastMark(es, cid)
            case Untouched => CollectionStamp(ApplyAll(st, es), cid) == CollectionStamp(st, cid)
            case Touched => CollectionStamp(ApplyAll(st, es), cid) > ts
            case Reset => CollectionStamp(ApplyAll(st, es), cid) == 0
  {
    if es != [] {
      var n := |es| - 1;
      assert forall e :: e in es[..n] ==> e in es;
      StampAfter(st, es[..n], cid, ts);
      assert es[n] in es;
      StampAfterOne(ApplyAll(st, es[..n]), es[n], cid);
    }
  }

  /** The same POST without its condition. */
  function Unconditional(r: Request): Request
    requires r.CollectionPost?
  {
    CollectionPost(r.coll, Headers("", ""), r.body, r.batch, r.commit)
  }

  /**
    Whether a POST conditional on a stamp is refused, from what moved the collection's
    stamp since the client's read and, if nothing did, from what that stamp was.
   */
  predicate Refused(seen: nat, stamp: int, mark: Mark) {
    mark == Touched || (mark == Untouched && stamp > ReadBack(seen))
  }

  /**
    A POST on condition that nothing changed since a stamp the client saw, the
    collection's own or any other the server had given out, is refused with 412 exactly
    when the last thing to move the collection's stamp since then was a put, post, commit
    or delete by id, or when nothing moved it and it already was newer than what is read
    back. Otherwise it does what it would do without the condition. A whole-collection
    delete resets the stamp, so it hides earlier writes.
   */
  lemma ConditionalPostExact(sv: Server, cfg: Config, steps: seq<Step>, r: Request, tm: Times, seen: nat)
    requires Inv(sv) && ValidRun(sv, cfg, steps)
    requires r.CollectionPost? && CollectionNameOk(r.coll) && r.coll in sv.store.names
    requires IsStamp(seen) && seen <= StampLimit(sv) && r.headers == Headers("", ModifiedToString(seen))
    ensures var now := Run(sv, cfg, steps).store;
            var cid := sv.store.names[r.coll];
            PlanPost(now, cfg, r, tm) ==
            if Refused(seen, CollectionStamp(sv.store, cid), LastMark(Log(sv, cfg, steps), cid))
            then Plan([], Response(412, Some(CollectionStamp(now, cid)), NoBody))
            else PlanPost(now, cfg, Unconditional(r), tm)
  {
    var cid, log := sv.store.names[r.coll], Log(sv, cfg, steps);
    RunKeeps(sv, cfg, steps);
    RunAppliesLog(sv, cfg, steps);
    NamesStay(sv.store, log, r.coll);
    StampAfter(sv.store, log, cid, seen);
    TextReadsBack(seen);
    ConditionDecides(Run(sv, cfg, steps).store, cfg, r, tm, ModifiedToString(seen), ReadBack(seen));
  }

  /** What a client can have seen: the storage stamp and every collection's are such stamps. */
  lemma StampsAreSeen(sv: Server, cid: int)
    requires Inv(sv) && cid in sv.store.collections && StampLimit(sv) < 0x80000000000 * 1000
    ensures IsStamp(sv.store.storage) && sv.store.storage <= StampLimit(sv)
    ensures IsStamp(CollectionStamp(sv.store, cid)) && CollectionStamp(sv.store, cid) <= StampLimit(sv)
  {
    assert StampTo(sv.store.collections[cid].modified, StampLimit(sv));
  }

  /**
    Conditional writes are safe, for every stamp the server had given out: if such a POST
    is not refused, and the collection was not deleted whole in between, then no put,
    post, commit or delete by id hit the collection since the client's read.
   */
  lemma ConditionalPostSafe(sv: Server, cfg: Config, steps: seq<Step>, r: Request, tm: Times, seen: nat)
    requires Inv(sv) && ValidRun(sv, cfg, steps)
    requires r.CollectionPost? && CollectionNameOk(r.coll) && r.coll in sv.store.names
    requires IsStamp(seen) && seen <= StampLimit(sv) && r.headers == Headers("", ModifiedToString(seen))
    requires PlanPost(Run(sv, cfg, steps).store, cfg, r, tm).resp.status != 412
    requires forall e :: e in Log(sv, cfg, steps) ==> !(e.DeleteCollection? && e.cid == sv.store.names[r.coll])
    ensures forall e :: e in Log(sv, cfg, steps) ==> !((e.PostBSOs? || e.DeleteBSOs?) && e.cid == sv.store.names[r.coll])
  {
    ConditionalPostExact(sv, cfg, steps, r, tm, seen);
    NoWriteWasMissed(Log(sv, cfg, steps), sv.store.names[r.coll]);
  }

  /** After a whole-collection delete a conditional POST goes through, whatever was written before it. */
  lemma DeleteHidesWrites(sv: Server, cfg: Config, steps: seq<Step>, delete: Step, r: Request, tm: Times, seen: nat)
    requires Inv(sv) && ValidRun(sv, cfg, steps) && Enabled(Run(sv, cfg, steps), delete) && !Run(sv, cfg, steps).stopped
    requires r.CollectionPost? && CollectionNameOk(r.coll) && r.coll in sv.store.names
    requires delete.Serve? && delete.r == CollectionDelete(r.coll, Headers("", ""), None)
    requires IsStamp(seen) && seen <= StampLimit(sv) && r.headers == Headers("", ModifiedToString(seen))
    ensures var now := Next(Run(sv, cfg, steps), cfg, delete).store;
            PlanPost(now, cfg, r, tm) == PlanPost(now, cfg, Unconditional(r), tm)
  {
    var s1 := Run(sv, cfg, steps);
    RunAppliesLog(sv, cfg, steps);
    NamesStay(sv.store, Log(sv, cfg, steps), r.coll);
    OneStepMore(sv, cfg, steps, delete);
    LogSnoc(sv, cfg, steps, delete);
    var e := DeleteCollection(sv.store.names[r.coll], Now(delete.tm.write));
    assert StepEffects(s1, cfg, delete) == [e];
    LastMarkSnoc(Log(sv, cfg, steps), e, e.cid);
    ConditionalPostExact(sv, cfg, steps + [delete], r, tm, seen);
  }

  lemma LastMarkSnoc(es: seq<Effect>, e: Effect, cid: int)
    ensures LastMark(es + [e], cid) == if Moves(e, cid) != Untouched then Moves(e, cid) else LastMark(es, cid)
  {
    assert (es + [e])[..|es|] == es;
  }

  lemma {:induction false} LogSnoc(sv: Server, cfg: Config, steps: seq<Step>, step: Step)
    ensures Log(sv, cfg, steps + [step]) == Log(sv, cfg, steps) + StepEffects(Run(sv, cfg, steps), cfg, step)
    decreases |steps|
  {
    if steps == [] {
      assert [] + [step] == [step] && [step][1..] == [];
      assert StepEffects(sv, cfg, step) + [] == [] + StepEffects(sv, cfg, step);
    } else {
      assert (steps + [step])[1..] == steps[1..] + [step];
      var sv' := Next(sv, cfg, steps[0]);
      LogSnoc(sv', cfg, steps[1..], step);
      Associative(StepEffects(sv, cfg, steps[0]), Log(sv', cfg, steps[1..]), StepEffects(Run(sv', cfg, steps[1..]), cfg, step));
    }
  }

  /**
    Deleting everything goes unnoticed: all records are gone and no stamp moves, so
    info/collections answers as before and a POST conditional on what the client saw is
    not refused for it.
   */
  lemma DeleteAllUnnoticed(sv: Server, cfg: Config, tm: Times, headers: Headers, r: Request, at: Times)
    requires !sv.stopped && r.CollectionPost? && CollectionNameOk(r.coll) && r.coll in sv.store.names
    ensures var now := Next(sv, cfg, Serve(DeleteAll, tm)).store;
            && now.bsos == map[] && GetInfo(now, headers) == GetInfo(sv.store, headers)
            && (PlanPost(now, cfg, r, at).resp.status == 412 <==> PlanPost(sv.store, cfg, r, at).resp.status == 412)
  {
    var now := Next(sv, cfg, Serve(DeleteAll, tm)).store;
    ApplyOne(sv.store, DeleteEverything);
    assert CollectionStamps(now) == CollectionStamps(sv.store);
    Only412(sv.store, cfg, r, at);
    Only412(now, cfg, r, at);
  }

  /** A POST is answered with 412 by its condition only. */
  lemma Only412(st: Store, cfg: Config, r: Request, tm: Times)
    requires r.CollectionPost? && CollectionNameOk(r.coll) && r.coll in st.names
    ensures PlanPost(st, cfg, r, tm).resp.status == 412 <==> Judge(r.headers, CollectionStamp(st, st.names[r.coll])) == PreconditionFailed
  {
    var cid := st.names[r.coll];
    assert Automake(st, r.coll, tm) == [] && ApplyAll(st, []) == st;
    assert PlanPost(st, cfg, r, tm).resp == PlanPostTo(st, cfg, cid, r, tm).resp;
    if r.batch.Some? { BatchNot412(st, cfg, cid, r.batch.value, r.commit, r.body, tm); }
    PostTo412(st, cfg, cid, r, tm, CollectionStamp(st, cid));
  }

  lemma PostTo412(st: Store, cfg: Config, cid: int, r: Request, tm: Times, stamp: int)
    requires r.CollectionPost? && stamp == CollectionStamp(st, cid)
    requires r.batch.Some? ==> PlanBatchBody(st, cfg, cid, r.batch.value, r.commit, r.body, tm).resp.status != 412
    ensures PlanPostTo(st, cfg, cid, r, tm).resp.status == 412 <==> Judge(r.headers, stamp) == PreconditionFailed
  {}

  lemma BatchNot412(st: Store, cfg: Config, cid: int, batch: string, commit: bool, body: Option<seq<Records.RawRecord>>, tm: Times)
    ensures PlanBatchBody(st, cfg, cid, batch, commit, body, tm).resp.status != 412
  {
    var decoded := if body.Some? then Records.DecodeBody(body.value, cfg.maxRecordPayloadBytes) else None;
    if decoded.Some? {
      var filtered, failed := BatchLines.Filtered(decoded.value.inputs), BatchLines.Failures(decoded.value.inputs).Keys;
      CreateNot412(st, cfg, cid, commit, filtered, failed, tm);
      if BatchIdInt(batch).Some? { AppendNot412(st, cfg, cid, BatchIdInt(batch).value, commit, filtered, failed, tm); }
    }
  }

  lemma CreateNot412(st: Store, cfg: Config, cid: int, commit: bool, filtered: seq<PutInput>, failed: set<string>, tm: Times)
    ensures PlanCreate(st, cfg, cid, commit, filtered, failed, tm).resp.status != 412
  {}

  lemma AppendNot412(st: Store, cfg: Config, cid: int, id: int, commit: bool, filtered: seq<PutInput>, failed: set<string>, tm: Times)
    ensures PlanAppend(st, cfg, cid, id, commit, filtered, failed, tm).resp.status != 412
  {}

  /** One such stamp: a client that saw it is refused although nothing has happened since. */
  lemma LostStampRefused(sv: Server, cfg: Config, r: Request, tm: Times, seen: nat)
    requires Inv(sv) && r.CollectionPost? && CollectionNameOk(r.coll) && r.coll in sv.store.names
    requires seen == 2147483648140 == CollectionStamp(sv.store, sv.store.names[r.coll])
    requires r.headers == Headers("", ModifiedToString(seen))
    ensures PlanPost(sv.store, cfg, r, tm) == Plan([], Response(412, Some(seen), NoBody))
  {
    NotEchoed(seen);
    assert StampTo(sv.store.collections[sv.store.names[r.coll]].modified, StampLimit(sv));
    ConditionalPostExact(sv, cfg, [], r, tm, seen);
  }

  /** And a GET for what is newer than it returns the records of that very stamp. */
  lemma LostStampRepeats(sv: Server, cfg: Config, coll: string, ts: nat, sort: SortType, tm: Times, arrange: Arrange)
    requires Inv(sv) && CollectionNameOk(coll) && coll in sv.store.names
    requires ts == 2147483648140 == CollectionStamp(sv.store, sv.store.names[coll])
    requires StampLimit(sv) < MAX_TIMESTAMP && IsArrangement(arrange)
    ensures var resp := GetCollection(sv.store, NewerThan(coll, ts, sort), tm, arrange);
            resp.body.Rows? && multiset(resp.body.rows) == multiset(Changed(sv.store, sv.store.names[coll], Now(tm.middle), StampedAt(sv.store.bsos, ts)))
  {
    NotEchoed(ts);
    IncrementalSyncExact(sv, cfg, [], coll, ts, sort, tm, arrange);
    assert {} + StampedAt(sv.store.bsos, ts) == StampedAt(sv.store.bsos, ts);
  }

  lemma NotEchoed(ts: nat)
    requires ts == 2147483648140
    ensures !Echoes(ts) && IsStamp(ts)
  {
    LostExample(ts);
    if Echoes(ts) { EchoedStamp(ts); }
  }

  lemma ConditionDecides(st: Store, cfg: Config, r: Request, tm: Times, text: string, seen: nat)
    requires r.CollectionPost? && CollectionNameOk(r.coll) && r.coll in st.names
    requires r.headers == Headers("", text) && text != "" && ConvertTimestamp(text) == Some(seen)
    ensures var stamp := CollectionStamp(st, st.names[r.coll]);
            PlanPost(st, cfg, r, tm) ==
            if stamp > seen then Plan([], Response(412, Some(stamp), NoBody)) else PlanPost(st, cfg, Unconditional(r), tm)
  {
    var cid := st.names[r.coll];
    var plan := PlanPostTo(st, cfg, cid, r, tm);
    assert Automake(st, r.coll, tm) == [] && ApplyAll(st, []) == st;
    assert [] + plan.effects == plan.effects;
  }

  /** So if it goes through, and the collection was not deleted whole, nothing was written to it. */
  lemma {:induction false} NoWriteWasMissed(es: seq<Effect>, cid: int)
    requires LastMark(es, cid) != Touched
    requires forall e :: e in es ==> !(e.DeleteCollection? && e.cid == cid)
    ensures forall e :: e in es ==> !((e.PostBSOs? || e.DeleteBSOs?) && e.cid == cid)
  {
    if es != [] {
      var n := |es| - 1;
      assert es[n] in es;
      assert forall e :: e in es[..n] ==> e in es;
      NoWriteWasMissed(es[..n], cid);
      assert forall e :: e in es ==> e in es[..n] || e == es[n];
    }
  }
}
