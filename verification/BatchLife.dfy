/**
  The life of a batch: what an upload is answered, how long a batch stays, what a commit
  beyond the limits does, and that tidying takes just what is due.
 */
module BatchLife {
  import opened Prelude
  import opened Timestamps
  import opened Tables
  import opened Sql
  import opened Records
  import opened BatchLines
  import opened Requests
  import opened Runs
  import opened BatchProtocol
  import opened Lifetimes
  import opened Refusals

  // ------------------------------------------------------------------- tidying

  /** Tidying removes exactly the records that have expired and the batches that are due, and changes nothing else. */
  lemma TidyExact(sv: Server, cfg: Config, purge: nat, batchPurge: nat)
    ensures var st, st' := sv.store, Next(sv, cfg, Tidy(purge, batchPurge)).store;
            && (forall k :: k in st'.bsos <==> k in st.bsos && Now(purge) < st.bsos[k].ttl)
            && (forall k :: k in st'.bsos ==> st'.bsos[k] == st.bsos[k])
            && (forall b :: b in st'.batches <==> b in st.batches && Now(batchPurge) - st.batches[b].modified < cfg.maxBatchTTL)
            && (forall b :: b in st'.batches ==> st'.batches[b] == st.batches[b])
            && st'.collections == st.collections && st'.names == st.names && st'.storage == st.storage
            && st'.nextCid == st.nextCid && st'.nextBatch == st.nextBatch
  {
    ApplyTwo(sv.store, PurgeExpired(Now(purge)), BatchPurge(Now(batchPurge), cfg.maxBatchTTL));
  }

  // ------------------------------------------------------- what requests do to batches

  /** An operation of a request: batches are stamped at t, and of those there before only b may be removed. */
  predicate Gentle(e: Effect, t: int, removed: Option<int>, limit: int) {
    && !e.BatchPurge? && (e.BatchAppend? ==> e.now == t) && (e.BatchCreate? ==> e.now == t)
    && (e.BatchRemove? && e.id < limit ==> removed == Some(e.id))
  }

  ghost predicate AllGentle(es: seq<Effect>, t: int, removed: Option<int>, limit: int) {
    forall i :: 0 <= i < |es| ==> Gentle(es[i], t, removed, limit)
  }

  /** The batch a request commits. */
  function Commits(r: Request): Option<int> {
    if r.CollectionPost? && r.commit && r.batch.Some? && r.batch.value != "true" && r.batch.value != "" then BatchIdInt(r.batch.value) else None
  }

  lemma CommitGentle(st: Store, cfg: Config, cid: int, id: int, sent: seq<PutInput>, failed: set<string>, missing: int, now: int, t: int, limit: int)
    ensures AllGentle(PlanCommit(st, cfg, cid, id, sent, failed, missing, now).effects, t, Some(id), limit)
  {}

  lemma FinishGentle(st: Store, cfg: Config, cid: int, id: int, commit: bool, sent: seq<PutInput>, failed: set<string>, found: bool, now: int, t: int, limit: int)
    ensures AllGentle(PlanFinish(st, cfg, cid, id, commit, sent, failed, found, now).effects, t, Some(id), limit)
    ensures !commit ==> PlanFinish(st, cfg, cid, id, commit, sent, failed, found, now).effects == []
  {
    CommitGentle(st, cfg, cid, id, sent, failed, if found then 500 else 400, now, t, limit);
  }

  lemma BatchGentle(st: Store, cfg: Config, cid: int, r: Request, inputs: seq<PutInput>, tm: Times)
    requires r.CollectionPost? && r.batch.Some? && r.batch.value != ""
    ensures AllGentle(PlanBatch(st, cfg, cid, r.batch.value, r.commit, inputs, tm).effects, Now(tm.middle), Commits(r), st.nextBatch)
  {
    var filtered, failed, now, t := Filtered(inputs), Failures(inputs).Keys, Now(tm.write), Now(tm.middle);
    var data, batch := EncodeAll(filtered), r.batch.value;
    if batch == "true" {
      FinishGentle(Apply(st, BatchCreate(cid, data, t)), cfg, cid, st.nextBatch, r.commit, filtered, failed, true, now, t, st.nextBatch);
    } else if BatchIdInt(batch).Some? {
      var id := BatchIdInt(batch).value;
      FinishGentle(st, cfg, cid, id, r.commit, filtered, failed, BatchIn(st, id, cid), now, t, st.nextBatch);
      FinishGentle(Apply(st, BatchAppend(id, cid, data, t)), cfg, cid, id, r.commit, filtered, failed, true, now, t, st.nextBatch);
    }
  }

  lemma PostGentle(st: Store, cfg: Config, cid: int, r: Request, tm: Times)
    requires r.CollectionPost?
    ensures AllGentle(PlanPostTo(st, cfg, cid, r, tm).effects, Now(tm.middle), Commits(r), st.nextBatch)
  {
    if r.batch.Some? && r.batch.value != "" && r.body.Some? {
      var decoded := DecodeBody(r.body.value, cfg.maxRecordPayloadBytes);
      if decoded.Some? { BatchGentle(st, cfg, cid, r, decoded.value.inputs, tm); }
    }
  }

  lemma MadePostGentle(st: Store, cfg: Config, r: Request, tm: Times)
    requires r.CollectionPost?
    ensures AllGentle(PlanPost(st, cfg, r, tm).effects, Now(tm.middle), Commits(r), st.nextBatch)
  {
    var st1 := ApplyAll(st, Automake(st, r.coll, tm));
    if r.coll !in st.names { ApplyOne(st, CreateCollection(r.coll, Now(tm.create))); }
    PostGentle(st1, cfg, CidOf(st1, r.coll), r, tm);
  }

  lemma RequestGentle(st: Store, cfg: Config, r: Request, tm: Times, arrange: Arrange)
    ensures AllGentle(PlanRequest(st, cfg, r, tm, arrange).effects, Now(tm.middle), Commits(r), st.nextBatch)
  {
    if r.CollectionPost? { MadePostGentle(st, cfg, r, tm); }
  }

  /** A batch that is there with a stamp from t0 on. */
  predicate Alive(st: Store, b: int, cid: int, t0: int, t1: int) {
    BatchIn(st, b, cid) && b < st.nextBatch && t0 <= st.batches[b].modified <= t1
  }

  lemma AliveOne(st: Store, e: Effect, b: int, cid: int, t0: int, t: int, t1: int, removed: Option<int>, limit: int)
    requires Alive(st, b, cid, t0, t1) && Gentle(e, t, removed, limit) && t0 <= t <= t1 && removed != Some(b) && b < limit
    ensures Alive(Apply(st, e), b, cid, t0, t1)
  {}

  lemma {:induction false} AliveThrough(st: Store, es: seq<Effect>, b: int, cid: int, t0: int, t: int, t1: int, removed: Option<int>, limit: int)
    requires Alive(st, b, cid, t0, t1) && AllGentle(es, t, removed, limit) && t0 <= t <= t1 && removed != Some(b) && b < limit
    ensures Alive(ApplyAll(st, es), b, cid, t0, t1)
  {
    if es != [] {
      var n := |es| - 1;
      AliveThrough(st, es[..n], b, cid, t0, t, t1, removed, limit);
      AliveOne(ApplyAll(st, es[..n]), es[n], b, cid, t0, t, t1, removed, limit);
    }
  }

  // ------------------------------------------------------------------- survival

  /** The step neither commits the batch nor tidies up after its time. */
  predicate Spares(step: Step, cfg: Config, b: int, t0: int) {
    match step
    case Serve(r, _) => Commits(r) != Some(b)
    case Tidy(_, batchPurge) => Now(batchPurge) - t0 < cfg.maxBatchTTL
    case _ => true
  }

  lemma StepSpares(sv: Server, cfg: Config, step: Step, b: int, cid: int, t0: int)
    requires Enabled(sv, step) && Alive(sv.store, b, cid, t0, Now(sv.clock)) && Spares(step, cfg, b, t0)
    ensures Alive(Next(sv, cfg, step).store, b, cid, t0, Now(Next(sv, cfg, step).clock))
  {
    NowMonotone(sv.clock, Next(sv, cfg, step).clock);
    match step
    case Serve(r, tm) =>
      NowMonotone(sv.clock, tm.middle);
      NowMonotone(tm.middle, tm.done);
      if !sv.stopped {
        RequestGentle(sv.store, cfg, r, tm, AnyOrder);
        AliveThrough(sv.store, StepEffects(sv, cfg, step), b, cid, t0, Now(tm.middle), Now(tm.done), Commits(r), sv.store.nextBatch);
      }
    case Tidy(purge, batchPurge) => TidyExact(sv, cfg, purge, batchPurge);
    case _ =>
  }

  /**
    Through any run that does not commit it, and whose tidyings come within MaxBatchTTL of
    a stamp it is no older than, a batch is there.
   */
  lemma {:induction false} BatchSurvives(sv: Server, cfg: Config, steps: seq<Step>, b: int, cid: int, t0: int)
    requires ValidRun(sv, cfg, steps) && Alive(sv.store, b, cid, t0, Now(sv.clock))
    requires forall i :: 0 <= i < |steps| ==> Spares(steps[i], cfg, b, t0)
    ensures Alive(Run(sv, cfg, steps).store, b, cid, t0, Now(Run(sv, cfg, steps).clock))
    decreases |steps|
  {
    if steps != [] {
      StepSpares(sv, cfg, steps[0], b, cid, t0);
      BatchSurvives(Next(sv, cfg, steps[0]), cfg, steps[1..], b, cid, t0);
    }
  }

  // ------------------------------------------------------------ counted from the last upload

  /** An upload that keeps a record makes the batch as new as the request; any other leaves its stamp. */
  lemma UploadRefreshes(st: Store, cfg: Config, r: Request, tm: Times, b: int, cid: int)
    requires Accepted(st, cfg, r, cid) && NamesBatch(r, b) && !r.commit && BatchIn(st, b, cid) && b < st.nextBatch
    ensures var st', kept := ApplyAll(st, PlanPost(st, cfg, r, tm).effects), Filtered(Inputs(r.body.value, cfg.maxRecordPayloadBytes));
            && BatchIn(st', b, cid) && b < st'.nextBatch
            && st'.batches[b].modified == if kept == [] then st.batches[b].modified else Now(tm.middle)
  {
    var inputs := Inputs(r.body.value, cfg.maxRecordPayloadBytes);
    AcceptedPlan(st, cfg, r, tm, cid);
    AppendedEffects(st, cfg, cid, b, Filtered(inputs), Failures(inputs).Keys, tm);
    AppendedStamp(st, b, cid, Filtered(inputs), tm);
  }

  lemma AppendedStamp(st: Store, b: int, cid: int, kept: seq<PutInput>, tm: Times)
    requires BatchIn(st, b, cid)
    ensures var st' := ApplyAll(st, AppendIfAny(b, cid, kept, tm));
            && BatchIn(st', b, cid) && st'.nextBatch == st.nextBatch
            && st'.batches[b].modified == if kept == [] then st.batches[b].modified else Now(tm.middle)
  {
    if kept != [] { ApplyOne(st, BatchAppend(b, cid, EncodeAll(kept), Now(tm.middle))); }
  }

  lemma NewBatch(st: Store, cid: int, data: string, now: int)
    ensures var st' := Apply(st, BatchCreate(cid, data, now));
            BatchIn(st', st.nextBatch, cid) && st.nextBatch < st'.nextBatch && st'.batches[st.nextBatch].modified == now
  {}

  lemma CreateStampsIn(st: Store, cfg: Config, r: Request, tm: Times, cid: int)
    requires Accepted(st, cfg, r, cid) && r.batch == Some("true") && !r.commit
    ensures var st' := ApplyAll(st, PlanPost(st, cfg, r, tm).effects);
            BatchIn(st', st.nextBatch, cid) && st.nextBatch < st'.nextBatch && st'.batches[st.nextBatch].modified == Now(tm.middle)
  {
    var inputs, data := Inputs(r.body.value, cfg.maxRecordPayloadBytes), BatchProtocol.Column(r.body.value, cfg);
    AcceptedPlan(st, cfg, r, tm, cid);
    CreatePlan(st, cfg, cid, Filtered(inputs), Failures(inputs).Keys, tm);
    ApplyOne(st, BatchCreate(cid, data, Now(tm.middle)));
    NewBatch(st, cid, data, Now(tm.middle));
  }

  /** And a batch starts as new as the request that makes it. */
  lemma CreateStamps(st: Store, cfg: Config, r: Request, tm: Times, cid: int)
    requires r.CollectionPost? && Accepted(Made(st, r, tm), cfg, r, cid) && r.batch == Some("true") && !r.commit
    ensures var st' := ApplyAll(st, PlanPost(st, cfg, r, tm).effects);
            BatchIn(st', st.nextBatch, cid) && st.nextBatch < st'.nextBatch && st'.batches[st.nextBatch].modified == Now(tm.middle)
  {
    MadePlan(st, cfg, r, tm);
    CreateStampsIn(Made(st, r, tm), cfg, r, tm, cid);
  }

  /** The request makes this batch, or uploads a record to it. */
  ghost predicate Feeds(st: Store, cfg: Config, r: Request, tm: Times, b: int, cid: int) {
    && r.CollectionPost? && !r.commit
    && if r.batch == Some("true") then b == st.nextBatch && Accepted(Made(st, r, tm), cfg, r, cid)
       else Accepted(st, cfg, r, cid) && NamesBatch(r, b) && BatchIn(st, b, cid) && b < st.nextBatch
            && Filtered(Inputs(r.body.value, cfg.maxRecordPayloadBytes)) != []
  }

  /**
    A batch stays for MaxBatchTTL after the last request that made it or uploaded to it:
    whatever runs then, if nothing commits it and no tidying comes later than that, it is
    still there.
   */
  lemma LivesSinceUpload(sv: Server, cfg: Config, upload: Step, steps: seq<Step>, b: int, cid: int)
    requires !sv.stopped && upload.Serve? && Enabled(sv, upload) && Feeds(sv.store, cfg, upload.r, upload.tm, b, cid)
    requires ValidRun(Next(sv, cfg, upload), cfg, steps)
    requires forall i :: 0 <= i < |steps| ==> Spares(steps[i], cfg, b, Now(upload.tm.middle))
    ensures BatchIn(Run(Next(sv, cfg, upload), cfg, steps).store, b, cid)
  {
    AfterFeed(sv, cfg, upload.r, upload.tm, b, cid);
    BatchSurvives(Next(sv, cfg, upload), cfg, steps, b, cid, Now(upload.tm.middle));
  }

  lemma AfterFeed(sv: Server, cfg: Config, r: Request, tm: Times, b: int, cid: int)
    requires !sv.stopped && Feeds(sv.store, cfg, r, tm, b, cid) && tm.middle <= tm.done
    ensures Alive(Next(sv, cfg, Serve(r, tm)).store, b, cid, Now(tm.middle), Now(Next(sv, cfg, Serve(r, tm)).clock))
  {
    FeedStamps(sv.store, cfg, r, tm, b, cid);
  }

  lemma FeedStamps(st: Store, cfg: Config, r: Request, tm: Times, b: int, cid: int)
    requires Feeds(st, cfg, r, tm, b, cid) && tm.middle <= tm.done
    ensures Alive(ApplyAll(st, PlanPost(st, cfg, r, tm).effects), b, cid, Now(tm.middle), Now(tm.done))
  {
    NowMonotone(tm.middle, tm.done);
    if r.batch == Some("true") {
      CreateStamps(st, cfg, r, tm, cid);
    } else {
      UploadRefreshes(st, cfg, r, tm, b, cid);
    }
  }

  // ---------------------------------------------------------------- what is answered

  /** A value goes into the batch if its id is valid and its numbers are in range, even when it says nothing else. */
  predicate Keeps(raw: RawRecord) {
    raw.Some? && BSOIdOk(IdOf(raw)) && NumbersInRange(raw.value)
  }

  function KeptIds(raws: seq<RawRecord>): seq<string> {
    if raws == [] then []
    else KeptIds(raws[..|raws| - 1]) + if Keeps(raws[|raws| - 1]) then [IdOf(raws[|raws| - 1])] else []
  }

  /** The names the others are reported by: their ids, or "na" for any that is not valid. */
  function DroppedNames(raws: seq<RawRecord>): set<string> {
    if raws == [] then {}
    else DroppedNames(raws[..|raws| - 1]) + if Keeps(raws[|raws| - 1]) then {} else {NameOf(raws[|raws| - 1])}
  }

  function NameOf(raw: RawRecord): string {
    if BSOIdOk(IdOf(raw)) then IdOf(raw) else "na"
  }

  lemma KeepsIsChecked(raw: RawRecord)
    requires Readable(raw)
    ensures ParseRaw(raw).Ok?
    ensures var check := BatchCheck(ToMilliseconds(ParseRaw(raw).value));
            && ToMilliseconds(ParseRaw(raw).value).id == IdOf(raw)
            && (check.None? <==> Keeps(raw)) && (check.Some? ==> check.value.0 == NameOf(raw))
  {
    ReadableParses(raw);
    ParsedFields(raw.value);
  }

  lemma FilterSnoc(inputs: seq<PutInput>, input: PutInput)
    ensures IdsOf(Filtered(inputs + [input])) == IdsOf(Filtered(inputs)) + if BatchCheck(input).None? then [input.id] else []
    ensures Failures(inputs + [input]).Keys == Failures(inputs).Keys + if BatchCheck(input).Some? then {BatchCheck(input).value.0} else {}
  {
    assert (inputs + [input])[..|inputs|] == inputs;
  }

  lemma {:induction false} FilterReports(raws: seq<RawRecord>, maxPayload: int)
    requires Clean(raws, maxPayload)
    ensures var inputs := Inputs(raws, maxPayload);
            IdsOf(Filtered(inputs)) == KeptIds(raws) && Failures(inputs).Keys == DroppedNames(raws)
  {
    if raws != [] {
      var n := |raws| - 1;
      FailuresGrow(raws, maxPayload);
      DecodeSnoc(raws, maxPayload);
      FilterReports(raws[..n], maxPayload);
      ReadableParses(raws[n]);
      KeepsIsChecked(raws[n]);
      FilterSnoc(Inputs(raws[..n], maxPayload), ToMilliseconds(ParseRaw(raws[n]).value));
    }
  }

  /**
    An upload that does not commit is answered with 202, the batch's id, the collection's
    own stamp, the ids it kept in order, and the names of all others.
   */
  lemma UploadAnswered(st: Store, cfg: Config, r: Request, tm: Times, b: int, cid: int)
    requires Accepted(st, cfg, r, cid) && NamesBatch(r, b) && !r.commit && BatchIn(st, b, cid)
    ensures PlanPost(st, cfg, r, tm).resp ==
            Response(202, Some(CollectionStamp(st, cid)), Posted(KeptIds(r.body.value), DroppedNames(r.body.value), Some(BatchIdString(b))))
  {
    var inputs := Inputs(r.body.value, cfg.maxRecordPayloadBytes);
    AcceptedPlan(st, cfg, r, tm, cid);
    FilterReports(r.body.value, cfg.maxRecordPayloadBytes);
    AppendAnswer(st, cfg, cid, b, Filtered(inputs), Failures(inputs).Keys, tm);
  }

  /** So is the request that makes a batch, with the id of the new batch. */
  lemma CreateAnswered(st: Store, cfg: Config, r: Request, tm: Times, cid: int)
    requires r.CollectionPost? && Accepted(Made(st, r, tm), cfg, r, cid) && r.batch == Some("true") && !r.commit
    ensures PlanPost(st, cfg, r, tm).resp ==
            Response(202, Some(CollectionStamp(Made(st, r, tm), cid)),
                     Posted(KeptIds(r.body.value), DroppedNames(r.body.value), Some(BatchIdString(st.nextBatch))))
  {
    var inputs := Inputs(r.body.value, cfg.maxRecordPayloadBytes);
    MadePlan(st, cfg, r, tm);
    AcceptedPlan(Made(st, r, tm), cfg, r, tm, cid);
    FilterReports(r.body.value, cfg.maxRecordPayloadBytes);
    CreateAnswer(Made(st, r, tm), cfg, cid, Filtered(inputs), Failures(inputs).Keys, tm);
  }

  lemma CreateAnswer(st: Store, cfg: Config, cid: int, filtered: seq<PutInput>, failed: set<string>, tm: Times)
    ensures PlanCreate(st, cfg, cid, false, filtered, failed, tm).resp ==
            Response(202, Some(CollectionStamp(st, cid)), Posted(IdsOf(filtered), failed, Some(BatchIdString(st.nextBatch))))
  {}

  lemma AppendAnswer(st: Store, cfg: Config, cid: int, b: int, filtered: seq<PutInput>, failed: set<string>, tm: Times)
    requires BatchIn(st, b, cid)
    ensures PlanAppend(st, cfg, cid, b, false, filtered, failed, tm).resp ==
            Response(202, Some(CollectionStamp(st, cid)), Posted(IdsOf(filtered), failed, Some(BatchIdString(b))))
  {}

  // --------------------------------------------------------- commits beyond the limits

  /** Committing what is beyond the limits on a batch removes it unposted, with 400. */
  lemma CommitOver(st: Store, cfg: Config, cid: int, b: int, raws: seq<RawRecord>, sent: seq<PutInput>, failed: set<string>, missing: int, now: int)
    requires Holding(st, cfg, b, cid, raws) && !WithinLimits(raws, cfg)
    ensures PlanCommit(st, cfg, cid, b, sent, failed, missing, now) == Plan([BatchRemove(b)], Status(400))
  {
    InputsEncodable(raws, cfg.maxRecordPayloadBytes);
    FilteredKeeps(Inputs(raws, cfg.maxRecordPayloadBytes));
    ColumnRoundTrip(Filtered(Inputs(raws, cfg.maxRecordPayloadBytes)));
  }

  lemma AppendOver(st: Store, cfg: Config, cid: int, b: int, raws: seq<RawRecord>, last: seq<RawRecord>, filtered: seq<PutInput>, failed: set<string>, tm: Times)
    requires Holding(st, cfg, b, cid, raws) && Clean(last, cfg.maxRecordPayloadBytes) && Clean(raws + last, cfg.maxRecordPayloadBytes)
    requires !WithinLimits(raws + last, cfg) && filtered == Filtered(Inputs(last, cfg.maxRecordPayloadBytes))
    ensures PlanAppend(st, cfg, cid, b, true, filtered, failed, tm) == Plan(AppendIfAny(b, cid, filtered, tm) + [BatchRemove(b)], Status(400))
  {
    if filtered == [] {
      NothingMore(raws, last, cfg);
      AppendNothingShape(st, cfg, cid, b, failed, tm);
      CommitOver(st, cfg, cid, b, raws + last, [], failed, 500, Now(tm.write));
      assert [] + [BatchRemove(b)] == [BatchRemove(b)];
    } else {
      AppendShape(st, cfg, cid, b, filtered, failed, tm);
      AppendHolds(st, cfg, cid, b, raws, last, Now(tm.middle));
      CommitOver(Apply(st, BatchAppend(b, cid, EncodeAll(filtered), Now(tm.middle))), cfg, cid, b, raws + last, filtered, failed, 500, Now(tm.write));
    }
  }

  /** Everything is as it was but that this batch is gone. */
  ghost predicate OnlyBatchGone(st: Store, st': Store, b: int) {
    && st'.bsos == st.bsos && st'.collections == st.collections && st'.names == st.names && st'.storage == st.storage
    && st'.batches == st.batches - {b}
  }

  lemma RemoveAfter(st: Store, first: Effect, b: int)
    requires first.BatchAppend? && first.id == b
    ensures OnlyBatchGone(st, Apply(Apply(st, first), BatchRemove(b)), b)
  {
    assert Apply(st, first).batches - {b} == st.batches - {b};
  }

  lemma AppendThenRemove(st: Store, cid: int, b: int, filtered: seq<PutInput>, tm: Times)
    ensures OnlyBatchGone(st, ApplyAll(st, AppendIfAny(b, cid, filtered, tm) + [BatchRemove(b)]), b)
  {
    if filtered == [] {
      assert [] + [BatchRemove(b)] == [BatchRemove(b)];
      ApplyOne(st, BatchRemove(b));
    } else {
      var first := BatchAppend(b, cid, EncodeAll(filtered), Now(tm.middle));
      ApplyTwo(st, first, BatchRemove(b));
      RemoveAfter(st, first, b);
      assert [first] + [BatchRemove(b)] == [first, BatchRemove(b)];
    }
  }

  /**
    A commit is answered with 200 exactly if what it would post is within the limits;
    beyond them it is a 400, the batch is gone, and no record and no stamp changes.
   */
  lemma CommitBeyondLimits(st: Store, cfg: Config, r: Request, tm: Times, b: int, cid: int, raws: seq<RawRecord>)
    requires Holding(st, cfg, b, cid, raws) && Accepted(st, cfg, r, cid) && NamesBatch(r, b) && r.commit
    ensures Clean(raws + r.body.value, cfg.maxRecordPayloadBytes)
    ensures PlanPost(st, cfg, r, tm).resp.status == 200 <==> WithinLimits(raws + r.body.value, cfg)
    ensures !WithinLimits(raws + r.body.value, cfg) ==>
              PlanPost(st, cfg, r, tm).resp.status == 400 && OnlyBatchGone(st, ApplyAll(st, PlanPost(st, cfg, r, tm).effects), b)
  {
    var inputs := Inputs(r.body.value, cfg.maxRecordPayloadBytes);
    CleanConcat(raws, r.body.value, cfg.maxRecordPayloadBytes);
    if WithinLimits(raws + r.body.value, cfg) {
      AppendAndCommit(st, cfg, r, tm, b, cid, raws);
    } else {
      AcceptedPlan(st, cfg, r, tm, cid);
      AppendOver(st, cfg, cid, b, raws, r.body.value, Filtered(inputs), Failures(inputs).Keys, tm);
      AppendThenRemove(st, cid, b, Filtered(inputs), tm);
    }
  }
}
