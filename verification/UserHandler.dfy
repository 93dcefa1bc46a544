/** The per-user request handler: one request at a time against one open database. */
module UserHandler {
  import opened Prelude
  import opened Timestamps
  import opened Tables
  import opened Sql
  import opened Records
  import opened BatchLines
  import opened Requests
  import opened Database
  import Query

  /** How long a write must wait so that its stamp is new. */
  function WriteDelay(lastChange: Option<nat>, arrive: nat): int {
    match lastChange
    case None => 10 * MS
    case Some(t) => 11 * MS - (arrive - t)
  }

  /** Sleeps are no shorter than asked, and the clock does not go back. */
  predicate Timely(lastChange: Option<nat>, r: Request, tm: Times) {
    Ordered(tm) && (IsWrite(r) ==> tm.wake >= tm.arrive + WriteDelay(lastChange, tm.arrive))
  }

  /** How long each part of a request takes; a sleep may last longer than asked. */
  datatype Lags = Lags(sleep: nat, create: nat, middle: nat, write: nat, done: nat)

  function TimesAfter(arrive: nat, wake: nat, lags: Lags): (tm: Times)
    requires arrive <= wake
    ensures Ordered(tm) && tm.arrive == arrive && tm.wake == wake
  {
    var create := wake + lags.create;
    var middle := create + lags.middle;
    var write := middle + lags.write;
    Times(arrive, wake, create, middle, write, write + lags.done)
  }

  class SyncUserHandler {
    const db: DB
    const cfg: Config
    var lastChange: Option<nat>
    var stopped: bool

    constructor (db: DB, cfg: Config)
      ensures this.db == db && this.cfg == cfg && lastChange == None && !stopped
    {
      this.db, this.cfg, lastChange, stopped := db, cfg, None, false;
    }

    /** Looks the collection up, making it when asked to. */
    method GetCid(coll: string, automake: bool, tm: Times) returns (cid: Result<int, CidError>)
      modifies db
      ensures db.State() == if automake && CollectionNameOk(coll) then ApplyAll(old(db.State()), Automake(old(db.State()), coll, tm)) else old(db.State())
      ensures cid == if !CollectionNameOk(coll) then Err(InvalidCollectionName)
                     else if coll in old(db.names) || automake then Ok(CidOf(db.State(), coll))
                     else Err(NotFound)
    {
      if !CollectionNameOk(coll) {
        return Err(InvalidCollectionName);
      }
      var found := db.GetCollectionId(coll);
      if found.Some? {
        return Ok(found.value);
      }
      if !automake {
        return Err(NotFound);
      }
      ghost var st := db.State();
      cid := db.CreateCollection(coll, Now(tm.create));
      ApplyOne(st, CreateCollection(coll, Now(tm.create)));
    }

    method PostClassic(cid: int, body: Option<seq<RawRecord>>, tm: Times) returns (resp: Response)
      modifies db
      ensures var plan := PlanClassic(cfg, cid, body, Now(tm.write));
              db.State() == ApplyAll(old(db.State()), plan.effects) && resp == plan.resp
    {
      if body.None? {
        return Status(400);
      }
      var decoded := RequestToPostBSOInput(body.value, cfg.maxRecordPayloadBytes);
      if decoded.None? {
        return Status(400);
      }
      if |decoded.value.inputs| > cfg.maxPOSTRecords {
        return Status(413);
      }
      var now := Now(tm.write);
      var results := db.PostBSOs(cid, decoded.value.inputs, now);
      resp := Response(200, Some(now), Posted(results.success, decoded.value.failed.Keys + results.failed.Keys, None));
    }

    /** Each payload is added to a sum that starts again at zero. */
    method CheckSizes(inputs: seq<PutInput>) returns (ok: bool)
      ensures ok == SizesOk(cfg, inputs)
    {
      var sum := 0;
      for i := 0 to |inputs|
        invariant sum == 0
        invariant forall j :: 0 <= j < i ==> !TooLarge(inputs[j], cfg.maxTotalBytes)
      {
        if inputs[i].payload.Some? {
          var shadow := sum + Utf8Len(inputs[i].payload.value);
          if shadow > cfg.maxTotalBytes {
            return false;
          }
        }
      }
      ok := true;
    }

    method ParseBatch(lines: seq<string>) returns (inputs: Option<seq<PutInput>>)
      ensures inputs == ParseLines(lines)
    {
      var parsed: seq<PutInput> := [];
      for i := 0 to |lines|
        invariant ParseLines(lines[..i]) == Some(parsed)
      {
        assert lines[..i + 1][..i] == lines[..i];
        var record := ParseLine(lines[i]);
        if record.Err? {
          BadLine(lines, i + 1);
          return None;
        }
        parsed := parsed + [record.value];
      }
      assert lines[..|lines|] == lines;
      inputs := Some(parsed);
    }

    method CommitBatch(cid: int, id: int, sent: seq<PutInput>, failed: set<string>, missing: int, tm: Times) returns (resp: Response)
      modifies db
      ensures var plan := PlanCommit(old(db.State()), cfg, cid, id, sent, failed, missing, Now(tm.write));
              db.State() == ApplyAll(old(db.State()), plan.effects) && resp == plan.resp
    {
      ghost var st := db.State();
      ghost var plan := PlanCommit(st, cfg, cid, id, sent, failed, missing, Now(tm.write));
      if !(id in db.batches && db.batches[id].cid == cid) {
        return Status(missing);
      }
      var lines := ReadNewlineJSON(db.batches[id].bsos);
      var inputs := ParseBatch(lines);
      if |lines| > cfg.maxTotalRecords {
        db.BatchRemove(id);
        ApplyOne(st, BatchRemove(id));
        return Status(400);
      }
      if inputs.None? {
        return Status(500);
      }
      var ok := CheckSizes(inputs.value);
      if !ok {
        db.BatchRemove(id);
        ApplyOne(st, BatchRemove(id));
        return Status(400);
      }
      var now := Now(tm.write);
      var results := db.PostBSOs(cid, inputs.value, now);
      db.BatchRemove(id);
      ApplyTwo(st, PostBSOs(cid, inputs.value, now), BatchRemove(id));
      resp := Response(200, Some(now), Posted(IdsOf(sent), failed + results.failed.Keys, None));
    }

    method FinishBatch(cid: int, id: int, commit: bool, sent: seq<PutInput>, failed: set<string>, found: bool, tm: Times) returns (resp: Response)
      modifies db
      ensures var plan := PlanFinish(old(db.State()), cfg, cid, id, commit, sent, failed, found, Now(tm.write));
              db.State() == ApplyAll(old(db.State()), plan.effects) && resp == plan.resp
    {
      if commit {
        resp := CommitBatch(cid, id, sent, failed, if found then 500 else 400, tm);
      } else if !found {
        resp := Status(400);
      } else {
        resp := Response(202, Some(db.GetCollectionModified(cid)), Posted(IdsOf(sent), failed, Some(BatchIdString(id))));
      }
    }

    method PostBatch(cid: int, batch: string, commit: bool, body: Option<seq<RawRecord>>, tm: Times) returns (resp: Response)
      modifies db
      ensures var plan := PlanBatchBody(old(db.State()), cfg, cid, batch, commit, body, tm);
              db.State() == ApplyAll(old(db.State()), plan.effects) && resp == plan.resp
    {
      if body.None? {
        return Status(400);
      }
      var decoded := RequestToPostBSOInput(body.value, cfg.maxRecordPayloadBytes);
      if decoded.None? {
        return Status(400);
      }
      if |decoded.value.inputs| > cfg.maxPOSTRecords {
        return Status(413);
      }
      if decoded.value.failed != map[] {
        return Response(200, Some(db.storage), Posted([], decoded.value.failed.Keys, None));
      }
      resp := StoreBatch(cid, batch, commit, decoded.value.inputs, tm);
    }

    /** A batch that is not found is answered with 400, and processing carries on. */
    method StoreBatch(cid: int, batch: string, commit: bool, inputs: seq<PutInput>, tm: Times) returns (resp: Response)
      modifies db
      ensures var plan := PlanBatch(old(db.State()), cfg, cid, batch, commit, inputs, tm);
              db.State() == ApplyAll(old(db.State()), plan.effects) && resp == plan.resp
    {
      var found, id := true, 0;
      if batch != "true" {
        var parsed := BatchIdInt(batch);
        if parsed.None? {
          return Status(400);
        }
        id := parsed.value;
        found := id in db.batches && db.batches[id].cid == cid;
      }
      var filtered, failures := FilterBatch(inputs);
      if batch == "true" {
        resp := CreateBatch(cid, commit, filtered, failures.Keys, tm);
      } else {
        resp := AppendBatch(cid, id, commit, filtered, failures.Keys, found, tm);
      }
    }

    method CreateBatch(cid: int, commit: bool, filtered: seq<PutInput>, failed: set<string>, tm: Times) returns (resp: Response)
      modifies db
      ensures var plan := PlanCreate(old(db.State()), cfg, cid, commit, filtered, failed, tm);
              db.State() == ApplyAll(old(db.State()), plan.effects) && resp == plan.resp
    {
      ghost var st := db.State();
      var data := EncodeBatch(filtered);
      ghost var first := BatchCreate(cid, data, Now(tm.middle));
      var id := db.BatchCreate(cid, data, Now(tm.middle));
      resp := FinishBatch(cid, id, commit, filtered, failed, true, tm);
      ApplyCons(st, first, PlanFinish(Apply(st, first), cfg, cid, id, commit, filtered, failed, true, Now(tm.write)).effects);
    }

    method AppendBatch(cid: int, id: int, commit: bool, filtered: seq<PutInput>, failed: set<string>, found: bool, tm: Times) returns (resp: Response)
      requires found == BatchIn(db.State(), id, cid)
      modifies db
      ensures var plan := PlanAppend(old(db.State()), cfg, cid, id, commit, filtered, failed, tm);
              db.State() == ApplyAll(old(db.State()), plan.effects) && resp == plan.resp
    {
      ghost var st := db.State();
      if filtered == [] {
        resp := FinishBatch(cid, id, commit, filtered, failed, found, tm);
        return;
      }
      var data := EncodeBatch(filtered);
      ghost var first := BatchAppend(id, cid, data, Now(tm.middle));
      var appended := db.BatchAppend(id, cid, data, Now(tm.middle));
      if !appended {
        return Status(400);
      }
      resp := FinishBatch(cid, id, commit, filtered, failed, true, tm);
      ApplyCons(st, first, PlanFinish(Apply(st, first), cfg, cid, id, commit, filtered, failed, true, Now(tm.write)).effects);
    }

    method CollectionPOST(r: Request, tm: Times) returns (resp: Response)
      requires r.CollectionPost?
      modifies db
      ensures var plan := PlanPost(old(db.State()), cfg, r, tm);
              db.State() == ApplyAll(old(db.State()), plan.effects) && resp == plan.resp
    {
      ghost var st := db.State();
      ghost var made := Automake(st, r.coll, tm);
      var cid := GetCid(r.coll, true, tm);
      if cid.Err? {
        return Status(400);
      }
      resp := PostTo(cid.value, r, tm);
      ApplyAllConcat(st, made, PlanPostTo(ApplyAll(st, made), cfg, cid.value, r, tm).effects);
    }

    method PostTo(cid: int, r: Request, tm: Times) returns (resp: Response)
      requires r.CollectionPost?
      modifies db
      ensures var plan := PlanPostTo(old(db.State()), cfg, cid, r, tm);
              db.State() == ApplyAll(old(db.State()), plan.effects) && resp == plan.resp
    {
      var cmodified := db.GetCollectionModified(cid);
      var v := Judge(r.headers, cmodified);
      if v != Proceed {
        return Refusal(v, cmodified);
      }
      if r.commit && r.batch.None? {
        return Status(400);
      }
      if r.batch.Some? && r.batch.value != "" {
        resp := PostBatch(cid, r.batch.value, r.commit, r.body, tm);
      } else {
        resp := PostClassic(cid, r.body, tm);
      }
    }

    method BsoPUT(r: Request, tm: Times) returns (resp: Response)
      requires r.BsoPut?
      modifies db
      ensures var plan := PlanPut(old(db.State()), cfg, r, tm);
              db.State() == ApplyAll(old(db.State()), plan.effects) && resp == plan.resp
    {
      if !BSOIdOk(r.id) {
        return Status(404);
      }
      ghost var st := db.State();
      ghost var made := Automake(st, r.coll, tm);
      var cid := GetCid(r.coll, true, tm);
      if cid.Err? {
        return Status(500);
      }
      resp := PutTo(cid.value, r, tm);
      ApplyAllConcat(st, made, PlanPutTo(ApplyAll(st, made), cfg, cid.value, r, tm).effects);
    }

    method PutTo(cid: int, r: Request, tm: Times) returns (resp: Response)
      requires r.BsoPut?
      modifies db
      ensures var plan := PlanPutTo(old(db.State()), cfg, cid, r, tm);
              db.State() == ApplyAll(old(db.State()), plan.effects) && resp == plan.resp
    {
      ghost var st := db.State();
      var current := Query.GetBSOModified(db.bsos, cid, r.id, Now(tm.middle));
      var modified := if current.Some? then current.value else 0;
      var v := Judge(r.headers, modified);
      if v != Proceed {
        return Refusal(v, modified);
      }
      var parsed := ParseRaw(r.record);
      if parsed.Err? {
        return Status(400);
      }
      var record := parsed.value;
      if record.payload.Some? && Utf8Len(record.payload.value) > cfg.maxRecordPayloadBytes {
        return Status(413);
      }
      var ttl := if record.ttl.Some? then Some(Wrap64(record.ttl.value * 1000)) else None;
      var err := db.PutBSO(cid, r.id, record.payload, record.sortIndex, ttl, Now(tm.write));
      assert PutInput(r.id, record.payload, ttl, record.sortIndex) == ToMilliseconds(record).(id := r.id);
      if err.Some? {
        return Status(400);
      }
      ApplyOne(st, PostBSOs(cid, [ToMilliseconds(record).(id := r.id)], Now(tm.write)));
      resp := Response(200, Some(Now(tm.write)), NoBody);
    }

    method CollectionDELETE(r: Request, tm: Times) returns (resp: Response)
      requires r.CollectionDelete? && WellFormed(r)
      modifies db
      ensures var plan := PlanCollectionDelete(old(db.State()), cfg, r, tm);
              db.State() == ApplyAll(old(db.State()), plan.effects) && resp == plan.resp
    {
      ghost var st := db.State();
      var found := GetCid(r.coll, false, tm);
      if found.Err? {
        return Status(if found.error == NotFound then 404 else 500);
      }
      var cid := found.value;
      var cmodified := db.GetCollectionModified(cid);
      var v := Judge(r.headers, cmodified);
      if v != Proceed {
        return Refusal(v, cmodified);
      }
      var now := Now(tm.write);
      if r.ids.Some? {
        if |r.ids.value| > cfg.maxPOSTRecords {
          return Status(400);
        }
        db.DeleteBSOs(cid, r.ids.value, now);
        ApplyOne(st, DeleteBSOs(cid, r.ids.value, now));
      } else {
        db.DeleteCollection(cid, now);
        ApplyOne(st, DeleteCollection(cid, now));
      }
      resp := Response(200, Some(now), NoBody);
    }

    method BsoDELETE(r: Request, tm: Times) returns (resp: Response)
      requires r.BsoDelete?
      modifies db
      ensures var plan := PlanBsoDelete(old(db.State()), r, tm);
              db.State() == ApplyAll(old(db.State()), plan.effects) && resp == plan.resp
    {
      if !BSOIdOk(r.id) {
        return Status(404);
      }
      ghost var st := db.State();
      var found := GetCid(r.coll, false, tm);
      if found == Err(NotFound) {
        return Status(406);
      }
      var cid := if found.Ok? then found.value else 0;
      var bso := Query.GetBSO(db.bsos, cid, r.id, Now(tm.middle));
      if bso.None? {
        return Status(404);
      }
      var v := Judge(r.headers, bso.value.modified);
      if v != Proceed {
        return Refusal(v, bso.value.modified);
      }
      db.DeleteBSOs(cid, [r.id], Now(tm.write));
      ApplyOne(st, DeleteBSOs(cid, [r.id], Now(tm.write)));
      resp := Response(200, Some(Now(tm.write)), NoBody);
    }

    /** Checks the parameters, then the stamp, then searches. */
    method CollectionGET(r: Request, tm: Times, arrange: Arrange) returns (resp: Response)
      requires r.CollectionGet?
      ensures resp == GetCollection(db.State(), r, tm, arrange)
    {
      if !CollectionNameOk(r.coll) {
        return Status(500);
      }
      var found := db.GetCollectionId(r.coll);
      if found.None? {
        return Response(200, None, Rows([], None));
      }
      var p := r.params;
      if !IdsOk(p.ids) {
        return Status(400);
      }
      var bounds := ParseBounds(p);
      if bounds.None? {
        return Status(400);
      }
      var limit := -1;
      if p.limit.Some? {
        limit := p.limit.value;
        if limit < 0 {
          return Status(400);
        }
      }
      if p.offset < 0 {
        return Status(400);
      }
      var cid := found.value;
      var cmodified := db.GetCollectionModified(cid);
      var v := Judge(r.headers, cmodified);
      if v != Proceed {
        return Refusal(v, cmodified);
      }
      var search := Query.Search(cid, p.ids, bounds.value.0, bounds.value.1, p.sort, Now(tm.middle));
      var results := db.GetBSOs(search, limit, p.offset, arrange);
      if results.Err? {
        return Status(500);
      }
      var page := results.value;
      resp := Response(200, Some(cmodified), Rows(page.rows, if page.more then Some(page.offset) else None));
    }

    method Route(r: Request, tm: Times, arrange: Arrange) returns (resp: Response)
      requires WellFormed(r)
      modifies db
      ensures var plan := PlanRequest(old(db.State()), cfg, r, tm, arrange);
              db.State() == ApplyAll(old(db.State()), plan.effects) && resp == plan.resp
    {
      match r {
        case CollectionPost(_, _, _, _, _) => resp := CollectionPOST(r, tm);
        case CollectionDelete(_, _, _) => resp := CollectionDELETE(r, tm);
        case BsoPut(_, _, _, _) => resp := BsoPUT(r, tm);
        case BsoDelete(_, _, _) => resp := BsoDELETE(r, tm);
        case DeleteAll =>
          ApplyOne(db.State(), DeleteEverything);
          db.DeleteEverything();
          resp := Response(200, Some(Now(tm.write)), NoBody);
        case CollectionGet(_, _, _) => resp := CollectionGET(r, tm, arrange);
        case BsoGet(_, _, _) => resp := GetOne(db.State(), r, tm);
        case InfoCollections(headers) => resp := GetInfo(db.State(), headers);
      }
    }

    /**
      A stopped handler answers 503 at once; a write first sleeps until its stamp will be
      new, and notes when it ended. `lags` is how much longer than needed everything takes.
     */
    method ServeHTTP(r: Request, arrive: nat, lags: Lags, arrange: Arrange) returns (resp: Response, tm: Times)
      requires WellFormed(r)
      modifies this, db
      ensures stopped == old(stopped) && tm.arrive == arrive && Ordered(tm)
      ensures old(stopped) ==> resp == Status(503) && lastChange == old(lastChange) && db.State() == old(db.State())
      ensures !old(stopped) ==>
                var plan := PlanRequest(old(db.State()), cfg, r, tm, arrange);
                && Timely(old(lastChange), r, tm)
                && db.State() == ApplyAll(old(db.State()), plan.effects)
                && resp == plan.resp
                && lastChange == if IsWrite(r) then Some(tm.done) else old(lastChange)
    {
      if stopped {
        tm := TimesAfter(arrive, arrive, lags);
        return Status(503), tm;
      }
      var wake := arrive;
      if IsWrite(r) {
        var toSleep := if lastChange.None? then 10 * MS else 11 * MS - (arrive - lastChange.value);
        if toSleep > 0 {
          wake := arrive + toSleep + lags.sleep;
        }
      }
      tm := TimesAfter(arrive, wake, lags);
      resp := Route(r, tm, arrange);
      if IsWrite(r) {
        lastChange := Some(tm.done);
      }
    }

    method StopHTTP()
      modifies this`stopped
      ensures stopped
    {
      stopped := true;
    }

    /** Purges expired records and stale batches. */
    method TidyUp(purge: nat, batchPurge: nat)
      modifies db
      ensures db.State() == ApplyAll(old(db.State()), [PurgeExpired(Now(purge)), BatchPurge(Now(batchPurge), cfg.maxBatchTTL)])
    {
      ApplyTwo(db.State(), PurgeExpired(Now(purge)), BatchPurge(Now(batchPurge), cfg.maxBatchTTL));
      var _ := db.PurgeExpired(Now(purge));
      var _ := db.BatchPurge(Now(batchPurge), cfg.maxBatchTTL);
    }
  }

  lemma {:induction false} BadLine(lines: seq<string>, n: nat)
    requires n <= |lines| && ParseLines(lines[..n]).None?
    ensures ParseLines(lines).None?
    decreases |lines| - n
  {
    if n < |lines| {
      assert lines[..n + 1][..n] == lines[..n];
      BadLine(lines, n + 1);
    } else {
      assert lines[..n] == lines;
    }
  }
}
