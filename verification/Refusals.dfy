/**
  Which requests are refused, told from the JSON and the tables, and that a refusal
  changes nothing except that a write makes its collection before anything else. No run
  leads to a state in which a stored batch cannot be read.
 */
module Refusals {
  import opened Prelude
  import opened Timestamps
  import opened Tables
  import opened Sql
  import opened Json
  import opened Records
  import opened BatchLines
  import opened Requests
  import opened Runs
  import opened BatchProtocol
  import opened Lifetimes
  import opened PostReports

  // --------------------------------------------------------------- JSON values

  predicate Known(m: map<string, Json>) {
    m.Keys <= {"id", "payload", "ttl", "sortindex", "modified"}
  }

  predicate Number(v: Json) {
    v.JNull? || (v.JInt? && -INT64_LIMIT <= v.n < INT64_LIMIT)
  }

  /** An object with members of the right kinds and no others. */
  predicate Readable(raw: RawRecord) {
    && raw.Some? && Known(raw.value)
    && ("id" in raw.value ==> raw.value["id"].JString?)
    && ("payload" in raw.value ==> raw.value["payload"].JString? || raw.value["payload"].JNull?)
    && ("ttl" in raw.value ==> Number(raw.value["ttl"]))
    && ("sortindex" in raw.value ==> Number(raw.value["sortindex"]))
  }

  /** Its payload is longer than allowed; null counts as empty. */
  predicate Bulky(raw: RawRecord, maxPayload: int) {
    && raw.Some? && "payload" in raw.value
    && (if raw.value["payload"].JString? then Utf8Len(raw.value["payload"].s) else 0) > maxPayload
  }

  predicate NumbersInRange(m: map<string, Json>) {
    && ("sortindex" in m && m["sortindex"].JInt? ==> -999999999 <= m["sortindex"].n <= 99999999)
    && ("ttl" in m && m["ttl"].JInt? ==> Wrap64(1000 * m["ttl"].n) >= 0)
  }

  /** It says something, and its numbers are in range. */
  predicate InRange(raw: RawRecord) {
    raw.Some? && ("payload" in raw.value || "ttl" in raw.value || "sortindex" in raw.value) && NumbersInRange(raw.value)
  }

  /** The id a value goes by in a report: its own if it can be told, else none. */
  function IdOf(raw: RawRecord): string {
    if raw.Some? && Known(raw.value) && "id" in raw.value && raw.value["id"].JString? then raw.value["id"].s else ""
  }

  lemma KnownKeys(m: map<string, Json>)
    ensures Known(m) <==> m.Keys <= ALLOWED_KEYS
    ensures Known(m) ==> "-" !in m
  {
    KeysDistinct();
    assert |"modified"| == 8;
  }

  /** A value parses exactly if it is readable. */
  lemma ReadableParses(raw: RawRecord)
    ensures ParseRaw(raw).Ok? <==> Readable(raw)
    ensures ParseRaw(raw).Ok? ==> ParseRaw(raw).value.id == IdOf(raw)
  {
    if raw.Some? { KnownKeys(raw.value); }
  }

  lemma ReportedAs(raw: RawRecord)
    ensures ReportedId(raw) == IdOf(raw)
  {
    if raw.Some? { KnownKeys(raw.value); }
  }

  lemma BulkyIsTooLarge(raw: RawRecord, maxPayload: int)
    requires Readable(raw)
    ensures ParseRaw(raw).Ok? && (TooLarge(ParseRaw(raw).value, maxPayload) <==> Bulky(raw, maxPayload))
  {
    ReadableParses(raw);
    ParsedFields(raw.value);
  }

  lemma InRangeIsValid(raw: RawRecord, id: string)
    requires Readable(raw) && BSOIdOk(id)
    ensures ParseRaw(raw).Ok? && (PutCheck(ToMilliseconds(ParseRaw(raw).value).(id := id)).None? <==> InRange(raw))
  {
    ReadableParses(raw);
    var m, input := raw.value, ParseRaw(raw).value;
    ParsedFields(m);
    assert "ttl" in m && m["ttl"].JInt? ==> IsNumber(m, "ttl", m["ttl"].n);
    assert "sortindex" in m && m["sortindex"].JInt? ==> IsNumber(m, "sortindex", m["sortindex"].n);
  }

  // ------------------------------------------------------------------- bodies

  /** Some value of the body is not an object, or has a member called "-". */
  ghost predicate Broken(raws: seq<RawRecord>) {
    exists i :: 0 <= i < |raws| && (raws[i].None? || "-" in raws[i].value)
  }

  predicate Whole(raw: RawRecord, maxPayload: int) {
    Readable(raw) && !Bulky(raw, maxPayload)
  }

  /** How many values are readable and not too large. */
  function Wholes(raws: seq<RawRecord>, maxPayload: int): nat {
    if raws == [] then 0
    else Wholes(raws[..|raws| - 1], maxPayload) + if Whole(raws[|raws| - 1], maxPayload) then 1 else 0
  }

  ghost function NotWhole(raws: seq<RawRecord>, maxPayload: int): set<string> {
    set i | 0 <= i < |raws| && !Whole(raws[i], maxPayload) :: IdOf(raws[i])
  }

  lemma WholeIsTaken(raw: RawRecord, maxPayload: int)
    ensures Taken(raw, maxPayload) <==> Whole(raw, maxPayload)
  {
    ReadableParses(raw);
    if Readable(raw) { BulkyIsTooLarge(raw, maxPayload); }
  }

  lemma BrokenValue(raw: RawRecord)
    ensures ParseRaw(raw) == Err(NotAnObject) <==> raw.None? || "-" in raw.value
  {
    if raw.Some? { KnownKeys(raw.value); }
  }

  lemma BrokenSnoc(raws: seq<RawRecord>)
    requires raws != []
    ensures Broken(raws) <==> Broken(raws[..|raws| - 1]) || ParseRaw(raws[|raws| - 1]) == Err(NotAnObject)
  {
    var n := |raws| - 1;
    BrokenValue(raws[n]);
    if Broken(raws) {
      var i :| 0 <= i < |raws| && (raws[i].None? || "-" in raws[i].value);
      if i < n { assert raws[..n][i] == raws[i]; }
    }
    if Broken(raws[..n]) {
      var i :| 0 <= i < n && (raws[..n][i].None? || "-" in raws[..n][i].value);
      assert raws[..n][i] == raws[i];
    }
  }

  lemma NotWholeSnoc(raws: seq<RawRecord>, maxPayload: int)
    requires raws != []
    ensures var n := |raws| - 1;
            NotWhole(raws, maxPayload) == NotWhole(raws[..n], maxPayload) + if Whole(raws[n], maxPayload) then {} else {IdOf(raws[n])}
  {
    var n := |raws| - 1;
    forall id ensures id in NotWhole(raws, maxPayload) <==> id in NotWhole(raws[..n], maxPayload) || (!Whole(raws[n], maxPayload) && id == IdOf(raws[n])) {
      if id in NotWhole(raws, maxPayload) {
        var i :| 0 <= i < |raws| && !Whole(raws[i], maxPayload) && id == IdOf(raws[i]);
        if i < n { assert raws[..n][i] == raws[i]; }
      }
      if id in NotWhole(raws[..n], maxPayload) {
        var i :| 0 <= i < n && !Whole(raws[..n][i], maxPayload) && id == IdOf(raws[..n][i]);
        assert raws[..n][i] == raws[i];
      }
    }
  }

  /** A body decodes exactly if it is not broken; what is not whole is refused by its id, and the rest is counted. */
  lemma {:induction false} BodyDecodes(raws: seq<RawRecord>, maxPayload: int)
    ensures DecodeBody(raws, maxPayload).Some? <==> !Broken(raws)
    ensures DecodeBody(raws, maxPayload).Some? ==>
              && |DecodeBody(raws, maxPayload).value.inputs| == Wholes(raws, maxPayload)
              && DecodeBody(raws, maxPayload).value.failed.Keys == NotWhole(raws, maxPayload)
  {
    if raws != [] {
      var n := |raws| - 1;
      BrokenSnoc(raws);
      BodyDecodes(raws[..n], maxPayload);
      if DecodeBody(raws, maxPayload).Some? {
        DecodeSnoc(raws, maxPayload);
        FailedSnoc(raws, maxPayload);
        NotWholeSnoc(raws, maxPayload);
        WholeIsTaken(raws[n], maxPayload);
        ReportedAs(raws[n]);
      }
    }
  }

  // --------------------------------------------------- collections that are made

  /** Nothing changes but that the collection, if it was not there, is made, empty and with this stamp. */
  ghost predicate OnlyMakes(st: Store, st': Store, coll: string, stamp: int) {
    if coll in st.names then st' == st
    else
      && coll in st'.names && st'.names[coll] !in st.collections
      && st'.collections == st.collections[st'.names[coll] := Collection(coll, stamp)]
      && st'.names == st.names[coll := st'.names[coll]]
      && st'.bsos == st.bsos && st'.storage == st.storage && st'.batches == st.batches && st'.nextBatch == st.nextBatch
      && (forall k :: k in st.bsos ==> k.cid != st'.names[coll]) && (forall b :: b in st.batches ==> st.batches[b].cid != st'.names[coll])
  }

  lemma AutomakeMakes(st: Store, coll: string, tm: Times)
    requires Consistent(st)
    ensures OnlyMakes(st, ApplyAll(st, Automake(st, coll, tm)), coll, Now(tm.create))
  {
    if coll !in st.names {
      ApplyOne(st, CreateCollection(coll, Now(tm.create)));
      forall k | k in st.bsos ensures k.cid != st.nextCid { assert RowOk(st, k, st.bsos[k]); }
    }
  }

  // ----------------------------------------------------------------------- PUT

  /** The status of a PUT without conditions to a valid collection. */
  function PutStatus(raw: RawRecord, maxPayload: int): int {
    if !Readable(raw) then 400 else if Bulky(raw, maxPayload) then 413 else if !InRange(raw) then 400 else 200
  }

  lemma PutToStatus(st: Store, cfg: Config, cid: int, r: Request, tm: Times)
    requires r.BsoPut? && r.headers == Headers("", "") && BSOIdOk(r.id)
    ensures PlanPutTo(st, cfg, cid, r, tm).resp.status == PutStatus(r.record, cfg.maxRecordPayloadBytes)
    ensures PlanPutTo(st, cfg, cid, r, tm).resp.status != 200 ==> PlanPutTo(st, cfg, cid, r, tm).effects == []
  {
    ReadableParses(r.record);
    if Readable(r.record) {
      BulkyIsTooLarge(r.record, cfg.maxRecordPayloadBytes);
      InRangeIsValid(r.record, r.id);
    }
  }

  /**
    A PUT is refused for its id, its collection's name, an unreadable record, a payload
    that is too long, or a record that says nothing or has a number out of range, in this
    order; a refusal after the first two still makes the collection, and nothing else.
   */
  lemma PutAnswers(sv: Server, cfg: Config, r: Request, tm: Times, arrange: Arrange)
    requires Inv(sv) && !sv.stopped && r.BsoPut? && r.headers == Headers("", "")
    ensures var status, st, st' := Answer(sv, cfg, r, tm, arrange).status, sv.store, Next(sv, cfg, Serve(r, tm)).store;
            if !BSOIdOk(r.id) then status == 404 && st' == st
            else if !CollectionNameOk(r.coll) then status == 500 && st' == st
            else status == PutStatus(r.record, cfg.maxRecordPayloadBytes) && (status != 200 ==> OnlyMakes(st, st', r.coll, Now(tm.create)))
  {
    var made := Automake(sv.store, r.coll, tm);
    var st1 := ApplyAll(sv.store, made);
    AutomakeMakes(sv.store, r.coll, tm);
    if BSOIdOk(r.id) { PutToStatus(st1, cfg, CidOf(st1, r.coll), r, tm); }
    assert made + [] == made;
  }

  // ---------------------------------------------------------------------- POST

  /** The batch a POST names is there, in its collection. */
  predicate FindsBatch(st: Store, r: Request)
    requires r.CollectionPost? && r.batch.Some?
  {
    var id := BatchIdInt(r.batch.value);
    r.coll in st.names && id.Some? && BatchIn(st, id.value, st.names[r.coll])
  }

  predicate UsesBatch(r: Request) {
    r.CollectionPost? && r.batch.Some? && r.batch.value != ""
  }

  /** The status of a POST without conditions to a valid collection, unless it commits a batch. */
  ghost function PostStatus(st: Store, cfg: Config, r: Request): int
    requires r.CollectionPost?
  {
    var limit := cfg.maxRecordPayloadBytes;
    if (r.commit && r.batch.None?) || r.body.None? || Broken(r.body.value) then 400
    else if Wholes(r.body.value, limit) > cfg.maxPOSTRecords then 413
    else if !UsesBatch(r) || NotWhole(r.body.value, limit) != {} then 200
    else if r.batch.value != "true" && !FindsBatch(st, r) then 400
    else 202
  }

  lemma PostToStatus(st: Store, cfg: Config, r: Request, tm: Times)
    requires r.CollectionPost? && r.headers == Headers("", "") && r.coll in st.names && !(UsesBatch(r) && r.commit && (r.batch.value == "true" || FindsBatch(st, r)))
    ensures var plan := PlanPostTo(st, cfg, st.names[r.coll], r, tm);
            && plan.resp.status == PostStatus(st, cfg, r)
            && (plan.resp.status >= 400 || (UsesBatch(r) && plan.resp.status == 200) ==> plan.effects == [])
            && (UsesBatch(r) && plan.resp.status == 200 ==>
                  plan.resp == Response(200, Some(st.storage), Posted([], NotWhole(r.body.value, cfg.maxRecordPayloadBytes), None)))
  {
    if r.body.Some? {
      BodyDecodes(r.body.value, cfg.maxRecordPayloadBytes);
      var decoded := DecodeBody(r.body.value, cfg.maxRecordPayloadBytes);
      if decoded.Some? {
        assert decoded.value.failed == map[] <==> decoded.value.failed.Keys == {};
        if UsesBatch(r) { BatchStatus(st, cfg, st.names[r.coll], r.batch.value, r.commit, decoded.value.inputs, tm); }
      }
    }
  }

  lemma BatchStatus(st: Store, cfg: Config, cid: int, batch: string, commit: bool, inputs: seq<PutInput>, tm: Times)
    requires !(commit && (batch == "true" || (BatchIdInt(batch).Some? && BatchIn(st, BatchIdInt(batch).value, cid))))
    ensures var plan := PlanBatch(st, cfg, cid, batch, commit, inputs, tm);
            if batch == "true" || (BatchIdInt(batch).Some? && BatchIn(st, BatchIdInt(batch).value, cid)) then plan.resp.status == 202
            else plan.resp.status == 400 && plan.effects == []
  {}

  /**
    A POST is refused for its collection's name, a body that is broken or has too many
    records, or a batch that is not there; a refusal after the first still makes the
    collection, and nothing else. A batch is not touched by a body that is not whole.
   */
  lemma PostAnswers(sv: Server, cfg: Config, r: Request, tm: Times, arrange: Arrange)
    requires Inv(sv) && !sv.stopped && r.CollectionPost? && r.headers == Headers("", "")
    requires !(UsesBatch(r) && r.commit && (r.batch.value == "true" || FindsBatch(sv.store, r)))
    ensures var resp, st, st' := Answer(sv, cfg, r, tm, arrange), sv.store, Next(sv, cfg, Serve(r, tm)).store;
            if !CollectionNameOk(r.coll) then resp.status == 400 && st' == st
            else
              && resp.status == PostStatus(st, cfg, r)
              && (resp.status >= 400 || (UsesBatch(r) && resp.status == 200) ==> OnlyMakes(st, st', r.coll, Now(tm.create)))
              && (UsesBatch(r) && resp.status == 200 ==>
                    resp == Response(200, Some(st.storage), Posted([], NotWhole(r.body.value, cfg.maxRecordPayloadBytes), None)))
  {
    var made := Automake(sv.store, r.coll, tm);
    var st1 := ApplyAll(sv.store, made);
    AutomakeMakes(sv.store, r.coll, tm);
    AutomakeRow(sv.store, r.coll, tm);
    if CollectionNameOk(r.coll) {
      SameBatches(sv.store, st1, r, tm);
      PostToStatus(st1, cfg, r, tm);
    }
    assert made + [] == made;
  }

  lemma SameBatches(st: Store, st1: Store, r: Request, tm: Times)
    requires Consistent(st) && r.CollectionPost? && OnlyMakes(st, st1, r.coll, Now(tm.create))
    ensures r.batch.Some? ==> (FindsBatch(st1, r) <==> FindsBatch(st, r))
  {}

  // ------------------------------------------------------- stored batches can be read

  /** The column of a batch holds encoded records and nothing else. */
  ghost predicate Readback(data: string) {
    exists inputs :: AllEncodable(inputs) && data == EncodeAll(inputs)
  }

  ghost predicate AllReadback(st: Store) {
    forall b :: b in st.batches ==> Readback(st.batches[b].bsos)
  }

  ghost predicate Encodes(e: Effect) {
    e.BatchCreate? || e.BatchAppend? ==> Readback(e.data)
  }

  ghost predicate AllEncode(es: seq<Effect>) {
    forall i :: 0 <= i < |es| ==> Encodes(es[i])
  }

  lemma ReadbackConcat(a: string, b: string)
    requires Readback(a) && Readback(b)
    ensures Readback(a + b)
  {
    var xs :| AllEncodable(xs) && a == EncodeAll(xs);
    var ys :| AllEncodable(ys) && b == EncodeAll(ys);
    EncodeAllConcat(xs, ys);
    assert AllEncodable(xs + ys);
  }

  lemma ReadbackParses(data: string)
    requires Readback(data)
    ensures ParseLines(Lines(data)).Some?
  {
    var inputs :| AllEncodable(inputs) && data == EncodeAll(inputs);
    ColumnRoundTrip(inputs);
  }

  lemma FilteredReadback(raws: seq<RawRecord>, maxPayload: int)
    requires DecodeBody(raws, maxPayload).Some?
    ensures Readback(EncodeAll(Filtered(DecodeBody(raws, maxPayload).value.inputs)))
  {
    var inputs := DecodeBody(raws, maxPayload).value.inputs;
    ParsedEncodable(raws, maxPayload);
    assert AllEncodable(inputs);
    FilteredKeeps(inputs);
  }

  lemma FinishEncodes(st: Store, cfg: Config, cid: int, id: int, commit: bool, sent: seq<PutInput>, failed: set<string>, found: bool, now: int)
    requires AllReadback(st) && found == BatchIn(st, id, cid)
    ensures AllEncode(PlanFinish(st, cfg, cid, id, commit, sent, failed, found, now).effects)
    ensures PlanFinish(st, cfg, cid, id, commit, sent, failed, found, now).resp.status != 500
  {
    if found { ReadbackParses(st.batches[id].bsos); }
  }

  lemma ReadbackStored(st: Store, b: int, batch: Batch)
    requires AllReadback(st) && Readback(batch.bsos)
    ensures AllReadback(st.(batches := st.batches[b := batch]))
  {}

  lemma ReadbackAfter(st: Store, e: Effect)
    requires AllReadback(st) && Encodes(e)
    ensures AllReadback(Apply(st, e))
  {
    if e.BatchCreate? {
      ReadbackStored(st, st.nextBatch, Batch(e.cid, e.now, e.data));
    } else if e.BatchAppend? && BatchIn(st, e.id, e.cid) {
      ReadbackConcat(st.batches[e.id].bsos, e.data);
      ReadbackStored(st, e.id, Batch(e.cid, e.now, st.batches[e.id].bsos + e.data));
    }
  }

  lemma ConsEncodes(e: Effect, es: seq<Effect>)
    requires Encodes(e) && AllEncode(es)
    ensures AllEncode([e] + es)
  {}

  lemma CreateEncodes(st: Store, cfg: Config, cid: int, commit: bool, filtered: seq<PutInput>, failed: set<string>, tm: Times)
    requires AllReadback(st) && Readback(EncodeAll(filtered))
    ensures var plan := PlanCreate(st, cfg, cid, commit, filtered, failed, tm);
            AllEncode(plan.effects) && plan.resp.status != 500
  {
    var first, now := BatchCreate(cid, EncodeAll(filtered), Now(tm.middle)), Now(tm.write);
    ReadbackAfter(st, first);
    FinishEncodes(Apply(st, first), cfg, cid, st.nextBatch, commit, filtered, failed, true, now);
    ConsEncodes(first, PlanFinish(Apply(st, first), cfg, cid, st.nextBatch, commit, filtered, failed, true, now).effects);
  }

  lemma AppendMoreEncodes(st: Store, cfg: Config, cid: int, id: int, commit: bool, filtered: seq<PutInput>, failed: set<string>, tm: Times)
    requires AllReadback(st) && Readback(EncodeAll(filtered)) && BatchIn(st, id, cid) && filtered != []
    ensures var plan := PlanAppend(st, cfg, cid, id, commit, filtered, failed, tm);
            AllEncode(plan.effects) && plan.resp.status != 500
  {
    var first, now := BatchAppend(id, cid, EncodeAll(filtered), Now(tm.middle)), Now(tm.write);
    ReadbackAfter(st, first);
    FinishEncodes(Apply(st, first), cfg, cid, id, commit, filtered, failed, true, now);
    ConsEncodes(first, PlanFinish(Apply(st, first), cfg, cid, id, commit, filtered, failed, true, now).effects);
  }

  lemma AppendEncodes(st: Store, cfg: Config, cid: int, id: int, commit: bool, filtered: seq<PutInput>, failed: set<string>, tm: Times)
    requires AllReadback(st) && Readback(EncodeAll(filtered))
    ensures var plan := PlanAppend(st, cfg, cid, id, commit, filtered, failed, tm);
            AllEncode(plan.effects) && plan.resp.status != 500
  {
    if filtered == [] {
      FinishEncodes(st, cfg, cid, id, commit, filtered, failed, BatchIn(st, id, cid), Now(tm.write));
    } else if BatchIn(st, id, cid) {
      AppendMoreEncodes(st, cfg, cid, id, commit, filtered, failed, tm);
    }
  }

  lemma BatchEncodes(st: Store, cfg: Config, cid: int, batch: string, commit: bool, inputs: seq<PutInput>, tm: Times)
    requires AllReadback(st) && Readback(EncodeAll(Filtered(inputs)))
    ensures var plan := PlanBatch(st, cfg, cid, batch, commit, inputs, tm); AllEncode(plan.effects) && plan.resp.status != 500
  {
    if batch == "true" {
      CreateEncodes(st, cfg, cid, commit, Filtered(inputs), Failures(inputs).Keys, tm);
    } else if BatchIdInt(batch).Some? {
      AppendEncodes(st, cfg, cid, BatchIdInt(batch).value, commit, Filtered(inputs), Failures(inputs).Keys, tm);
    }
  }

  lemma PostToEncodes(st: Store, cfg: Config, cid: int, r: Request, tm: Times)
    requires AllReadback(st) && r.CollectionPost?
    ensures var plan := PlanPostTo(st, cfg, cid, r, tm); AllEncode(plan.effects) && plan.resp.status != 500
  {
    BatchOrPlain(st, cfg, cid, r, tm);
    EncodesFrom(PlanPostTo(st, cfg, cid, r, tm), st, cfg, cid, r, tm);
  }

  lemma EncodesFrom(plan: Plan, st: Store, cfg: Config, cid: int, r: Request, tm: Times)
    requires AllReadback(st)
    requires || Plain(plan)
             || (UsesBatch(r) && r.body.Some? && DecodeBody(r.body.value, cfg.maxRecordPayloadBytes).Some?
                 && plan == PlanBatch(st, cfg, cid, r.batch.value, r.commit, DecodeBody(r.body.value, cfg.maxRecordPayloadBytes).value.inputs, tm))
    ensures AllEncode(plan.effects) && plan.resp.status != 500
  {
    if !Plain(plan) {
      FilteredReadback(r.body.value, cfg.maxRecordPayloadBytes);
      BatchEncodes(st, cfg, cid, r.batch.value, r.commit, DecodeBody(r.body.value, cfg.maxRecordPayloadBytes).value.inputs, tm);
    }
  }

  /** A POST that does not get as far as a batch has at most one operation, and it is not about batches. */
  lemma BatchOrPlain(st: Store, cfg: Config, cid: int, r: Request, tm: Times)
    requires r.CollectionPost?
    ensures var plan := PlanPostTo(st, cfg, cid, r, tm);
            || Plain(plan)
            || (UsesBatch(r) && r.body.Some? && DecodeBody(r.body.value, cfg.maxRecordPayloadBytes).Some?
                && plan == PlanBatch(st, cfg, cid, r.batch.value, r.commit, DecodeBody(r.body.value, cfg.maxRecordPayloadBytes).value.inputs, tm))
  {
    assert Plain(PlanClassic(cfg, cid, r.body, Now(tm.write)));
    if UsesBatch(r) { BodyOrPlain(st, cfg, cid, r.batch.value, r.commit, r.body, tm); }
  }

  predicate Plain(plan: Plan) {
    plan.resp.status != 500 && (plan.effects == [] || (|plan.effects| == 1 && plan.effects[0].PostBSOs?))
  }

  lemma BodyOrPlain(st: Store, cfg: Config, cid: int, batch: string, commit: bool, body: Option<seq<RawRecord>>, tm: Times)
    ensures var plan := PlanBatchBody(st, cfg, cid, batch, commit, body, tm);
            || Plain(plan)
            || (body.Some? && DecodeBody(body.value, cfg.maxRecordPayloadBytes).Some?
                && plan == PlanBatch(st, cfg, cid, batch, commit, DecodeBody(body.value, cfg.maxRecordPayloadBytes).value.inputs, tm))
  {}

  lemma PostEncodes(st: Store, cfg: Config, r: Request, tm: Times)
    requires AllReadback(st) && r.CollectionPost?
    ensures var plan := PlanPost(st, cfg, r, tm); AllEncode(plan.effects) && plan.resp.status != 500
  {
    var st1 := ApplyAll(st, Automake(st, r.coll, tm));
    if r.coll !in st.names { ApplyOne(st, CreateCollection(r.coll, Now(tm.create))); }
    PostToEncodes(st1, cfg, CidOf(st1, r.coll), r, tm);
  }

  lemma {:induction false} ReadbackThrough(st: Store, es: seq<Effect>)
    requires AllReadback(st) && AllEncode(es)
    ensures AllReadback(ApplyAll(st, es))
  {
    if es != [] {
      var n := |es| - 1;
      ReadbackThrough(st, es[..n]);
      ReadbackAfter(ApplyAll(st, es[..n]), es[n]);
    }
  }

  lemma StepReadback(sv: Server, cfg: Config, step: Step)
    requires AllReadback(sv.store)
    ensures AllReadback(Next(sv, cfg, step).store)
  {
    if step.Serve? && step.r.CollectionPost? { PostEncodes(sv.store, cfg, step.r, step.tm); }
    ReadbackThrough(sv.store, StepEffects(sv, cfg, step));
  }

  lemma {:induction false} RunReadback(sv: Server, cfg: Config, steps: seq<Step>)
    requires AllReadback(sv.store)
    ensures AllReadback(Run(sv, cfg, steps).store)
    decreases |steps|
  {
    if steps != [] {
      StepReadback(sv, cfg, steps[0]);
      RunReadback(Next(sv, cfg, steps[0]), cfg, steps[1..]);
    }
  }

  /** A request for which the name of the collection is looked at first, or after a valid id. */
  predicate ChecksName(r: Request) {
    r.CollectionGet? || r.CollectionDelete? || ((r.BsoGet? || r.BsoPut?) && BSOIdOk(r.id))
  }

  /**
    After any run from a new database, a request is answered with 500 exactly if the
    handler is open and the name of its collection is not valid: no stored batch fails to
    be read, and no search is refused by the database.
   */
  lemma InternalErrorExactly(st: Store, clock: nat, cfg: Config, steps: seq<Step>, r: Request, tm: Times, arrange: Arrange)
    requires Fresh(st) && ValidRun(Server(st, None, false, clock), cfg, steps)
    ensures var sv := Run(Server(st, None, false, clock), cfg, steps);
            Answer(sv, cfg, r, tm, arrange).status == 500 <==> !sv.stopped && ChecksName(r) && !CollectionNameOk(r.coll)
  {
    var start := Server(st, None, false, clock);
    RunReadback(start, cfg, steps);
    AnswerNot500(Run(start, cfg, steps).store, cfg, r, tm, arrange);
  }

  lemma AnswerNot500(st: Store, cfg: Config, r: Request, tm: Times, arrange: Arrange)
    requires AllReadback(st)
    ensures PlanRequest(st, cfg, r, tm, arrange).resp.status == 500 <==> ChecksName(r) && !CollectionNameOk(r.coll)
  {
    if r.CollectionPost? { PostEncodes(st, cfg, r, tm); }
  }

  /** What a batch holds once these records are appended to it. */
  function Grown(st: Store, b: int, more: seq<PutInput>): string
    requires b in st.batches
  {
    st.batches[b].bsos + EncodeAll(more)
  }

  /** If a batch could not be read after all, its commit would be answered with 500 and keep it, with what was appended. */
  lemma UnreadableBatchKept(st: Store, cfg: Config, r: Request, tm: Times, b: int, cid: int)
    requires Accepted(st, cfg, r, cid) && NamesBatch(r, b) && r.commit && BatchIn(st, b, cid)
    requires var lines := Lines(Grown(st, b, Filtered(Inputs(r.body.value, cfg.maxRecordPayloadBytes))));
             |lines| <= cfg.maxTotalRecords && ParseLines(lines).None?
    ensures PlanPost(st, cfg, r, tm).resp.status == 500
    ensures var st' := ApplyAll(st, PlanPost(st, cfg, r, tm).effects);
            && st'.bsos == st.bsos && st'.collections == st.collections && st'.storage == st.storage
            && BatchIn(st', b, cid) && st'.batches[b].bsos == Grown(st, b, Filtered(Inputs(r.body.value, cfg.maxRecordPayloadBytes)))
            && forall c :: c in st.batches && c != b ==> c in st'.batches && st'.batches[c] == st.batches[c]
  {
    var inputs := Inputs(r.body.value, cfg.maxRecordPayloadBytes);
    AcceptedPlan(st, cfg, r, tm, cid);
    UnreadableAppend(st, cfg, cid, b, Filtered(inputs), Failures(inputs).Keys, tm);
    AfterAppend(st, b, cid, Filtered(inputs), tm);
  }

  lemma UnreadableAppend(st: Store, cfg: Config, cid: int, b: int, filtered: seq<PutInput>, failed: set<string>, tm: Times)
    requires BatchIn(st, b, cid) && |Lines(Grown(st, b, filtered))| <= cfg.maxTotalRecords && ParseLines(Lines(Grown(st, b, filtered))).None?
    ensures PlanAppend(st, cfg, cid, b, true, filtered, failed, tm) == Plan(AppendIfAny(b, cid, filtered, tm), Status(500))
  {
    if filtered == [] {
      GrownByNone(st, b);
      AppendNothingShape(st, cfg, cid, b, failed, tm);
      UnreadableCommit(st, cfg, cid, b, [], failed, Now(tm.write));
    } else {
      var first := BatchAppend(b, cid, EncodeAll(filtered), Now(tm.middle));
      AppendShape(st, cfg, cid, b, filtered, failed, tm);
      AppendData(st, b, cid, EncodeAll(filtered), Now(tm.middle));
      UnreadableCommit(Apply(st, first), cfg, cid, b, filtered, failed, Now(tm.write));
      assert [first] + [] == [first];
    }
  }

  lemma UnreadableCommit(st: Store, cfg: Config, cid: int, b: int, sent: seq<PutInput>, failed: set<string>, now: int)
    requires BatchIn(st, b, cid) && |Lines(st.batches[b].bsos)| <= cfg.maxTotalRecords && ParseLines(Lines(st.batches[b].bsos)).None?
    ensures PlanCommit(st, cfg, cid, b, sent, failed, 500, now) == Plan([], Status(500))
  {}

  lemma GrownByNone(st: Store, b: int)
    requires b in st.batches
    ensures Grown(st, b, []) == st.batches[b].bsos
  {
    assert Encoded([]) == [];
    assert st.batches[b].bsos + "" == st.batches[b].bsos;
  }

  lemma AfterAppend(st: Store, b: int, cid: int, filtered: seq<PutInput>, tm: Times)
    requires BatchIn(st, b, cid)
    ensures var st' := ApplyAll(st, AppendIfAny(b, cid, filtered, tm));
            && st'.bsos == st.bsos && st'.collections == st.collections && st'.storage == st.storage
            && BatchIn(st', b, cid) && st'.batches[b].bsos == Grown(st, b, filtered)
            && forall c :: c in st.batches && c != b ==> c in st'.batches && st'.batches[c] == st.batches[c]
  {
    if filtered == [] {
      GrownByNone(st, b);
    } else {
      ApplyOne(st, BatchAppend(b, cid, EncodeAll(filtered), Now(tm.middle)));
    }
  }
}
