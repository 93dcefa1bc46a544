/**
  From the JSON a client sends to the row in the table: what a PUT, a POST and a commit
  store, field by field, and how long it can be read. A TTL is in seconds in the JSON
  and the row expires that many thousand milliseconds after its stamp.
 */
module Lifetimes {
  import opened Prelude
  import opened Timestamps
  import opened Tables
  import opened Sql
  import opened Json
  import opened Records
  import opened BatchLines
  import opened Requests
  import opened Runs
  import opened BatchProtocol
  import opened Visibility
  import opened Reads
  import Sync

  const INT64_LIMIT: int := 0x8000_0000_0000_0000

  /** A hundred years of 365 days, in milliseconds. */
  const CENTURY: int := 3_153_600_000_000

  // --------------------------------------------------------------- JSON fields

  predicate IsNumber(m: map<string, Json>, key: string, n: int) {
    key in m && m[key] == JInt(n)
  }

  predicate IsText(m: map<string, Json>, key: string, s: string) {
    key in m && m[key] == JString(s)
  }

  predicate IsNull(m: map<string, Json>, key: string) {
    key in m && m[key] == JNull
  }

  /** What a parsed record has of its JSON. */
  lemma ParsedFields(m: map<string, Json>)
    requires ParseRaw(Some(m)).Ok?
    ensures var input := ParseRaw(Some(m)).value;
            && (forall s :: IsText(m, "id", s) ==> input.id == s)
            && (input.payload.Some? <==> "payload" in m) && (input.ttl.Some? <==> "ttl" in m) && (input.sortIndex.Some? <==> "sortindex" in m)
            && (forall s :: IsText(m, "payload", s) ==> input.payload == Some(s)) && (IsNull(m, "payload") ==> input.payload == Some(""))
            && (forall n :: IsNumber(m, "sortindex", n) ==> input.sortIndex == Some(n)) && (IsNull(m, "sortindex") ==> input.sortIndex == Some(0))
            && (forall n :: IsNumber(m, "ttl", n) ==> input.ttl == Some(n)) && (IsNull(m, "ttl") ==> input.ttl == Some(CENTURY / 1000))
  {}

  /** What a row has of the record that was put last. */
  lemma RowFields(bsos: map<Key, Bso>, cid: int, parsed: PutInput, id: string, stamp: int)
    requires PutCheck(ToMilliseconds(parsed).(id := id)).None? && stamp >= 0
    ensures var key, rows := Key(cid, id), PutRow(bsos, cid, ToMilliseconds(parsed).(id := id), stamp);
            && key in rows
            && (forall n :: parsed.ttl == Some(n) && n >= 0 && stamp + 1000 * n < INT64_LIMIT ==> rows[key].ttl == stamp + 1000 * n)
            && (parsed.ttl.None? && key in bsos ==> rows[key].ttl == bsos[key].ttl)
            && (parsed.ttl.None? && key !in bsos && stamp + CENTURY < INT64_LIMIT ==> rows[key].ttl == stamp + CENTURY)
            && (parsed.payload.Some? ==> rows[key].payload == parsed.payload.value)
            && (parsed.payload.None? ==> rows[key].payload == if key in bsos then bsos[key].payload else "")
            && (parsed.sortIndex.Some? ==> rows[key].sortIndex == parsed.sortIndex.value)
            && (parsed.sortIndex.None? ==> rows[key].sortIndex == if key in bsos then bsos[key].sortIndex else 0)
            && rows[key].modified == if key in bsos && parsed.payload.None? && parsed.sortIndex.None? then bsos[key].modified else stamp
    ensures forall k :: k != Key(cid, id) ==>
              var rows := PutRow(bsos, cid, ToMilliseconds(parsed).(id := id), stamp);
              (k in rows <==> k in bsos) && (k in bsos ==> rows[k] == bsos[k])
  {}

  // ----------------------------------------------------------------------- PUT

  /** An accepted PUT: its record and the tables after it. */
  ghost predicate PutDone(sv: Server, cfg: Config, r: Request, tm: Times, arrange: Arrange) {
    Inv(sv) && !sv.stopped && r.BsoPut? && r.record.Some? && Answer(sv, cfg, r, tm, arrange).status == 200
  }

  /** The row of a record before a request, if it was there. */
  function Before(st: Store, coll: string, id: string): Option<Bso> {
    if coll in st.names && Key(st.names[coll], id) in st.bsos then Some(st.bsos[Key(st.names[coll], id)]) else None
  }

  lemma PutDoneIs(sv: Server, cfg: Config, r: Request, tm: Times, arrange: Arrange)
    requires PutDone(sv, cfg, r, tm, arrange)
    ensures ParseRaw(r.record).Ok? && PutCheck(ToMilliseconds(ParseRaw(r.record).value).(id := r.id)).None?
    ensures var now := Next(sv, cfg, Serve(r, tm)).store;
            && Answer(sv, cfg, r, tm, arrange) == Response(200, Some(Now(tm.write)), NoBody)
            && r.coll in now.names && now.names[r.coll] in now.collections
            && now.bsos == PutRow(sv.store.bsos, now.names[r.coll], ToMilliseconds(ParseRaw(r.record).value).(id := r.id), Now(tm.write))
            && now.storage == Now(tm.write) && now.collections[now.names[r.coll]].modified == Now(tm.write)
            && (r.coll in sv.store.names ==> now.names[r.coll] == sv.store.names[r.coll])
            && (r.coll !in sv.store.names ==> forall k :: k in sv.store.bsos ==> k.cid != now.names[r.coll])
  {
    var st1 := PutStore(sv.store, r, tm);
    AcceptedPut(sv.store, cfg, r, tm);
    AutomakeRow(sv.store, r.coll, tm);
    if r.coll !in sv.store.names {
      ApplyOne(sv.store, CreateCollection(r.coll, Now(tm.create)));
      forall k | k in sv.store.bsos ensures k.cid != sv.store.nextCid { assert RowOk(sv.store, k, sv.store.bsos[k]); }
    }
    PutRowsOne(st1.bsos, st1.names[r.coll], PutRecord(r), Now(tm.write));
  }

  /**
    An accepted PUT stores its record under its stamp. The payload and the sort index are
    those of the JSON, null counting as empty or 0, or else what they were, or empty and 0.
    The stamp of the row moves unless only a TTL is given. No other record changes.
   */
  lemma PutStoresContent(sv: Server, cfg: Config, r: Request, tm: Times, arrange: Arrange)
    requires PutDone(sv, cfg, r, tm, arrange)
    ensures var now, m, old_ := Next(sv, cfg, Serve(r, tm)).store, r.record.value, Before(sv.store, r.coll, r.id);
            && Answer(sv, cfg, r, tm, arrange) == Response(200, Some(Now(tm.write)), NoBody)
            && r.coll in now.names && Key(now.names[r.coll], r.id) in now.bsos
            && var row := now.bsos[Key(now.names[r.coll], r.id)];
            && (forall s :: IsText(m, "payload", s) ==> row.payload == s) && (IsNull(m, "payload") ==> row.payload == "")
            && ("payload" !in m ==> row.payload == if old_.Some? then old_.value.payload else "")
            && (forall n :: IsNumber(m, "sortindex", n) ==> row.sortIndex == n) && (IsNull(m, "sortindex") ==> row.sortIndex == 0)
            && ("sortindex" !in m ==> row.sortIndex == if old_.Some? then old_.value.sortIndex else 0)
            && row.modified == if old_.Some? && "payload" !in m && "sortindex" !in m then old_.value.modified else Now(tm.write)
    ensures var now := Next(sv, cfg, Serve(r, tm)).store;
            && now.storage == Now(tm.write) && r.coll in now.names
            && now.names[r.coll] in now.collections && now.collections[now.names[r.coll]].modified == Now(tm.write)
            && forall k :: k != Key(now.names[r.coll], r.id) ==> (k in now.bsos <==> k in sv.store.bsos) && (k in now.bsos ==> now.bsos[k] == sv.store.bsos[k])
  {
    PutDoneIs(sv, cfg, r, tm, arrange);
    ParsedFields(r.record.value);
    RowFields(sv.store.bsos, Next(sv, cfg, Serve(r, tm)).store.names[r.coll], ParseRaw(r.record).value, r.id, Now(tm.write));
  }

  /**
    Its row expires a thousand times the TTL after the stamp that is answered; with a TTL
    of null, or without one on a new record, after a century; without one on a record
    that was there, when it did before.
   */
  lemma PutStoresTTL(sv: Server, cfg: Config, r: Request, tm: Times, arrange: Arrange)
    requires PutDone(sv, cfg, r, tm, arrange)
    ensures var now, m, old_, stamp := Next(sv, cfg, Serve(r, tm)).store, r.record.value, Before(sv.store, r.coll, r.id), Now(tm.write);
            && r.coll in now.names && Key(now.names[r.coll], r.id) in now.bsos
            && var row := now.bsos[Key(now.names[r.coll], r.id)];
            && (forall n :: IsNumber(m, "ttl", n) && n >= 0 && stamp + 1000 * n < INT64_LIMIT ==> row.ttl == stamp + 1000 * n)
            && (IsNull(m, "ttl") && stamp + CENTURY < INT64_LIMIT ==> row.ttl == stamp + CENTURY)
            && ("ttl" !in m && old_.Some? ==> row.ttl == old_.value.ttl)
            && ("ttl" !in m && old_.None? && stamp + CENTURY < INT64_LIMIT ==> row.ttl == stamp + CENTURY)
  {
    PutDoneIs(sv, cfg, r, tm, arrange);
    ParsedFields(r.record.value);
    RowFields(sv.store.bsos, Next(sv, cfg, Serve(r, tm)).store.names[r.coll], ParseRaw(r.record).value, r.id, Now(tm.write));
  }

  // ---------------------------------------------------------------------- POST

  /** The body's value at i is this record: it parses, is not too large, and is valid, its TTL taken in seconds. */
  predicate Storable(raws: seq<RawRecord>, i: nat, maxPayload: int, id: string) {
    && i < |raws| && raws[i].Some? && IsText(raws[i].value, "id", id) && ParseRaw(raws[i]).Ok?
    && var input := ParseRaw(raws[i]).value;
    && !TooLarge(input, maxPayload) && BSOIdOk(id)
    && (input.sortIndex.Some? ==> SortIndexOk(input.sortIndex.value))
    && (input.ttl.Some? ==> 0 <= input.ttl.value && 1000 * input.ttl.value < INT64_LIMIT)
    && (input.payload.Some? || input.ttl.Some? || input.sortIndex.Some?)
  }

  /** No value of the body after i has this id and this field. */
  ghost predicate LastWith(raws: seq<RawRecord>, i: nat, id: string, field: string) {
    forall j :: i < j < |raws| && raws[j].Some? && IsText(raws[j].value, "id", id) ==> field !in raws[j].value
  }

  lemma StorableValid(raws: seq<RawRecord>, i: nat, maxPayload: int, id: string)
    requires Storable(raws, i, maxPayload, id)
    ensures PutCheck(ToMilliseconds(ParseRaw(raws[i]).value)).None? && ToMilliseconds(ParseRaw(raws[i]).value).id == id
  {
    ParsedFields(raws[i].value);
  }

  /** The table after the decoded records of a body are put. */
  ghost function RowsAfter(bsos: map<Key, Bso>, cid: int, raws: seq<RawRecord>, maxPayload: int, now: int): map<Key, Bso>
    requires DecodeBody(raws, maxPayload).Some?
  {
    PutRows(bsos, cid, DecodeBody(raws, maxPayload).value.inputs, now)
  }

  predicate Taken(raw: RawRecord, maxPayload: int) {
    ParseRaw(raw).Ok? && !TooLarge(ParseRaw(raw).value, maxPayload)
  }

  lemma PutRowsSnoc(bsos: map<Key, Bso>, cid: int, inputs: seq<PutInput>, input: PutInput, now: int)
    ensures PutRows(bsos, cid, inputs + [input], now) == PutRow(PutRows(bsos, cid, inputs, now), cid, input, now)
  {
    assert (inputs + [input])[..|inputs|] == inputs;
  }

  lemma DecodeSnoc(raws: seq<RawRecord>, maxPayload: int)
    requires raws != [] && DecodeBody(raws, maxPayload).Some?
    ensures var n := |raws| - 1;
            && DecodeBody(raws[..n], maxPayload).Some?
            && DecodeBody(raws, maxPayload).value.inputs ==
               DecodeBody(raws[..n], maxPayload).value.inputs + if Taken(raws[n], maxPayload) then [ToMilliseconds(ParseRaw(raws[n]).value)] else []
  {
    var n := |raws| - 1;
    var before := ParseBody(raws[..n], maxPayload).value.inputs;
    if Taken(raws[n], maxPayload) {
      assert AllToMilliseconds(before + [ParseRaw(raws[n]).value]) == AllToMilliseconds(before) + [ToMilliseconds(ParseRaw(raws[n]).value)];
    } else {
      assert AllToMilliseconds(before) + [] == AllToMilliseconds(before);
    }
  }

  /** One more value of the body. */
  lemma RowsAfterSnoc(bsos: map<Key, Bso>, cid: int, raws: seq<RawRecord>, maxPayload: int, now: int)
    requires raws != [] && DecodeBody(raws, maxPayload).Some?
    ensures var n := |raws| - 1;
            && DecodeBody(raws[..n], maxPayload).Some?
            && RowsAfter(bsos, cid, raws, maxPayload, now) ==
               var rows := RowsAfter(bsos, cid, raws[..n], maxPayload, now);
               if Taken(raws[n], maxPayload) then PutRow(rows, cid, ToMilliseconds(ParseRaw(raws[n]).value), now) else rows
  {
    var n := |raws| - 1;
    DecodeSnoc(raws, maxPayload);
    var inputs := DecodeBody(raws[..n], maxPayload).value.inputs;
    assert inputs + [] == inputs;
    if Taken(raws[n], maxPayload) { PutRowsSnoc(bsos, cid, inputs, ToMilliseconds(ParseRaw(raws[n]).value), now); }
  }

  /** A value after the record leaves the field of its row that it does not carry. */
  lemma LaterKeeps(rows: map<Key, Bso>, cid: int, raw: RawRecord, maxPayload: int, now: int, id: string)
    requires Taken(raw, maxPayload) && raw.Some? && Key(cid, id) in rows && now >= 0
    ensures var key, rows' := Key(cid, id), PutRow(rows, cid, ToMilliseconds(ParseRaw(raw).value), now);
            && key in rows'
            && ((IsText(raw.value, "id", id) && "ttl" in raw.value) || rows'[key].ttl == rows[key].ttl)
            && ((IsText(raw.value, "id", id) && "payload" in raw.value) || rows'[key].payload == rows[key].payload)
            && ((IsText(raw.value, "id", id) && "sortindex" in raw.value) || rows'[key].sortIndex == rows[key].sortIndex)
  {
    ParsedFields(raw.value);
    IdIsText(raw.value);
  }

  /** A record with an id has it as text in its JSON. */
  lemma IdIsText(m: map<string, Json>)
    requires ParseRaw(Some(m)).Ok?
    ensures ParseRaw(Some(m)).value.id != "" ==> IsText(m, "id", ParseRaw(Some(m)).value.id)
  {}

  /** The row of a record a body stores, after the whole body. */
  ghost predicate RowOf(rows: map<Key, Bso>, cid: int, raws: seq<RawRecord>, i: nat, id: string, stamp: int)
    requires i < |raws| && raws[i].Some?
  {
    var key, m := Key(cid, id), raws[i].value;
    && key in rows
    && (forall n :: IsNumber(m, "ttl", n) && LastWith(raws, i, id, "ttl") && stamp + 1000 * n < INT64_LIMIT ==> rows[key].ttl == stamp + 1000 * n)
    && (forall s :: IsText(m, "payload", s) && LastWith(raws, i, id, "payload") ==> rows[key].payload == s)
    && (forall n :: IsNumber(m, "sortindex", n) && LastWith(raws, i, id, "sortindex") ==> rows[key].sortIndex == n)
  }

  lemma FirstRow(rows: map<Key, Bso>, cid: int, raws: seq<RawRecord>, i: nat, maxPayload: int, id: string, stamp: int)
    requires Storable(raws, i, maxPayload, id) && stamp >= 0
    ensures RowOf(PutRow(rows, cid, ToMilliseconds(ParseRaw(raws[i]).value), stamp), cid, raws[..i + 1], i, id, stamp)
  {
    var parsed := ParseRaw(raws[i]).value;
    StorableValid(raws, i, maxPayload, id);
    ParsedFields(raws[i].value);
    assert ToMilliseconds(parsed).(id := id) == ToMilliseconds(parsed);
    RowFields(rows, cid, parsed, id, stamp);
  }

  lemma LastWithPrefix(raws: seq<RawRecord>, i: nat, n: nat, id: string, field: string)
    requires i < n <= |raws| && LastWith(raws, i, id, field)
    ensures LastWith(raws[..n], i, id, field)
    ensures n < |raws| && raws[n].Some? && IsText(raws[n].value, "id", id) ==> field !in raws[n].value
  {
    forall j | i < j < n && raws[..n][j].Some? && IsText(raws[..n][j].value, "id", id) ensures field !in raws[..n][j].value { assert raws[..n][j] == raws[j]; }
  }

  lemma NextRow(rows: map<Key, Bso>, cid: int, raws: seq<RawRecord>, i: nat, maxPayload: int, id: string, stamp: int)
    requires i < |raws| - 1 && raws[i].Some? && RowOf(rows, cid, raws[..|raws| - 1], i, id, stamp) && stamp >= 0
    ensures var n := |raws| - 1;
            RowOf(if Taken(raws[n], maxPayload) then PutRow(rows, cid, ToMilliseconds(ParseRaw(raws[n]).value), stamp) else rows, cid, raws, i, id, stamp)
  {
    var n := |raws| - 1;
    if LastWith(raws, i, id, "ttl") { LastWithPrefix(raws, i, n, id, "ttl"); }
    if LastWith(raws, i, id, "payload") { LastWithPrefix(raws, i, n, id, "payload"); }
    if LastWith(raws, i, id, "sortindex") { LastWithPrefix(raws, i, n, id, "sortindex"); }
    if Taken(raws[n], maxPayload) { LaterKeeps(rows, cid, raws[n], maxPayload, stamp, id); }
  }

  /**
    Every record a body stores has its row after it: expiring a thousand times its TTL
    after the stamp, unless a later value of the body gives that id another TTL, and so
    for its payload and its sort index.
   */
  lemma {:induction false} BodyStores(bsos: map<Key, Bso>, cid: int, raws: seq<RawRecord>, maxPayload: int, stamp: int, i: nat, id: string)
    requires DecodeBody(raws, maxPayload).Some? && Storable(raws, i, maxPayload, id) && stamp >= 0
    ensures RowOf(RowsAfter(bsos, cid, raws, maxPayload, stamp), cid, raws, i, id, stamp)
    decreases |raws|
  {
    var n := |raws| - 1;
    RowsAfterSnoc(bsos, cid, raws, maxPayload, stamp);
    var rows := RowsAfter(bsos, cid, raws[..n], maxPayload, stamp);
    if i == n {
      FirstRow(rows, cid, raws, i, maxPayload, id, stamp);
      assert raws[..i + 1] == raws;
    } else {
      assert raws[..n][i] == raws[i];
      BodyStores(bsos, cid, raws[..n], maxPayload, stamp, i, id);
      NextRow(rows, cid, raws, i, maxPayload, id, stamp);
    }
  }

  /** A plain POST that is answered with 200. */
  ghost predicate PostDone(sv: Server, cfg: Config, r: Request, tm: Times, arrange: Arrange) {
    && Inv(sv) && !sv.stopped && r.CollectionPost? && r.headers == Headers("", "") && r.batch.None? && !r.commit && r.body.Some?
    && Answer(sv, cfg, r, tm, arrange).status == 200
  }

  lemma PostDoneIs(sv: Server, cfg: Config, r: Request, tm: Times, arrange: Arrange)
    requires PostDone(sv, cfg, r, tm, arrange)
    ensures var now := Next(sv, cfg, Serve(r, tm)).store;
            && DecodeBody(r.body.value, cfg.maxRecordPayloadBytes).Some? && CollectionNameOk(r.coll)
            && r.coll in now.names && now.names[r.coll] in now.collections
            && now.bsos == RowsAfter(sv.store.bsos, now.names[r.coll], r.body.value, cfg.maxRecordPayloadBytes, Now(tm.write))
            && now.storage == Now(tm.write) && now.collections[now.names[r.coll]].modified == Now(tm.write)
            && Answer(sv, cfg, r, tm, arrange).lastModified == Some(Now(tm.write))
  {
    var st1 := Made(sv.store, r, tm);
    MadePlan(sv.store, cfg, r, tm);
    AutomakeRow(sv.store, r.coll, tm);
    PlainPlan(st1, cfg, r, tm);
    if r.coll !in sv.store.names { ApplyOne(sv.store, CreateCollection(r.coll, Now(tm.create))); }
  }

  lemma PlainPlan(st: Store, cfg: Config, r: Request, tm: Times)
    requires r.CollectionPost? && r.headers == Headers("", "") && r.batch.None? && !r.commit && r.body.Some? && CollectionNameOk(r.coll) && r.coll in st.names
    requires PlanPost(st, cfg, r, tm).resp.status == 200
    ensures var decoded := DecodeBody(r.body.value, cfg.maxRecordPayloadBytes);
            && decoded.Some? && PlanPost(st, cfg, r, tm).resp.lastModified == Some(Now(tm.write))
            && ApplyAll(st, PlanPost(st, cfg, r, tm).effects) == Apply(st, PostBSOs(st.names[r.coll], decoded.value.inputs, Now(tm.write)))
  {
    var plan := PlanClassic(cfg, st.names[r.coll], r.body, Now(tm.write));
    assert Automake(st, r.coll, tm) == [] && ApplyAll(st, []) == st;
    assert [] + plan.effects == plan.effects;
    ApplyOne(st, PostBSOs(st.names[r.coll], DecodeBody(r.body.value, cfg.maxRecordPayloadBytes).value.inputs, Now(tm.write)));
  }

  /** Each record a POST stores has its row, with the TTL of its JSON counted from the stamp that is answered. */
  lemma PostStores(sv: Server, cfg: Config, r: Request, tm: Times, arrange: Arrange, i: nat, id: string)
    requires PostDone(sv, cfg, r, tm, arrange) && Storable(r.body.value, i, cfg.maxRecordPayloadBytes, id)
    ensures var now := Next(sv, cfg, Serve(r, tm)).store;
            && r.coll in now.names && RowOf(now.bsos, now.names[r.coll], r.body.value, i, id, Now(tm.write))
            && Answer(sv, cfg, r, tm, arrange).lastModified == Some(Now(tm.write))
            && now.storage == Now(tm.write) && CollectionStamp(now, now.names[r.coll]) == Now(tm.write)
  {
    var now := Next(sv, cfg, Serve(r, tm)).store;
    PostDoneIs(sv, cfg, r, tm, arrange);
    BodyStores(sv.store.bsos, now.names[r.coll], r.body.value, cfg.maxRecordPayloadBytes, Now(tm.write), i, id);
  }

  // -------------------------------------------------------------------- commits

  /** A batch that is created, filled by any steps and committed, all of it fitting. */
  ghost predicate BatchDone(sv: Server, cfg: Config, create: Step, steps: seq<Step>, commit: Step, cid: int) {
    && Inv(sv) && create.Serve? && commit.Serve? && !sv.stopped && Enabled(sv, create)
    && create.r.CollectionPost? && Accepted(BatchProtocol.Made(sv.store, create.r, create.tm), cfg, create.r, cid)
    && create.r.batch == Some("true") && !create.r.commit
    && ValidRun(Next(sv, cfg, create), cfg, steps)
    && var b, s2 := sv.store.nextBatch, Run(Next(sv, cfg, create), cfg, steps);
    && b in s2.store.batches && !s2.stopped
    && Accepted(s2.store, cfg, commit.r, cid) && NamesBatch(commit.r, b) && commit.r.commit
    && WithinLimits(AllUploads(sv, cfg, create, steps, commit, cid), cfg)
    && (Clean(AllUploads(sv, cfg, create, steps, commit, cid), cfg.maxRecordPayloadBytes) ==>
          AllFit(Filtered(Inputs(AllUploads(sv, cfg, create, steps, commit, cid), cfg.maxRecordPayloadBytes))))
  }

  /** Each record of a committed batch has its row, with the TTL of its JSON counted from the stamp of the commit. */
  lemma CommitStores(sv: Server, cfg: Config, create: Step, steps: seq<Step>, commit: Step, cid: int, i: nat, id: string)
    requires BatchDone(sv, cfg, create, steps, commit, cid)
    requires Storable(AllUploads(sv, cfg, create, steps, commit, cid), i, cfg.maxRecordPayloadBytes, id)
    ensures var now := Next(Run(Next(sv, cfg, create), cfg, steps), cfg, commit).store;
            RowOf(now.bsos, cid, AllUploads(sv, cfg, create, steps, commit, cid), i, id, Now(commit.tm.write))
  {
    var s2, all := Run(Next(sv, cfg, create), cfg, steps), AllUploads(sv, cfg, create, steps, commit, cid);
    BatchRefinesPost(sv, cfg, create, steps, commit, cid);
    PlainPostRows(s2.store, cfg, cid, all, Now(commit.tm.write));
    BodyStores(s2.store.bsos, cid, all, cfg.maxRecordPayloadBytes, Now(commit.tm.write), i, id);
  }

  lemma PlainPostRows(st: Store, cfg: Config, cid: int, raws: seq<RawRecord>, now: int)
    requires Clean(raws, cfg.maxRecordPayloadBytes)
    ensures PlainPost(st, cfg, cid, raws, now).bsos == RowsAfter(st.bsos, cid, raws, cfg.maxRecordPayloadBytes, now)
  {
    NoMoreInputs(raws, cfg.maxRecordPayloadBytes);
    ApplyOne(st, PostBSOs(cid, Inputs(raws, cfg.maxRecordPayloadBytes), now));
  }

  // ------------------------------------------------------------- until it expires

  /**
    A record that is in the tables, left alone by a run with any purges, is returned by a
    GET of its collection exactly while its expiry lies ahead.
   */
  lemma ReturnedUntil(sv: Server, cfg: Config, steps: seq<Step>, coll: string, id: string, sort: SortType, tm: Times, arrange: Arrange)
    requires Inv(sv) && ValidRun(sv, cfg, steps) && !Run(sv, cfg, steps).stopped && IsArrangement(arrange)
    requires CollectionNameOk(coll) && coll in sv.store.names && Key(sv.store.names[coll], id) in sv.store.bsos
    requires LeavesAlone(Log(sv, cfg, steps), Key(sv.store.names[coll], id))
    requires Run(sv, cfg, steps).clock <= tm.middle && StampLimit(Run(sv, cfg, steps)) < MAX_TIMESTAMP
    ensures var resp := Answer(Run(sv, cfg, steps), cfg, GetAll(coll, [], sort), tm, arrange);
            && resp.status == 200 && resp.body.Rows?
            && ((exists row :: row in resp.body.rows && row.id == id) <==> Now(tm.middle) < sv.store.bsos[Key(sv.store.names[coll], id)].ttl)
  {
    var s2, r, key, q := Run(sv, cfg, steps), GetAll(coll, [], sort), Key(sv.store.names[coll], id), Now(tm.middle);
    RunKeeps(sv, cfg, steps);
    RunAppliesLog(sv, cfg, steps);
    RunPurges(sv, cfg, steps, tm.middle);
    StaysThrough(sv.store, Log(sv, cfg, steps), key, q);
    Sync.NamesStay(sv.store, Log(sv, cfg, steps), coll);
    GetReturns(s2, cfg, r, tm, arrange);
    var rows := Answer(s2, cfg, r, tm, arrange).body.rows;
    if q < sv.store.bsos[key].ttl {
      var b := s2.store.bsos[key];
      assert RowOk(s2.store, key, b) && StampTo(s2.store.collections[key.cid].modified, StampLimit(s2));
      assert Returned(s2.store, r, q, Row(id, b.sortIndex, b.payload, b.modified, b.ttl));
    }
  }

  /** A record put with a TTL of n seconds is returned by a GET at tick q exactly if q < stamp + 1000 n. */
  lemma PutLives(sv: Server, cfg: Config, put: Step, steps: seq<Step>, n: nat, sort: SortType, tm: Times, arrange: Arrange)
    requires put.Serve? && Enabled(sv, put) && PutDone(sv, cfg, put.r, put.tm, arrange) && IsArrangement(arrange)
    requires IsNumber(put.r.record.value, "ttl", n) && Now(put.tm.write) + 1000 * n < INT64_LIMIT
    requires ValidRun(Next(sv, cfg, put), cfg, steps) && !Run(Next(sv, cfg, put), cfg, steps).stopped
    requires put.r.coll in Next(sv, cfg, put).store.names
    requires LeavesAlone(Log(Next(sv, cfg, put), cfg, steps), Key(Next(sv, cfg, put).store.names[put.r.coll], put.r.id))
    requires Run(Next(sv, cfg, put), cfg, steps).clock <= tm.middle && StampLimit(Run(Next(sv, cfg, put), cfg, steps)) < MAX_TIMESTAMP
    ensures var resp := Answer(Run(Next(sv, cfg, put), cfg, steps), cfg, GetAll(put.r.coll, [], sort), tm, arrange);
            && resp.status == 200 && resp.body.Rows?
            && ((exists row :: row in resp.body.rows && row.id == put.r.id) <==> Now(tm.middle) < Now(put.tm.write) + 1000 * n)
  {
    PutStoresTTL(sv, cfg, put.r, put.tm, arrange);
    AcceptedPut(sv.store, cfg, put.r, put.tm);
    StepKeeps(sv, cfg, put);
    ReturnedUntil(Next(sv, cfg, put), cfg, steps, put.r.coll, put.r.id, sort, tm, arrange);
  }

  /** The same for a record of a POST. */
  lemma PostLives(sv: Server, cfg: Config, post: Step, steps: seq<Step>, i: nat, id: string, n: nat, sort: SortType, tm: Times, arrange: Arrange)
    requires post.Serve? && Enabled(sv, post) && PostDone(sv, cfg, post.r, post.tm, arrange) && IsArrangement(arrange)
    requires Storable(post.r.body.value, i, cfg.maxRecordPayloadBytes, id) && LastWith(post.r.body.value, i, id, "ttl")
    requires IsNumber(post.r.body.value[i].value, "ttl", n) && Now(post.tm.write) + 1000 * n < INT64_LIMIT
    requires ValidRun(Next(sv, cfg, post), cfg, steps) && !Run(Next(sv, cfg, post), cfg, steps).stopped
    requires post.r.coll in Next(sv, cfg, post).store.names
    requires LeavesAlone(Log(Next(sv, cfg, post), cfg, steps), Key(Next(sv, cfg, post).store.names[post.r.coll], id))
    requires Run(Next(sv, cfg, post), cfg, steps).clock <= tm.middle && StampLimit(Run(Next(sv, cfg, post), cfg, steps)) < MAX_TIMESTAMP
    ensures var resp := Answer(Run(Next(sv, cfg, post), cfg, steps), cfg, GetAll(post.r.coll, [], sort), tm, arrange);
            && resp.status == 200 && resp.body.Rows?
            && ((exists row :: row in resp.body.rows && row.id == id) <==> Now(tm.middle) < Now(post.tm.write) + 1000 * n)
  {
    PostStores(sv, cfg, post.r, post.tm, arrange, i, id);
    PostDoneIs(sv, cfg, post.r, post.tm, arrange);
    StepKeeps(sv, cfg, post);
    ReturnedUntil(Next(sv, cfg, post), cfg, steps, post.r.coll, id, sort, tm, arrange);
  }

  /** And for a record of a committed batch, counted from the commit. */
  lemma CommitLives(sv: Server, cfg: Config, create: Step, steps: seq<Step>, commit: Step, cid: int, i: nat, id: string, n: nat,
                    after: seq<Step>, sort: SortType, tm: Times, arrange: Arrange)
    requires BatchDone(sv, cfg, create, steps, commit, cid) && IsArrangement(arrange)
    requires Enabled(Run(Next(sv, cfg, create), cfg, steps), commit)
    requires Storable(AllUploads(sv, cfg, create, steps, commit, cid), i, cfg.maxRecordPayloadBytes, id)
    requires LastWith(AllUploads(sv, cfg, create, steps, commit, cid), i, id, "ttl")
    requires IsNumber(AllUploads(sv, cfg, create, steps, commit, cid)[i].value, "ttl", n) && Now(commit.tm.write) + 1000 * n < INT64_LIMIT
    requires var s3 := Next(Run(Next(sv, cfg, create), cfg, steps), cfg, commit);
             && ValidRun(s3, cfg, after) && !Run(s3, cfg, after).stopped && LeavesAlone(Log(s3, cfg, after), Key(cid, id))
             && Run(s3, cfg, after).clock <= tm.middle && StampLimit(Run(s3, cfg, after)) < MAX_TIMESTAMP
    ensures var s3 := Next(Run(Next(sv, cfg, create), cfg, steps), cfg, commit);
            var resp := Answer(Run(s3, cfg, after), cfg, GetAll(commit.r.coll, [], sort), tm, arrange);
            && resp.status == 200 && resp.body.Rows?
            && ((exists row :: row in resp.body.rows && row.id == id) <==> Now(tm.middle) < Now(commit.tm.write) + 1000 * n)
  {
    var s1 := Next(sv, cfg, create);
    var s2 := Run(s1, cfg, steps);
    StepKeeps(sv, cfg, create);
    RunKeeps(s1, cfg, steps);
    StepKeeps(s2, cfg, commit);
    CommitStores(sv, cfg, create, steps, commit, cid, i, id);
    BatchRefinesPost(sv, cfg, create, steps, commit, cid);
    ReturnedUntil(Next(s2, cfg, commit), cfg, after, commit.r.coll, id, sort, tm, arrange);
  }

  // --------------------------------------------------------------- past 64 bits

  lemma ExpiryWraps(stamp: int, ttl: int)
    requires 0 <= stamp < INT64_LIMIT && 0 <= ttl < INT64_LIMIT <= stamp + ttl
    ensures Expiry(stamp, ttl) == stamp + ttl - 2 * INT64_LIMIT < 0
  {}

  lemma WrappedRow(bsos: map<Key, Bso>, cid: int, parsed: PutInput, id: string, stamp: int, n: nat)
    requires PutCheck(ToMilliseconds(parsed).(id := id)).None? && parsed.ttl == Some(n)
    requires 0 <= stamp < INT64_LIMIT && 1000 * n < INT64_LIMIT <= stamp + 1000 * n
    ensures var key, rows := Key(cid, id), PutRow(bsos, cid, ToMilliseconds(parsed).(id := id), stamp);
            key in rows && rows[key].ttl == stamp + 1000 * n - 2 * INT64_LIMIT < 0
  {
    ExpiryWraps(stamp, 1000 * n);
  }

  /**
    A TTL so long that the expiry passes 64 bits wraps into the past: the PUT is answered
    with 200 and no GET ever returns the record, whatever runs that leaves it alone.
   */
  lemma LongLifeLost(sv: Server, cfg: Config, put: Step, steps: seq<Step>, n: nat, sort: SortType, tm: Times, arrange: Arrange)
    requires put.Serve? && Enabled(sv, put) && PutDone(sv, cfg, put.r, put.tm, arrange) && IsArrangement(arrange)
    requires IsNumber(put.r.record.value, "ttl", n) && Now(put.tm.write) < INT64_LIMIT
    requires 1000 * n < INT64_LIMIT <= Now(put.tm.write) + 1000 * n
    requires ValidRun(Next(sv, cfg, put), cfg, steps) && !Run(Next(sv, cfg, put), cfg, steps).stopped
    requires put.r.coll in Next(sv, cfg, put).store.names
    requires LeavesAlone(Log(Next(sv, cfg, put), cfg, steps), Key(Next(sv, cfg, put).store.names[put.r.coll], put.r.id))
    requires Run(Next(sv, cfg, put), cfg, steps).clock <= tm.middle && StampLimit(Run(Next(sv, cfg, put), cfg, steps)) < MAX_TIMESTAMP
    ensures var resp := Answer(Run(Next(sv, cfg, put), cfg, steps), cfg, GetAll(put.r.coll, [], sort), tm, arrange);
            resp.status == 200 && resp.body.Rows? && !(exists row :: row in resp.body.rows && row.id == put.r.id)
  {
    var s1 := Next(sv, cfg, put);
    PutDoneIs(sv, cfg, put.r, put.tm, arrange);
    ParsedFields(put.r.record.value);
    WrappedRow(sv.store.bsos, s1.store.names[put.r.coll], ParseRaw(put.r.record).value, put.r.id, Now(put.tm.write), n);
    AcceptedPut(sv.store, cfg, put.r, put.tm);
    StepKeeps(sv, cfg, put);
    ReturnedUntil(s1, cfg, steps, put.r.coll, put.r.id, sort, tm, arrange);
  }
}
