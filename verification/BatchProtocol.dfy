/**
  Batch uploads over whole runs. Creating and appending change nothing a reader can
  see; committing does to the records, the stamps and the collection what one plain
  POST of everything that was uploaded would do at that moment.
 */
module BatchProtocol {
  import opened Prelude
  import opened Timestamps
  import opened Tables
  import opened Records
  import opened BatchLines
  import opened Requests
  import opened Runs

  // --------------------------------------------------------------- isolation

  predicate BatchOnly(e: Effect) {
    e.CreateCollection? || e.BatchCreate? || e.BatchAppend? || e.BatchRemove? || e.BatchPurge?
  }

  /** Same records, same storage stamp, same stamps on the collections that were there. */
  ghost predicate SameToReaders(st: Store, st': Store) {
    && st'.bsos == st.bsos && st'.storage == st.storage
    && forall c :: c in st.collections ==> c in st'.collections && st'.collections[c] == st.collections[c]
  }

  lemma BatchOnlyInvisibleOne(st: Store, e: Effect)
    requires BatchOnly(e) && forall c :: c in st.collections ==> c < st.nextCid
    ensures SameToReaders(st, Apply(st, e)) && st.nextCid <= Apply(st, e).nextCid
    ensures forall c :: c in Apply(st, e).collections ==> c < Apply(st, e).nextCid
  {}

  lemma {:induction false} BatchOnlyInvisible(st: Store, es: seq<Effect>)
    requires AllBatchOnly(es) && forall c :: c in st.collections ==> c < st.nextCid
    ensures SameToReaders(st, ApplyAll(st, es))
    ensures forall c :: c in ApplyAll(st, es).collections ==> c < ApplyAll(st, es).nextCid
  {
    if es != [] {
      BatchOnlyInvisible(st, es[..|es| - 1]);
      BatchOnlyInvisibleOne(ApplyAll(st, es[..|es| - 1]), es[|es| - 1]);
    }
  }

  ghost predicate AllBatchOnly(es: seq<Effect>) {
    forall i :: 0 <= i < |es| ==> BatchOnly(es[i])
  }

  lemma UncommittedBatchOnly(st: Store, cfg: Config, cid: int, batch: string, inputs: seq<PutInput>, tm: Times)
    ensures AllBatchOnly(PlanBatch(st, cfg, cid, batch, false, inputs, tm).effects)
  {}

  /** A batch POST that does not commit is invisible, whether or not its batch exists. */
  lemma CreateAndAppendInvisible(st: Store, cfg: Config, r: Request, tm: Times)
    requires Consistent(st) && r.CollectionPost? && r.batch.Some? && r.batch.value != "" && !r.commit
    ensures SameToReaders(st, ApplyAll(st, PlanPost(st, cfg, r, tm).effects))
  {
    var st1 := ApplyAll(st, Automake(st, r.coll, tm));
    var decoded := if r.body.Some? then DecodeBody(r.body.value, cfg.maxRecordPayloadBytes) else None;
    if decoded.Some? {
      UncommittedBatchOnly(st1, cfg, CidOf(st1, r.coll), r.batch.value, decoded.value.inputs, tm);
    }
    assert AllBatchOnly(PlanPostTo(st1, cfg, CidOf(st1, r.coll), r, tm).effects);
    BatchOnlyInvisible(st, PlanPost(st, cfg, r, tm).effects);
  }

  /** The batch a request names is not there, or is another collection's. */
  predicate NamesNoBatch(st: Store, r: Request)
    requires r.CollectionPost? && r.batch.Some?
  {
    var id := BatchIdInt(r.batch.value);
    r.batch.value != "true" && (r.coll in st.names && id.Some? ==> !BatchIn(st, id.value, st.names[r.coll]))
  }

  /** Such a request changes no record, no stamp and no batch, on any path through the handler. */
  lemma MissingBatchChangesNothing(st: Store, cfg: Config, r: Request, tm: Times)
    requires Consistent(st) && r.CollectionPost? && r.batch.Some? && r.batch.value != "" && NamesNoBatch(st, r)
    ensures var st' := ApplyAll(st, PlanPost(st, cfg, r, tm).effects);
            SameToReaders(st, st') && st'.batches == st.batches
  {
    var made := Automake(st, r.coll, tm);
    var st1 := ApplyAll(st, made);
    if r.coll !in st.names { ApplyOne(st, made[0]); }
    if CollectionNameOk(r.coll) {
      MissingPlan(st1, cfg, CidOf(st1, r.coll), r, tm);
      assert made + [] == made;
    }
    BatchOnlyInvisible(st, made);
  }

  lemma MissingPlan(st: Store, cfg: Config, cid: int, r: Request, tm: Times)
    requires r.CollectionPost? && r.batch.Some? && r.batch.value != "" && r.batch.value != "true"
    requires BatchIdInt(r.batch.value).Some? ==> !BatchIn(st, BatchIdInt(r.batch.value).value, cid)
    ensures PlanPostTo(st, cfg, cid, r, tm).effects == []
  {}

  // ------------------------------------------------------- ids are never reused

  predicate Gone(st: Store, b: int) {
    b < st.nextBatch && b !in st.batches
  }

  lemma {:induction false} GoneStays(st: Store, es: seq<Effect>, b: int)
    requires Gone(st, b)
    ensures Gone(ApplyAll(st, es), b)
  {
    if es != [] {
      GoneStays(st, es[..|es| - 1], b);
      GoneStaysOne(ApplyAll(st, es[..|es| - 1]), es[|es| - 1], b);
    }
  }

  lemma GoneStaysOne(st: Store, e: Effect, b: int)
    requires Gone(st, b)
    ensures Gone(Apply(st, e), b)
  {}

  /** A batch that is gone stays gone: its id is never given out again. */
  lemma BatchIdsNotReused(sv: Server, cfg: Config, steps: seq<Step>, b: int)
    requires Gone(sv.store, b)
    ensures Gone(Run(sv, cfg, steps).store, b)
  {
    RunAppliesLog(sv, cfg, steps);
    GoneStays(sv.store, Log(sv, cfg, steps), b);
  }

  // ------------------------------------------------------------ clean bodies

  /** Every value of the body is a record, and none is refused on decoding. */
  ghost predicate Clean(raws: seq<RawRecord>, maxPayload: int) {
    DecodeBody(raws, maxPayload).Some? && DecodeBody(raws, maxPayload).value.failed == map[]
  }

  /** The records of a clean body, with their TTLs in milliseconds. */
  ghost function Inputs(raws: seq<RawRecord>, maxPayload: int): seq<PutInput>
    requires Clean(raws, maxPayload)
  {
    DecodeBody(raws, maxPayload).value.inputs
  }

  lemma CleanConcat(a: seq<RawRecord>, b: seq<RawRecord>, maxPayload: int)
    requires Clean(a, maxPayload) && Clean(b, maxPayload)
    ensures Clean(a + b, maxPayload) && Inputs(a + b, maxPayload) == Inputs(a, maxPayload) + Inputs(b, maxPayload)
  {
    DecodeConcat(a, b, maxPayload);
    var x, y := ParseBody(a, maxPayload).value.inputs, ParseBody(b, maxPayload).value.inputs;
    assert AllToMilliseconds(x + y) == AllToMilliseconds(x) + AllToMilliseconds(y);
  }

  lemma {:induction false} ParsedEncodable(raws: seq<RawRecord>, maxPayload: int)
    requires ParseBody(raws, maxPayload).Some?
    ensures AllEncodable(ParseBody(raws, maxPayload).value.inputs)
  {
    if raws != [] {
      ParsedEncodable(raws[..|raws| - 1], maxPayload);
    }
  }

  lemma InputsEncodable(raws: seq<RawRecord>, maxPayload: int)
    requires Clean(raws, maxPayload)
    ensures AllEncodable(Inputs(raws, maxPayload))
  {
    ParsedEncodable(raws, maxPayload);
  }

  // ------------------------------------------------------ what a batch collects

  /** The data appended to a batch by a sequence of operations. */
  function Appended(es: seq<Effect>, b: int, cid: int): string {
    if es == [] then ""
    else
      Appended(es[..|es| - 1], b, cid) + Piece(es[|es| - 1], b, cid)
  }

  function Piece(e: Effect, b: int, cid: int): string {
    match e
    case BatchAppend(id, c, data, _) => if id == b && c == cid then data else ""
    case _ => ""
  }

  lemma {:induction false} AppendedConcat(xs: seq<Effect>, ys: seq<Effect>, b: int, cid: int)
    ensures Appended(xs + ys, b, cid) == Appended(xs, b, cid) + Appended(ys, b, cid)
  {
    if ys == [] {
      assert xs + ys == xs;
    } else {
      var n := |ys| - 1;
      assert (xs + ys)[..|xs + ys| - 1] == xs + ys[..n];
      AppendedConcat(xs, ys[..n], b, cid);
      Associative(Appended(xs, b, cid), Appended(ys[..n], b, cid), Piece(ys[n], b, cid));
    }
  }

  lemma {:induction false} NothingAppended(es: seq<Effect>, b: int, cid: int)
    requires forall i :: 0 <= i < |es| ==> !es[i].BatchAppend?
    ensures Appended(es, b, cid) == ""
  {
    if es != [] { NothingAppended(es[..|es| - 1], b, cid); }
  }

  lemma BatchAfterOne(st: Store, e: Effect, b: int, cid: int)
    requires BatchIn(st, b, cid) && b < st.nextBatch && b in Apply(st, e).batches
    ensures BatchIn(Apply(st, e), b, cid)
    ensures Apply(st, e).batches[b].bsos == st.batches[b].bsos + Appended([e], b, cid)
  {
    assert [e][..0] == [];
    assert st.batches[b].bsos + [] == st.batches[b].bsos;
  }

  lemma NextBatchGrows(st: Store, es: seq<Effect>)
    ensures ApplyAll(st, es).nextBatch >= st.nextBatch
  {}

  /** A batch that is still there holds what it held plus what was appended. */
  lemma {:induction false} BatchAfter(st: Store, es: seq<Effect>, b: int, cid: int)
    requires BatchIn(st, b, cid) && b < st.nextBatch && b in ApplyAll(st, es).batches
    ensures BatchIn(ApplyAll(st, es), b, cid)
    ensures ApplyAll(st, es).batches[b].bsos == st.batches[b].bsos + Appended(es, b, cid)
  {
    if es == [] {
      assert st.batches[b].bsos + [] == st.batches[b].bsos;
    } else {
      var n := |es| - 1;
      var mid := ApplyAll(st, es[..n]);
      NextBatchGrows(st, es[..n]);
      if b !in mid.batches { GoneStaysOne(mid, es[n], b); }
      BatchAfter(st, es[..n], b, cid);
      BatchAfterOne(mid, es[n], b, cid);
      AppendedConcat(es[..n], [es[n]], b, cid);
      assert es == es[..n] + [es[n]];
      var x, y, z := st.batches[b].bsos, Appended(es[..n], b, cid), Appended([es[n]], b, cid);
      assert x + y + z == x + (y + z);
    }
  }

  // ------------------------------------------------------------- upload requests

  /** A POST to a collection whose condition holds and whose body is clean and within the request limit. */
  ghost predicate Accepted(st: Store, cfg: Config, r: Request, cid: int) {
    && r.CollectionPost? && CollectionNameOk(r.coll) && r.coll in st.names && st.names[r.coll] == cid
    && Judge(r.headers, CollectionStamp(st, cid)) == Proceed
    && r.body.Some? && Clean(r.body.value, cfg.maxRecordPayloadBytes)
    && |Inputs(r.body.value, cfg.maxRecordPayloadBytes)| <= cfg.maxPOSTRecords
  }

  ghost predicate NamesBatch(r: Request, b: int) {
    r.CollectionPost? && r.batch.Some? && r.batch.value != "" && r.batch.value != "true" && BatchIdInt(r.batch.value) == Some(b)
  }

  /** The records a step uploads into a batch. */
  ghost function UploadOf(sv: Server, cfg: Config, step: Step, b: int, cid: int): seq<RawRecord> {
    if step.Serve? && !sv.stopped && NamesBatch(step.r, b) && Accepted(sv.store, cfg, step.r, cid) then step.r.body.value else []
  }

  ghost function Uploads(sv: Server, cfg: Config, steps: seq<Step>, b: int, cid: int): seq<RawRecord>
    decreases |steps|
  {
    if steps == [] then []
    else UploadOf(sv, cfg, steps[0], b, cid) + Uploads(Next(sv, cfg, steps[0]), cfg, steps[1..], b, cid)
  }

  lemma {:induction false} UploadsClean(sv: Server, cfg: Config, steps: seq<Step>, b: int, cid: int)
    ensures Clean(Uploads(sv, cfg, steps, b, cid), cfg.maxRecordPayloadBytes)
    decreases |steps|
  {
    if steps != [] {
      UploadsClean(Next(sv, cfg, steps[0]), cfg, steps[1..], b, cid);
      CleanConcat(UploadOf(sv, cfg, steps[0], b, cid), Uploads(Next(sv, cfg, steps[0]), cfg, steps[1..], b, cid), cfg.maxRecordPayloadBytes);
    }
  }

  /** What the batch column must hold after these records were uploaded. */
  ghost function Column(raws: seq<RawRecord>, cfg: Config): string
    requires Clean(raws, cfg.maxRecordPayloadBytes)
  {
    EncodeAll(Filtered(Inputs(raws, cfg.maxRecordPayloadBytes)))
  }

  lemma ColumnConcat(a: seq<RawRecord>, b: seq<RawRecord>, cfg: Config)
    requires Clean(a, cfg.maxRecordPayloadBytes) && Clean(b, cfg.maxRecordPayloadBytes)
    ensures Clean(a + b, cfg.maxRecordPayloadBytes) && Column(a + b, cfg) == Column(a, cfg) + Column(b, cfg)
  {
    var x, y := Inputs(a, cfg.maxRecordPayloadBytes), Inputs(b, cfg.maxRecordPayloadBytes);
    CleanConcat(a, b, cfg.maxRecordPayloadBytes);
    FilteredConcat(x, y);
    EncodeAllConcat(Filtered(x), Filtered(y));
  }

  ghost predicate Holding(st: Store, cfg: Config, b: int, cid: int, raws: seq<RawRecord>) {
    && Clean(raws, cfg.maxRecordPayloadBytes)
    && BatchIn(st, b, cid) && b < st.nextBatch
    && st.batches[b].bsos == Column(raws, cfg)
  }

  lemma EmptyColumn(cfg: Config)
    ensures Clean([], cfg.maxRecordPayloadBytes) && Column([], cfg) == ""
  {
    assert Encoded([]) == [];
  }

  lemma FinishAppendsNothing(st: Store, cfg: Config, cid: int, id: int, commit: bool, sent: seq<PutInput>, failed: set<string>, found: bool, now: int, b: int, c: int)
    ensures Appended(PlanFinish(st, cfg, cid, id, commit, sent, failed, found, now).effects, b, c) == ""
  {
    NothingAppended(PlanFinish(st, cfg, cid, id, commit, sent, failed, found, now).effects, b, c);
  }

  lemma AppendedHead(e: Effect, rest: seq<Effect>, b: int, cid: int)
    requires Appended(rest, b, cid) == ""
    ensures Appended([e] + rest, b, cid) == if e.BatchAppend? && e.id == b && e.cid == cid then e.data else ""
  {
    AppendedConcat([e], rest, b, cid);
    assert [e][..0] == [];
  }

  /** Storing filtered records appends their lines to the named batch and to no other. */
  lemma AppendAppends(st: Store, cfg: Config, c: int, id: int, commit: bool, filtered: seq<PutInput>, failed: set<string>, tm: Times, b: int, cid: int)
    requires BatchIn(st, b, cid)
    ensures Appended(PlanAppend(st, cfg, c, id, commit, filtered, failed, tm).effects, b, cid) ==
            if id == b && c == cid then EncodeAll(filtered) else ""
  {
    if filtered == [] {
      FinishAppendsNothing(st, cfg, c, id, commit, filtered, failed, BatchIn(st, id, c), Now(tm.write), b, cid);
      assert Encoded([]) == [];
    } else if BatchIn(st, id, c) {
      var first := BatchAppend(id, c, EncodeAll(filtered), Now(tm.middle));
      var rest := PlanFinish(Apply(st, first), cfg, c, id, commit, filtered, failed, true, Now(tm.write)).effects;
      FinishAppendsNothing(Apply(st, first), cfg, c, id, commit, filtered, failed, true, Now(tm.write), b, cid);
      AppendedHead(first, rest, b, cid);
    }
  }

  lemma CreateAppendsNothing(st: Store, cfg: Config, c: int, commit: bool, filtered: seq<PutInput>, failed: set<string>, tm: Times, b: int, cid: int)
    ensures Appended(PlanCreate(st, cfg, c, commit, filtered, failed, tm).effects, b, cid) == ""
  {
    var first := BatchCreate(c, EncodeAll(filtered), Now(tm.middle));
    FinishAppendsNothing(Apply(st, first), cfg, c, st.nextBatch, commit, filtered, failed, true, Now(tm.write), b, cid);
    AppendedHead(first, PlanFinish(Apply(st, first), cfg, c, st.nextBatch, commit, filtered, failed, true, Now(tm.write)).effects, b, cid);
  }

  /** What a POST to collection c appends to batch b of collection cid. */
  lemma PostToAppends(st: Store, cfg: Config, c: int, r: Request, tm: Times, b: int, cid: int)
    requires r.CollectionPost? && CollectionNameOk(r.coll) && r.coll in st.names && st.names[r.coll] == c && BatchIn(st, b, cid)
    ensures NamesBatch(r, b) && Accepted(st, cfg, r, cid) ==>
              Appended(PlanPostTo(st, cfg, c, r, tm).effects, b, cid) == Column(r.body.value, cfg)
    ensures !(NamesBatch(r, b) && Accepted(st, cfg, r, cid)) ==> Appended(PlanPostTo(st, cfg, c, r, tm).effects, b, cid) == ""
  {
    if r.batch.Some? && r.batch.value != "" && r.body.Some? && Clean(r.body.value, cfg.maxRecordPayloadBytes) {
      var inputs := Inputs(r.body.value, cfg.maxRecordPayloadBytes);
      BatchAppends(st, cfg, c, r.batch.value, r.commit, inputs, tm, b, cid);
      UploadPlan(st, cfg, c, r, tm);
    } else {
      OtherPlan(st, cfg, c, r, tm);
      NothingAppended(PlanPostTo(st, cfg, c, r, tm).effects, b, cid);
    }
  }

  /** A POST of a clean body to a batch is refused, or does what its batch part says. */
  lemma UploadPlan(st: Store, cfg: Config, c: int, r: Request, tm: Times)
    requires r.CollectionPost? && r.batch.Some? && r.batch.value != "" && r.body.Some? && Clean(r.body.value, cfg.maxRecordPayloadBytes)
    ensures PlanPostTo(st, cfg, c, r, tm).effects ==
            if Judge(r.headers, CollectionStamp(st, c)) == Proceed && |Inputs(r.body.value, cfg.maxRecordPayloadBytes)| <= cfg.maxPOSTRecords
            then PlanBatch(st, cfg, c, r.batch.value, r.commit, Inputs(r.body.value, cfg.maxRecordPayloadBytes), tm).effects else []
  {}

  /** Any other POST appends to no batch. */
  lemma OtherPlan(st: Store, cfg: Config, c: int, r: Request, tm: Times)
    requires r.CollectionPost?
    requires !(r.batch.Some? && r.batch.value != "" && r.body.Some? && Clean(r.body.value, cfg.maxRecordPayloadBytes))
    ensures forall i :: 0 <= i < |PlanPostTo(st, cfg, c, r, tm).effects| ==> PlanPostTo(st, cfg, c, r, tm).effects[i].PostBSOs?
  {}

  lemma BatchAppends(st: Store, cfg: Config, c: int, batch: string, commit: bool, inputs: seq<PutInput>, tm: Times, b: int, cid: int)
    requires BatchIn(st, b, cid)
    ensures Appended(PlanBatch(st, cfg, c, batch, commit, inputs, tm).effects, b, cid) ==
            if batch != "true" && BatchIdInt(batch) == Some(b) && c == cid then EncodeAll(Filtered(inputs)) else ""
  {
    var filtered, failed := Filtered(inputs), Failures(inputs).Keys;
    if batch == "true" {
      CreateAppendsNothing(st, cfg, c, commit, filtered, failed, tm, b, cid);
    } else if BatchIdInt(batch).Some? {
      AppendAppends(st, cfg, c, BatchIdInt(batch).value, commit, filtered, failed, tm, b, cid);
    }
  }

  lemma PostAppends(st: Store, cfg: Config, r: Request, tm: Times, b: int, cid: int)
    requires Consistent(st) && BatchIn(st, b, cid) && r.CollectionPost? && CollectionNameOk(r.coll)
    ensures NamesBatch(r, b) && Accepted(st, cfg, r, cid) ==> Appended(PlanPost(st, cfg, r, tm).effects, b, cid) == Column(r.body.value, cfg)
    ensures !(NamesBatch(r, b) && Accepted(st, cfg, r, cid)) ==> Appended(PlanPost(st, cfg, r, tm).effects, b, cid) == ""
  {
    var made := Automake(st, r.coll, tm);
    var st1 := ApplyAll(st, made);
    var c := CidOf(st1, r.coll);
    var rest := PlanPostTo(st1, cfg, c, r, tm).effects;
    NothingAppended(made, b, cid);
    AppendedConcat(made, rest, b, cid);
    assert "" + Appended(rest, b, cid) == Appended(rest, b, cid);
    if made != [] {
      ApplyOne(st, made[0]);
      assert c == st.nextCid != cid;
    }
    PostToAppends(st1, cfg, c, r, tm, b, cid);
  }

  lemma StepAppends(sv: Server, cfg: Config, step: Step, b: int, cid: int)
    requires Consistent(sv.store) && BatchIn(sv.store, b, cid)
    ensures Clean(UploadOf(sv, cfg, step, b, cid), cfg.maxRecordPayloadBytes)
    ensures Appended(StepEffects(sv, cfg, step), b, cid) == Column(UploadOf(sv, cfg, step, b, cid), cfg)
  {
    EmptyColumn(cfg);
    if step.Serve? && !sv.stopped && step.r.CollectionPost? && CollectionNameOk(step.r.coll) {
      PostAppends(sv.store, cfg, step.r, step.tm, b, cid);
    } else {
      NothingAppended(StepEffects(sv, cfg, step), b, cid);
    }
  }

  lemma BatchStep(sv: Server, cfg: Config, step: Step, b: int, cid: int, raws: seq<RawRecord>)
    requires Consistent(sv.store) && Holding(sv.store, cfg, b, cid, raws) && b in Next(sv, cfg, step).store.batches
    ensures Holding(Next(sv, cfg, step).store, cfg, b, cid, raws + UploadOf(sv, cfg, step, b, cid))
  {
    var es := StepEffects(sv, cfg, step);
    NextBatchGrows(sv.store, es);
    StepAppends(sv, cfg, step, b, cid);
    NextStore(sv, cfg, step);
    BatchAfter(sv.store, es, b, cid);
    ColumnConcat(raws, UploadOf(sv, cfg, step, b, cid), cfg);
  }

  lemma NextStore(sv: Server, cfg: Config, step: Step)
    ensures Next(sv, cfg, step).store == ApplyAll(sv.store, StepEffects(sv, cfg, step))
  {}

  lemma StillThere(sv: Server, cfg: Config, steps: seq<Step>, b: int)
    requires steps != [] && b < sv.store.nextBatch && b in Run(sv, cfg, steps).store.batches
    ensures b in Next(sv, cfg, steps[0]).store.batches
  {
    NextBatchGrows(sv.store, StepEffects(sv, cfg, steps[0]));
    NextStore(sv, cfg, steps[0]);
    if b !in Next(sv, cfg, steps[0]).store.batches { BatchIdsNotReused(Next(sv, cfg, steps[0]), cfg, steps[1..], b); }
  }

  lemma RunCons(sv: Server, cfg: Config, steps: seq<Step>, b: int, cid: int)
    requires steps != []
    ensures Run(sv, cfg, steps) == Run(Next(sv, cfg, steps[0]), cfg, steps[1..])
    ensures ValidRun(sv, cfg, steps) ==> Enabled(sv, steps[0]) && ValidRun(Next(sv, cfg, steps[0]), cfg, steps[1..])
    ensures Uploads(sv, cfg, steps, b, cid) ==
            UploadOf(sv, cfg, steps[0], b, cid) + Uploads(Next(sv, cfg, steps[0]), cfg, steps[1..], b, cid)
  {}

  /** Whatever else runs, a batch that survives holds the records uploaded to it, in order. */
  lemma {:induction false} BatchCollects(sv: Server, cfg: Config, steps: seq<Step>, b: int, cid: int, raws: seq<RawRecord>)
    requires Inv(sv) && ValidRun(sv, cfg, steps) && Holding(sv.store, cfg, b, cid, raws)
    requires b in Run(sv, cfg, steps).store.batches
    ensures Holding(Run(sv, cfg, steps).store, cfg, b, cid, raws + Uploads(sv, cfg, steps, b, cid))
    decreases |steps|
  {
    if steps == [] {
      assert raws + [] == raws;
    } else {
      RunCons(sv, cfg, steps, b, cid);
      Associative(raws, UploadOf(sv, cfg, steps[0], b, cid), Uploads(Next(sv, cfg, steps[0]), cfg, steps[1..], b, cid));
      StillThere(sv, cfg, steps, b);
      BatchStep(sv, cfg, steps[0], b, cid, raws);
      StepKeeps(sv, cfg, steps[0]);
      BatchCollects(Next(sv, cfg, steps[0]), cfg, steps[1..], b, cid, raws + UploadOf(sv, cfg, steps[0], b, cid));
    }
  }

  // ------------------------------------------------------------------ commit

  /** The records of a body that survive the filter and the scanner. */
  ghost function Kept(raws: seq<RawRecord>, cfg: Config): seq<PutInput>
    requires Clean(raws, cfg.maxRecordPayloadBytes)
  {
    FittingPrefix(Filtered(Inputs(raws, cfg.maxRecordPayloadBytes)))
  }

  /** The commit limits hold of what is kept of a clean body. */
  ghost predicate WithinLimits(raws: seq<RawRecord>, cfg: Config) {
    Clean(raws, cfg.maxRecordPayloadBytes) ==> |Kept(raws, cfg)| <= cfg.maxTotalRecords && SizesOk(cfg, Kept(raws, cfg))
  }

  /** The answer to a commit: the ids of the last request, all failures, and the stamp of the post. */
  function CommitResponse(sent: seq<PutInput>, failed: set<string>, kept: seq<PutInput>, now: int): Response {
    Response(200, Some(now), Posted(IdsOf(sent), failed + PutOutcome(kept).failed.Keys, None))
  }

  /** Committing a loaded batch posts what is kept of it, then removes it. */
  lemma CommitPlan(st: Store, cfg: Config, cid: int, b: int, raws: seq<RawRecord>, sent: seq<PutInput>, failed: set<string>, missing: int, now: int)
    requires Holding(st, cfg, b, cid, raws) && WithinLimits(raws, cfg)
    ensures var plan := PlanCommit(st, cfg, cid, b, sent, failed, missing, now);
            && plan.effects == [PostBSOs(cid, Kept(raws, cfg), now), BatchRemove(b)]
            && plan.resp == CommitResponse(sent, failed, Kept(raws, cfg), now)
  {
    var filtered := Filtered(Inputs(raws, cfg.maxRecordPayloadBytes));
    InputsEncodable(raws, cfg.maxRecordPayloadBytes);
    FilteredKeeps(Inputs(raws, cfg.maxRecordPayloadBytes));
    ColumnRoundTrip(filtered);
  }

  /** What a commit leaves: the kept records posted, the batch gone, nothing else changed. */
  ghost predicate Committed(st: Store, st': Store, cid: int, b: int, kept: seq<PutInput>, now: int) {
    && st'.bsos == PutRows(st.bsos, cid, kept, now)
    && st'.collections == Touch(st.collections, cid, now) && st'.storage == now
    && st'.names == st.names && st'.nextCid == st.nextCid
    && st'.batches.Keys == st.batches.Keys - {b}
    && forall x :: x in st'.batches ==> st'.batches[x] == st.batches[x]
  }

  lemma CommitAfter(st: Store, st1: Store, cid: int, b: int, kept: seq<PutInput>, now: int)
    requires st1.bsos == st.bsos && st1.collections == st.collections && st1.names == st.names && st1.nextCid == st.nextCid
    requires st1.batches - {b} == st.batches - {b}
    ensures Committed(st, ApplyAll(st1, [PostBSOs(cid, kept, now), BatchRemove(b)]), cid, b, kept, now)
  {
    ApplyTwo(st1, PostBSOs(cid, kept, now), BatchRemove(b));
    var st' := ApplyAll(st1, [PostBSOs(cid, kept, now), BatchRemove(b)]);
    assert st'.batches == st.batches - {b};
  }

  /** Appending the last records and committing in one request: the operations it runs. */
  lemma AppendCommitPlan(st: Store, cfg: Config, cid: int, b: int, raws: seq<RawRecord>, last: seq<RawRecord>, filtered: seq<PutInput>, failed: set<string>, tm: Times)
    requires Holding(st, cfg, b, cid, raws) && Clean(last, cfg.maxRecordPayloadBytes)
    requires Clean(raws + last, cfg.maxRecordPayloadBytes) && WithinLimits(raws + last, cfg)
    requires filtered == Filtered(Inputs(last, cfg.maxRecordPayloadBytes))
    ensures var plan := PlanAppend(st, cfg, cid, b, true, filtered, failed, tm);
            && plan.effects == AppendIfAny(b, cid, filtered, tm) + [PostBSOs(cid, Kept(raws + last, cfg), Now(tm.write)), BatchRemove(b)]
            && plan.resp == CommitResponse(filtered, failed, Kept(raws + last, cfg), Now(tm.write))
  {
    var now := Now(tm.write);
    if filtered == [] {
      NothingMore(raws, last, cfg);
      AppendNothingShape(st, cfg, cid, b, failed, tm);
      CommitPlan(st, cfg, cid, b, raws + last, [], failed, 500, now);
    } else {
      AppendShape(st, cfg, cid, b, filtered, failed, tm);
      AppendHolds(st, cfg, cid, b, raws, last, Now(tm.middle));
      CommitPlan(Apply(st, BatchAppend(b, cid, EncodeAll(filtered), Now(tm.middle))), cfg, cid, b, raws + last, filtered, failed, 500, now);
    }
  }

  lemma AppendNothingShape(st: Store, cfg: Config, cid: int, b: int, failed: set<string>, tm: Times)
    requires BatchIn(st, b, cid)
    ensures PlanAppend(st, cfg, cid, b, true, [], failed, tm) == PlanCommit(st, cfg, cid, b, [], failed, 500, Now(tm.write))
  {}

  lemma AppendShape(st: Store, cfg: Config, cid: int, b: int, filtered: seq<PutInput>, failed: set<string>, tm: Times)
    requires BatchIn(st, b, cid) && filtered != []
    ensures var first := BatchAppend(b, cid, EncodeAll(filtered), Now(tm.middle));
            var rest := PlanCommit(Apply(st, first), cfg, cid, b, filtered, failed, 500, Now(tm.write));
            PlanAppend(st, cfg, cid, b, true, filtered, failed, tm) == Plan([first] + rest.effects, rest.resp)
  {}

  lemma AppendHolds(st: Store, cfg: Config, cid: int, b: int, raws: seq<RawRecord>, last: seq<RawRecord>, now: int)
    requires Holding(st, cfg, b, cid, raws) && Clean(last, cfg.maxRecordPayloadBytes) && Clean(raws + last, cfg.maxRecordPayloadBytes)
    ensures Holding(Apply(st, BatchAppend(b, cid, Column(last, cfg), now)), cfg, b, cid, raws + last)
  {
    ColumnConcat(raws, last, cfg);
    AppendData(st, b, cid, Column(last, cfg), now);
  }

  lemma AppendData(st: Store, b: int, cid: int, data: string, now: int)
    requires BatchIn(st, b, cid)
    ensures var st' := Apply(st, BatchAppend(b, cid, data, now));
            BatchIn(st', b, cid) && st'.nextBatch == st.nextBatch && st'.batches[b].bsos == st.batches[b].bsos + data
  {}

  lemma CreateData(st: Store, cid: int, data: string, now: int)
    ensures var st' := Apply(st, BatchCreate(cid, data, now));
            BatchIn(st', st.nextBatch, cid) && st'.nextBatch == st.nextBatch + 1 && st'.batches[st.nextBatch].bsos == data
  {}

  function AppendIfAny(b: int, cid: int, filtered: seq<PutInput>, tm: Times): seq<Effect> {
    if filtered == [] then [] else [BatchAppend(b, cid, EncodeAll(filtered), Now(tm.middle))]
  }

  lemma AppendAndCommit(st: Store, cfg: Config, r: Request, tm: Times, b: int, cid: int, raws: seq<RawRecord>)
    requires Holding(st, cfg, b, cid, raws) && Accepted(st, cfg, r, cid) && NamesBatch(r, b) && r.commit
    requires Clean(raws + r.body.value, cfg.maxRecordPayloadBytes) && WithinLimits(raws + r.body.value, cfg)
    ensures Committed(st, ApplyAll(st, PlanPost(st, cfg, r, tm).effects), cid, b, Kept(raws + r.body.value, cfg), Now(tm.write))
    ensures var inputs := Inputs(r.body.value, cfg.maxRecordPayloadBytes);
            PlanPost(st, cfg, r, tm).resp == CommitResponse(Filtered(inputs), Failures(inputs).Keys, Kept(raws + r.body.value, cfg), Now(tm.write))
  {
    var inputs := Inputs(r.body.value, cfg.maxRecordPayloadBytes);
    var filtered := Filtered(inputs);
    var kept, now := Kept(raws + r.body.value, cfg), Now(tm.write);
    AcceptedPlan(st, cfg, r, tm, cid);
    AppendCommitPlan(st, cfg, cid, b, raws, r.body.value, filtered, Failures(inputs).Keys, tm);
    AppendThenCommit(st, cid, b, filtered, kept, tm);
  }

  lemma AppendThenCommit(st: Store, cid: int, b: int, filtered: seq<PutInput>, kept: seq<PutInput>, tm: Times)
    requires BatchIn(st, b, cid)
    ensures Committed(st, ApplyAll(st, AppendIfAny(b, cid, filtered, tm) + [PostBSOs(cid, kept, Now(tm.write)), BatchRemove(b)]), cid, b, kept, Now(tm.write))
  {
    var tail := [PostBSOs(cid, kept, Now(tm.write)), BatchRemove(b)];
    if filtered == [] {
      assert [] + tail == tail;
      CommitAfter(st, st, cid, b, kept, Now(tm.write));
    } else {
      var first := BatchAppend(b, cid, EncodeAll(filtered), Now(tm.middle));
      ApplyCons(st, first, tail);
      CommitAfter(st, Apply(st, first), cid, b, kept, Now(tm.write));
    }
  }

  /** Appending without committing: the batch holds that much more, and no name changes. */
  lemma AppendStays(st: Store, cfg: Config, r: Request, tm: Times, b: int, cid: int, raws: seq<RawRecord>)
    requires Holding(st, cfg, b, cid, raws) && Accepted(st, cfg, r, cid) && NamesBatch(r, b) && !r.commit
    ensures Holding(ApplyAll(st, PlanPost(st, cfg, r, tm).effects), cfg, b, cid, raws + r.body.value)
    ensures ApplyAll(st, PlanPost(st, cfg, r, tm).effects).names == st.names
  {
    var inputs := Inputs(r.body.value, cfg.maxRecordPayloadBytes);
    AcceptedPlan(st, cfg, r, tm, cid);
    AppendedEffects(st, cfg, cid, b, Filtered(inputs), Failures(inputs).Keys, tm);
    IfAnyHolds(st, cfg, cid, b, raws, r.body.value, tm);
  }

  lemma IfAnyHolds(st: Store, cfg: Config, cid: int, b: int, raws: seq<RawRecord>, last: seq<RawRecord>, tm: Times)
    requires Holding(st, cfg, b, cid, raws) && Clean(last, cfg.maxRecordPayloadBytes)
    ensures var st' := ApplyAll(st, AppendIfAny(b, cid, Filtered(Inputs(last, cfg.maxRecordPayloadBytes)), tm));
            Holding(st', cfg, b, cid, raws + last) && st'.names == st.names
  {
    ColumnConcat(raws, last, cfg);
    if Filtered(Inputs(last, cfg.maxRecordPayloadBytes)) == [] {
      NothingMore(raws, last, cfg);
    } else {
      AppendHolds(st, cfg, cid, b, raws, last, Now(tm.middle));
      AppendKeepsNames(st, b, cid, Column(last, cfg), Now(tm.middle));
    }
  }

  lemma AppendKeepsNames(st: Store, b: int, cid: int, data: string, now: int)
    ensures ApplyAll(st, [BatchAppend(b, cid, data, now)]) == Apply(st, BatchAppend(b, cid, data, now))
    ensures Apply(st, BatchAppend(b, cid, data, now)).names == st.names
  {
    ApplyOne(st, BatchAppend(b, cid, data, now));
  }

  lemma AppendedEffects(st: Store, cfg: Config, cid: int, b: int, filtered: seq<PutInput>, failed: set<string>, tm: Times)
    requires BatchIn(st, b, cid)
    ensures PlanAppend(st, cfg, cid, b, false, filtered, failed, tm).effects == AppendIfAny(b, cid, filtered, tm)
  {}

  lemma NothingMore(raws: seq<RawRecord>, last: seq<RawRecord>, cfg: Config)
    requires Clean(raws, cfg.maxRecordPayloadBytes) && Clean(last, cfg.maxRecordPayloadBytes) && Clean(raws + last, cfg.maxRecordPayloadBytes)
    requires Filtered(Inputs(last, cfg.maxRecordPayloadBytes)) == []
    ensures Column(raws + last, cfg) == Column(raws, cfg)
  {
    ColumnConcat(raws, last, cfg);
    assert Encoded([]) == [];
    assert Column(raws, cfg) + "" == Column(raws, cfg);
  }

  /** A POST whose collection exists does what its second half says. */
  lemma AcceptedPlan(st: Store, cfg: Config, r: Request, tm: Times, cid: int)
    requires Accepted(st, cfg, r, cid) && r.batch.Some? && r.batch.value != ""
    ensures PlanPost(st, cfg, r, tm) == PlanBatch(st, cfg, cid, r.batch.value, r.commit, Inputs(r.body.value, cfg.maxRecordPayloadBytes), tm)
  {
    var plan := PlanPostTo(st, cfg, cid, r, tm);
    assert Automake(st, r.coll, tm) == [] && ApplyAll(st, []) == st;
    assert [] + plan.effects == plan.effects;
  }

  /** The store after a POST has made its collection, if it had to. */
  function Made(st: Store, r: Request, tm: Times): Store
    requires r.CollectionPost?
  {
    ApplyAll(st, Automake(st, r.coll, tm))
  }

  /** A POST does what it would do if its collection had been made before it. */
  lemma MadePlan(st: Store, cfg: Config, r: Request, tm: Times)
    requires r.CollectionPost? && CollectionNameOk(r.coll)
    ensures Made(st, r, tm).nextBatch == st.nextBatch
    ensures ApplyAll(st, PlanPost(st, cfg, r, tm).effects) == ApplyAll(Made(st, r, tm), PlanPost(Made(st, r, tm), cfg, r, tm).effects)
    ensures PlanPost(st, cfg, r, tm).resp == PlanPost(Made(st, r, tm), cfg, r, tm).resp
  {
    var made, st1 := Automake(st, r.coll, tm), Made(st, r, tm);
    if r.coll !in st.names { ApplyOne(st, CreateCollection(r.coll, Now(tm.create))); }
    assert Automake(st1, r.coll, tm) == [] && ApplyAll(st1, []) == st1;
    var rest := PlanPostTo(st1, cfg, CidOf(st1, r.coll), r, tm).effects;
    assert [] + rest == rest;
    ApplyAllConcat(st, made, rest);
  }

  /** A created batch holds the posted records, also when the request makes its collection. */
  lemma CreateHolds(st: Store, cfg: Config, r: Request, tm: Times, cid: int)
    requires r.CollectionPost? && Accepted(Made(st, r, tm), cfg, r, cid) && r.batch == Some("true") && !r.commit
    ensures Holding(ApplyAll(st, PlanPost(st, cfg, r, tm).effects), cfg, st.nextBatch, cid, r.body.value)
    ensures var resp := PlanPost(st, cfg, r, tm).resp;
            resp.status == 202 && resp.body.Posted? && resp.body.batch == Some(BatchIdString(st.nextBatch))
  {
    MadePlan(st, cfg, r, tm);
    CreateHoldsIn(Made(st, r, tm), cfg, r, tm, cid);
  }

  lemma CreateHoldsIn(st: Store, cfg: Config, r: Request, tm: Times, cid: int)
    requires Accepted(st, cfg, r, cid) && r.batch == Some("true") && !r.commit
    ensures Holding(ApplyAll(st, PlanPost(st, cfg, r, tm).effects), cfg, st.nextBatch, cid, r.body.value)
    ensures var resp := PlanPost(st, cfg, r, tm).resp;
            resp.status == 202 && resp.body.Posted? && resp.body.batch == Some(BatchIdString(st.nextBatch))
  {
    var inputs, data := Inputs(r.body.value, cfg.maxRecordPayloadBytes), Column(r.body.value, cfg);
    AcceptedPlan(st, cfg, r, tm, cid);
    CreatePlan(st, cfg, cid, Filtered(inputs), Failures(inputs).Keys, tm);
    ApplyOne(st, BatchCreate(cid, data, Now(tm.middle)));
    CreateData(st, cid, data, Now(tm.middle));
  }

  lemma CreatePlan(st: Store, cfg: Config, cid: int, filtered: seq<PutInput>, failed: set<string>, tm: Times)
    ensures var plan := PlanCreate(st, cfg, cid, false, filtered, failed, tm);
            && plan.effects == [BatchCreate(cid, EncodeAll(filtered), Now(tm.middle))]
            && plan.resp.status == 202 && plan.resp.body.Posted? && plan.resp.body.batch == Some(BatchIdString(st.nextBatch))
  {}

  /** Creating and committing in one request, also when the request makes its collection. */
  lemma CreateAndCommit(st: Store, cfg: Config, r: Request, tm: Times, cid: int)
    requires r.CollectionPost? && Accepted(Made(st, r, tm), cfg, r, cid) && r.batch == Some("true") && r.commit && WithinLimits(r.body.value, cfg)
    ensures Committed(Made(st, r, tm), ApplyAll(st, PlanPost(st, cfg, r, tm).effects), cid, st.nextBatch, Kept(r.body.value, cfg), Now(tm.write))
    ensures var inputs := Inputs(r.body.value, cfg.maxRecordPayloadBytes);
            PlanPost(st, cfg, r, tm).resp == CommitResponse(Filtered(inputs), Failures(inputs).Keys, Kept(r.body.value, cfg), Now(tm.write))
  {
    MadePlan(st, cfg, r, tm);
    CreateAndCommitIn(Made(st, r, tm), cfg, r, tm, cid);
  }

  lemma CreateAndCommitIn(st: Store, cfg: Config, r: Request, tm: Times, cid: int)
    requires Accepted(st, cfg, r, cid) && r.batch == Some("true") && r.commit && WithinLimits(r.body.value, cfg)
    ensures Committed(st, ApplyAll(st, PlanPost(st, cfg, r, tm).effects), cid, st.nextBatch, Kept(r.body.value, cfg), Now(tm.write))
    ensures var inputs := Inputs(r.body.value, cfg.maxRecordPayloadBytes);
            PlanPost(st, cfg, r, tm).resp == CommitResponse(Filtered(inputs), Failures(inputs).Keys, Kept(r.body.value, cfg), Now(tm.write))
  {
    var inputs := Inputs(r.body.value, cfg.maxRecordPayloadBytes);
    AcceptedPlan(st, cfg, r, tm, cid);
    CreateCommitPlan(st, cfg, cid, r.body.value, Filtered(inputs), Failures(inputs).Keys, tm);
    CreateThenCommit(st, cid, EncodeAll(Filtered(inputs)), Kept(r.body.value, cfg), tm);
  }

  lemma CreateCommitPlan(st: Store, cfg: Config, cid: int, raws: seq<RawRecord>, filtered: seq<PutInput>, failed: set<string>, tm: Times)
    requires Clean(raws, cfg.maxRecordPayloadBytes) && WithinLimits(raws, cfg)
    requires filtered == Filtered(Inputs(raws, cfg.maxRecordPayloadBytes))
    ensures var plan := PlanCreate(st, cfg, cid, true, filtered, failed, tm);
            && plan.effects == [BatchCreate(cid, EncodeAll(filtered), Now(tm.middle))] + [PostBSOs(cid, Kept(raws, cfg), Now(tm.write)), BatchRemove(st.nextBatch)]
            && plan.resp == CommitResponse(filtered, failed, Kept(raws, cfg), Now(tm.write))
  {
    var st1 := Apply(st, BatchCreate(cid, EncodeAll(filtered), Now(tm.middle)));
    CreateShape(st, cfg, cid, filtered, failed, tm);
    CreateData(st, cid, EncodeAll(filtered), Now(tm.middle));
    CommitPlan(st1, cfg, cid, st.nextBatch, raws, filtered, failed, 500, Now(tm.write));
  }

  lemma CreateShape(st: Store, cfg: Config, cid: int, filtered: seq<PutInput>, failed: set<string>, tm: Times)
    ensures var first := BatchCreate(cid, EncodeAll(filtered), Now(tm.middle));
            var rest := PlanCommit(Apply(st, first), cfg, cid, st.nextBatch, filtered, failed, 500, Now(tm.write));
            PlanCreate(st, cfg, cid, true, filtered, failed, tm) == Plan([first] + rest.effects, rest.resp)
  {}

  lemma CreateThenCommit(st: Store, cid: int, data: string, kept: seq<PutInput>, tm: Times)
    ensures Committed(st, ApplyAll(st, [BatchCreate(cid, data, Now(tm.middle))] + [PostBSOs(cid, kept, Now(tm.write)), BatchRemove(st.nextBatch)]),
                      cid, st.nextBatch, kept, Now(tm.write))
  {
    var first, tail := BatchCreate(cid, data, Now(tm.middle)), [PostBSOs(cid, kept, Now(tm.write)), BatchRemove(st.nextBatch)];
    ApplyCons(st, first, tail);
    CommitAfter(st, Apply(st, first), cid, st.nextBatch, kept, Now(tm.write));
  }

  // -------------------------------------------------------------- refinement

  /** The same records, collections and stamps. */
  ghost predicate SameTables(a: Store, b: Store) {
    a.bsos == b.bsos && a.collections == b.collections && a.names == b.names && a.storage == b.storage
  }

  /** One plain POST of a whole body, with no limit on the number of its records. */
  function PlainPost(st: Store, cfg: Config, cid: int, raws: seq<RawRecord>, now: int): Store {
    ApplyAll(st, PlanClassic(cfg.(maxPOSTRecords := |raws|), cid, Some(raws), now).effects)
  }

  lemma {:induction false} NoMoreInputs(raws: seq<RawRecord>, maxPayload: int)
    requires ParseBody(raws, maxPayload).Some?
    ensures |ParseBody(raws, maxPayload).value.inputs| <= |raws|
  {
    if raws != [] { NoMoreInputs(raws[..|raws| - 1], maxPayload); }
  }

  /** A commit whose lines all fit is a plain POST of everything, in every table readers see. */
  lemma CommitIsPlainPost(st: Store, st': Store, cfg: Config, cid: int, b: int, raws: seq<RawRecord>, now: int)
    requires Clean(raws, cfg.maxRecordPayloadBytes) && AllFit(Filtered(Inputs(raws, cfg.maxRecordPayloadBytes)))
    requires Committed(st, st', cid, b, Kept(raws, cfg), now)
    ensures SameTables(st', PlainPost(st, cfg, cid, raws, now))
  {
    var inputs := Inputs(raws, cfg.maxRecordPayloadBytes);
    NoMoreInputs(raws, cfg.maxRecordPayloadBytes);
    AllFitPrefix(Filtered(inputs));
    FilterIsHarmless(st.bsos, cid, inputs, now);
    ApplyOne(st, PostBSOs(cid, inputs, now));
  }

  lemma AllFitPrefix(inputs: seq<PutInput>)
    requires AllFit(inputs)
    ensures FittingPrefix(inputs) == inputs
  {
    assert FitCount(Encoded(inputs)) == |inputs|;
  }

  /** Everything uploaded to a batch: at its creation, by the steps in between, and with the commit. */
  ghost function AllUploads(sv: Server, cfg: Config, create: Step, steps: seq<Step>, commit: Step, cid: int): seq<RawRecord>
    requires create.Serve? && commit.Serve? && create.r.CollectionPost? && create.r.body.Some? && commit.r.CollectionPost? && commit.r.body.Some?
  {
    create.r.body.value + Uploads(Next(sv, cfg, create), cfg, steps, sv.store.nextBatch, cid) + commit.r.body.value
  }

  /**
    Batch uploads refine a plain POST. A batch is created, in a collection that exists or
    that the request makes; any steps run; and the batch, if it is still there, is
    committed. Then the records, the collections and all stamps are what one plain POST
    of the concatenated uploads would leave at that moment, TTLs scaled once, provided
    every line fits the scanner and the totals are within limits.
   */
  lemma BatchRefinesPost(sv: Server, cfg: Config, create: Step, steps: seq<Step>, commit: Step, cid: int)
    requires Inv(sv) && create.Serve? && commit.Serve? && !sv.stopped && Enabled(sv, create)
    requires create.r.CollectionPost? && Accepted(Made(sv.store, create.r, create.tm), cfg, create.r, cid)
    requires create.r.batch == Some("true") && !create.r.commit
    requires ValidRun(Next(sv, cfg, create), cfg, steps)
    requires var b, s2 := sv.store.nextBatch, Run(Next(sv, cfg, create), cfg, steps);
             && b in s2.store.batches && !s2.stopped
             && Accepted(s2.store, cfg, commit.r, cid) && NamesBatch(commit.r, b) && commit.r.commit
             && WithinLimits(AllUploads(sv, cfg, create, steps, commit, cid), cfg)
    ensures var b, s2 := sv.store.nextBatch, Run(Next(sv, cfg, create), cfg, steps);
            var all := AllUploads(sv, cfg, create, steps, commit, cid);
            && Clean(all, cfg.maxRecordPayloadBytes)
            && Committed(s2.store, Next(s2, cfg, commit).store, cid, b, Kept(all, cfg), Now(commit.tm.write))
            && (AllFit(Filtered(Inputs(all, cfg.maxRecordPayloadBytes))) ==>
                  SameTables(Next(s2, cfg, commit).store, PlainPost(s2.store, cfg, cid, all, Now(commit.tm.write))))
  {
    var b, s1 := sv.store.nextBatch, Next(sv, cfg, create);
    var s2 := Run(s1, cfg, steps);
    var raws := create.r.body.value + Uploads(s1, cfg, steps, b, cid);
    var all := AllUploads(sv, cfg, create, steps, commit, cid);
    AllClean(sv, cfg, create, steps, commit, cid);
    StepKeeps(sv, cfg, create);
    CreateHolds(sv.store, cfg, create.r, create.tm, cid);
    NextStore(sv, cfg, create);
    BatchCollects(s1, cfg, steps, b, cid, create.r.body.value);
    AppendAndCommit(s2.store, cfg, commit.r, commit.tm, b, cid, raws);
    NextStore(s2, cfg, commit);
    if AllFit(Filtered(Inputs(all, cfg.maxRecordPayloadBytes))) {
      CommitIsPlainPost(s2.store, Next(s2, cfg, commit).store, cfg, cid, b, all, Now(commit.tm.write));
    }
  }

  lemma AllClean(sv: Server, cfg: Config, create: Step, steps: seq<Step>, commit: Step, cid: int)
    requires create.Serve? && commit.Serve? && create.r.CollectionPost? && create.r.body.Some? && commit.r.CollectionPost? && commit.r.body.Some?
    requires Clean(create.r.body.value, cfg.maxRecordPayloadBytes) && Clean(commit.r.body.value, cfg.maxRecordPayloadBytes)
    ensures Clean(AllUploads(sv, cfg, create, steps, commit, cid), cfg.maxRecordPayloadBytes)
  {
    var uploads := Uploads(Next(sv, cfg, create), cfg, steps, sv.store.nextBatch, cid);
    UploadsClean(Next(sv, cfg, create), cfg, steps, sv.store.nextBatch, cid);
    CleanConcat(create.r.body.value, uploads, cfg.maxRecordPayloadBytes);
    CleanConcat(create.r.body.value + uploads, commit.r.body.value, cfg.maxRecordPayloadBytes);
  }
}
