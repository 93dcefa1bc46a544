/**
  What a plain POST reports: every value of its body is accounted for, as a success or a
  failure, and nothing is changed that is not reported as a success.
 */
module PostReports {
  import opened Prelude
  import opened Timestamps
  import opened Tables
  import opened Sql
  import opened Records
  import opened Requests
  import opened Runs
  import opened BatchProtocol
  import opened Lifetimes

  /** The value is stored: it parses, is not too large and is valid, its TTL scaled as a 64-bit number. */
  predicate Stores(raw: RawRecord, maxPayload: int) {
    && ParseRaw(raw).Ok?
    && var input := ParseRaw(raw).value;
    && !TooLarge(input, maxPayload) && BSOIdOk(input.id)
    && (input.payload.Some? || input.sortIndex.Some? || input.ttl.Some?)
    && (input.sortIndex.Some? ==> SortIndexOk(input.sortIndex.value))
    && (input.ttl.Some? ==> Wrap64(1000 * input.ttl.value) >= 0)
  }

  /** The id a value is reported under; empty when the value has none that can be read. */
  function ReportedId(raw: RawRecord): string {
    match ParseRaw(raw)
    case Ok(input) => input.id
    case Err(BadField(id, _)) => id
    case Err(_) => ""
  }

  /** The ids of the stored values, in order. */
  function StoredIds(raws: seq<RawRecord>, maxPayload: int): seq<string> {
    if raws == [] then []
    else
      var n := |raws| - 1;
      StoredIds(raws[..n], maxPayload) + if Stores(raws[n], maxPayload) then [ReportedId(raws[n])] else []
  }

  function RefusedIds(raws: seq<RawRecord>, maxPayload: int): set<string> {
    set i | 0 <= i < |raws| && !Stores(raws[i], maxPayload) :: ReportedId(raws[i])
  }

  lemma StoresIsValid(raw: RawRecord, maxPayload: int)
    requires Taken(raw, maxPayload)
    ensures Stores(raw, maxPayload) <==> PutCheck(ToMilliseconds(ParseRaw(raw).value)).None?
  {}

  // --------------------------------------------------------------- by induction

  function Success(raws: seq<RawRecord>, maxPayload: int): seq<string>
    requires DecodeBody(raws, maxPayload).Some?
  {
    PutOutcome(DecodeBody(raws, maxPayload).value.inputs).success
  }

  function Failed(raws: seq<RawRecord>, maxPayload: int): set<string>
    requires DecodeBody(raws, maxPayload).Some?
  {
    DecodeBody(raws, maxPayload).value.failed.Keys + PutOutcome(DecodeBody(raws, maxPayload).value.inputs).failed.Keys
  }

  lemma OutcomeSnoc(inputs: seq<PutInput>, input: PutInput)
    ensures var before, after := PutOutcome(inputs), PutOutcome(inputs + [input]);
            && after.success == before.success + (if PutCheck(input).None? then [input.id] else [])
            && after.failed.Keys == before.failed.Keys + if PutCheck(input).Some? then {input.id} else {}
  {
    assert (inputs + [input])[..|inputs|] == inputs;
    assert PutOutcome(inputs).success + [] == PutOutcome(inputs).success;
  }

  lemma FailedSnoc(raws: seq<RawRecord>, maxPayload: int)
    requires raws != [] && DecodeBody(raws, maxPayload).Some?
    ensures var n := |raws| - 1;
            && DecodeBody(raws[..n], maxPayload).Some?
            && DecodeBody(raws, maxPayload).value.failed.Keys ==
               DecodeBody(raws[..n], maxPayload).value.failed.Keys + if Taken(raws[n], maxPayload) then {} else {ReportedId(raws[n])}
  {}

  lemma ReportSnoc(raws: seq<RawRecord>, maxPayload: int)
    requires raws != [] && DecodeBody(raws, maxPayload).Some?
    ensures var n := |raws| - 1;
            && DecodeBody(raws[..n], maxPayload).Some?
            && Success(raws, maxPayload) == Success(raws[..n], maxPayload) + (if Stores(raws[n], maxPayload) then [ReportedId(raws[n])] else [])
            && Failed(raws, maxPayload) == Failed(raws[..n], maxPayload) + if Stores(raws[n], maxPayload) then {} else {ReportedId(raws[n])}
  {
    var n := |raws| - 1;
    DecodeSnoc(raws, maxPayload);
    FailedSnoc(raws, maxPayload);
    var inputs := DecodeBody(raws[..n], maxPayload).value.inputs;
    if Taken(raws[n], maxPayload) {
      StoresIsValid(raws[n], maxPayload);
      OutcomeSnoc(inputs, ToMilliseconds(ParseRaw(raws[n]).value));
    } else {
      assert inputs + [] == inputs;
      assert Success(raws[..n], maxPayload) + [] == Success(raws[..n], maxPayload);
    }
  }

  lemma RefusedSnoc(raws: seq<RawRecord>, maxPayload: int)
    requires raws != []
    ensures var n := |raws| - 1;
            RefusedIds(raws, maxPayload) == RefusedIds(raws[..n], maxPayload) + if Stores(raws[n], maxPayload) then {} else {ReportedId(raws[n])}
  {
    var n := |raws| - 1;
    forall id ensures id in RefusedIds(raws, maxPayload) <==> id in RefusedIds(raws[..n], maxPayload) || (!Stores(raws[n], maxPayload) && id == ReportedId(raws[n])) {
      if id in RefusedIds(raws, maxPayload) {
        var i :| 0 <= i < |raws| && !Stores(raws[i], maxPayload) && id == ReportedId(raws[i]);
        if i < n { assert raws[..n][i] == raws[i]; }
      }
      if id in RefusedIds(raws[..n], maxPayload) {
        var i :| 0 <= i < n && !Stores(raws[..n][i], maxPayload) && id == ReportedId(raws[..n][i]);
        assert raws[..n][i] == raws[i];
      }
    }
  }

  lemma {:induction false} ReportIs(raws: seq<RawRecord>, maxPayload: int)
    requires DecodeBody(raws, maxPayload).Some?
    ensures Success(raws, maxPayload) == StoredIds(raws, maxPayload) && Failed(raws, maxPayload) == RefusedIds(raws, maxPayload)
  {
    if raws == [] {
      assert AllToMilliseconds([]) == [];
    } else {
      ReportSnoc(raws, maxPayload);
      RefusedSnoc(raws, maxPayload);
      ReportIs(raws[..|raws| - 1], maxPayload);
    }
  }

  // -------------------------------------------------------- what a body changes

  /** A record that differs between two tables. */
  predicate Differs(a: map<Key, Bso>, b: map<Key, Bso>, k: Key) {
    (k in a) != (k in b) || (k in a && a[k] != b[k])
  }

  lemma {:induction false} OnlyStoredChange(bsos: map<Key, Bso>, cid: int, raws: seq<RawRecord>, maxPayload: int, now: int, k: Key)
    requires DecodeBody(raws, maxPayload).Some?
    ensures Differs(bsos, RowsAfter(bsos, cid, raws, maxPayload, now), k) ==> k.cid == cid && k.id in StoredIds(raws, maxPayload)
    ensures k in bsos ==> k in RowsAfter(bsos, cid, raws, maxPayload, now)
    ensures k.cid == cid && k.id in StoredIds(raws, maxPayload) ==> k in RowsAfter(bsos, cid, raws, maxPayload, now)
  {
    if raws == [] {
      assert AllToMilliseconds([]) == [];
    } else {
      var n := |raws| - 1;
      OneChange(bsos, cid, raws, maxPayload, now, k);
      OnlyStoredChange(bsos, cid, raws[..n], maxPayload, now, k);
    }
  }

  lemma OneChange(bsos: map<Key, Bso>, cid: int, raws: seq<RawRecord>, maxPayload: int, now: int, k: Key)
    requires raws != [] && DecodeBody(raws, maxPayload).Some?
    ensures var n := |raws| - 1;
            && DecodeBody(raws[..n], maxPayload).Some?
            && var rows, rows' := RowsAfter(bsos, cid, raws[..n], maxPayload, now), RowsAfter(bsos, cid, raws, maxPayload, now);
            && (Differs(rows, rows', k) ==> k == Key(cid, ReportedId(raws[n])) && Stores(raws[n], maxPayload))
            && (k in rows ==> k in rows')
            && (Stores(raws[n], maxPayload) ==> Key(cid, ReportedId(raws[n])) in rows')
  {
    var n := |raws| - 1;
    RowsAfterSnoc(bsos, cid, raws, maxPayload, now);
    if Taken(raws[n], maxPayload) { StoresIsValid(raws[n], maxPayload); }
  }

  // ---------------------------------------------------------------- main result

  /**
    A plain POST answered with 200 reports the ids of the values it stored, in order, and
    the ids of all others as failed. Each success is in the tables, and no record changes
    that is not a success of that collection.
   */
  lemma PostAccounts(sv: Server, cfg: Config, r: Request, tm: Times, arrange: Arrange)
    requires PostDone(sv, cfg, r, tm, arrange)
    ensures var now, raws := Next(sv, cfg, Serve(r, tm)).store, r.body.value;
            && Answer(sv, cfg, r, tm, arrange).body ==
               Posted(StoredIds(raws, cfg.maxRecordPayloadBytes), RefusedIds(raws, cfg.maxRecordPayloadBytes), None)
            && r.coll in now.names
            && (forall k :: Differs(sv.store.bsos, now.bsos, k) ==> k.cid == now.names[r.coll] && k.id in StoredIds(raws, cfg.maxRecordPayloadBytes))
            && (forall id :: id in StoredIds(raws, cfg.maxRecordPayloadBytes) ==> Key(now.names[r.coll], id) in now.bsos)
            && (forall k :: k in sv.store.bsos ==> k in now.bsos)
  {
    var now, raws, limit := Next(sv, cfg, Serve(r, tm)).store, r.body.value, cfg.maxRecordPayloadBytes;
    PostDoneIs(sv, cfg, r, tm, arrange);
    ReportIs(raws, limit);
    PostBody(sv, cfg, r, tm, arrange);
    var cid := now.names[r.coll];
    forall k ensures (Differs(sv.store.bsos, now.bsos, k) ==> k.cid == cid && k.id in StoredIds(raws, limit)) && (k in sv.store.bsos ==> k in now.bsos) {
      OnlyStoredChange(sv.store.bsos, cid, raws, limit, Now(tm.write), k);
    }
    forall id | id in StoredIds(raws, limit) ensures Key(cid, id) in now.bsos {
      OnlyStoredChange(sv.store.bsos, cid, raws, limit, Now(tm.write), Key(cid, id));
    }
  }

  lemma PostBody(sv: Server, cfg: Config, r: Request, tm: Times, arrange: Arrange)
    requires PostDone(sv, cfg, r, tm, arrange) && DecodeBody(r.body.value, cfg.maxRecordPayloadBytes).Some?
    ensures Answer(sv, cfg, r, tm, arrange).body ==
            Posted(Success(r.body.value, cfg.maxRecordPayloadBytes), Failed(r.body.value, cfg.maxRecordPayloadBytes), None)
  {}

  /** It is refused, changing no record, exactly if a value is no object or too many are left to store. */
  lemma PostRefused(sv: Server, cfg: Config, r: Request, tm: Times, arrange: Arrange)
    requires Inv(sv) && !sv.stopped && r.CollectionPost? && r.headers == Headers("", "") && r.batch.None? && !r.commit && r.body.Some?
    requires CollectionNameOk(r.coll)
    ensures var decoded := DecodeBody(r.body.value, cfg.maxRecordPayloadBytes);
            Answer(sv, cfg, r, tm, arrange).status ==
            if decoded.None? then 400 else if |decoded.value.inputs| > cfg.maxPOSTRecords then 413 else 200
    ensures Answer(sv, cfg, r, tm, arrange).status != 200 ==> SameToReaders(sv.store, Next(sv, cfg, Serve(r, tm)).store)
  {
    var st1 := Made(sv.store, r, tm);
    MadePlan(sv.store, cfg, r, tm);
    AutomakeRow(sv.store, r.coll, tm);
    if r.coll !in sv.store.names { ApplyOne(sv.store, CreateCollection(r.coll, Now(tm.create))); }
    PlainAnswer(st1, cfg, r, tm);
  }

  lemma PlainAnswer(st: Store, cfg: Config, r: Request, tm: Times)
    requires r.CollectionPost? && r.headers == Headers("", "") && r.batch.None? && !r.commit && r.body.Some? && CollectionNameOk(r.coll) && r.coll in st.names
    ensures var decoded := DecodeBody(r.body.value, cfg.maxRecordPayloadBytes);
            PlanPost(st, cfg, r, tm).resp.status == if decoded.None? then 400 else if |decoded.value.inputs| > cfg.maxPOSTRecords then 413 else 200
    ensures PlanPost(st, cfg, r, tm).resp.status != 200 ==> PlanPost(st, cfg, r, tm).effects == []
  {
    assert Automake(st, r.coll, tm) == [] && ApplyAll(st, []) == st;
  }
}
