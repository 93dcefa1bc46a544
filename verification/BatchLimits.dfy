/**
  Where batch uploads fall short of what their limits promise: the byte limit does not
  bound a batch, and a record too long for the scanner is acknowledged and lost.
 */
module BatchLimits {
  import opened Prelude
  import opened Timestamps
  import opened Tables
  import opened Json
  import opened Records
  import opened BatchLines
  import opened Requests
  import opened UserHandler
  import opened Runs
  import opened BatchProtocol
  import Decimal
  import Sync

  // ------------------------------------------------------------- the size check

  function PayloadBytes(input: PutInput): nat {
    if input.payload.Some? then Utf8Len(input.payload.value) else 0
  }

  function TotalBytes(inputs: seq<PutInput>): nat {
    if inputs == [] then 0 else TotalBytes(inputs[..|inputs| - 1]) + PayloadBytes(inputs[|inputs| - 1])
  }

  /** A batch within the byte limit passes the size check. */
  lemma {:induction false} WithinTotalPasses(cfg: Config, inputs: seq<PutInput>)
    requires TotalBytes(inputs) <= cfg.maxTotalBytes
    ensures SizesOk(cfg, inputs)
  {
    if inputs != [] {
      var n := |inputs| - 1;
      WithinTotalPasses(cfg, inputs[..n]);
      forall i | 0 <= i < |inputs| ensures !TooLarge(inputs[i], cfg.maxTotalBytes) {
        if i < n { assert inputs[i] == inputs[..n][i]; }
      }
    }
  }

  ghost predicate CheckBounds(cfg: Config, n: nat) {
    forall inputs :: |inputs| == n && SizesOk(cfg, inputs) ==> TotalBytes(inputs) <= cfg.maxTotalBytes
  }

  /** The check keeps batches of n records within the limit exactly for n up to one, or a limit of zero. */
  lemma SizeCheckExact(cfg: Config, n: nat)
    ensures CheckBounds(cfg, n) <==> 0 <= cfg.maxTotalBytes && (n <= 1 || cfg.maxTotalBytes == 0)
  {
    var limit := cfg.maxTotalBytes;
    if limit < 0 {
      var none := Copies(PutInput("a", None, Some(1), None), n);
      CopiesTotal(PutInput("a", None, Some(1), None), n);
    } else if n <= 1 || limit == 0 {
      forall inputs | |inputs| == n && SizesOk(cfg, inputs) ensures TotalBytes(inputs) <= limit { FewWithin(cfg, inputs); }
    } else {
      var full := PutInput("a", Some(Xs(limit)), None, None);
      XsLength(limit);
      CopiesTotal(full, n);
      MoreThanOne(n, limit);
      assert SizesOk(cfg, Copies(full, n)) && |Copies(full, n)| == n;
    }
  }

  lemma MoreThanOne(n: nat, limit: nat)
    requires n > 1 && limit > 0
    ensures n * limit > limit
  {
    assert n * limit == (n - 1) * limit + limit && (n - 1) * limit > 0;
  }

  lemma {:induction false} FewWithin(cfg: Config, inputs: seq<PutInput>)
    requires SizesOk(cfg, inputs) && 0 <= cfg.maxTotalBytes && (|inputs| <= 1 || cfg.maxTotalBytes == 0)
    ensures TotalBytes(inputs) <= cfg.maxTotalBytes
  {
    if inputs != [] {
      var n := |inputs| - 1;
      assert !TooLarge(inputs[n], cfg.maxTotalBytes);
      forall i | 0 <= i < n ensures !TooLarge(inputs[..n][i], cfg.maxTotalBytes) { assert inputs[..n][i] == inputs[i]; }
      FewWithin(cfg, inputs[..n]);
    }
  }

  function Copies(input: PutInput, n: nat): seq<PutInput> {
    Tabulate(_ => input, n)
  }

  lemma {:induction false} CopiesTotal(input: PutInput, n: nat)
    ensures TotalBytes(Copies(input, n)) == n * PayloadBytes(input)
  {
    if n > 0 {
      CopiesTotal(input, n - 1);
      TabulateSnoc(_ => input, n - 1);
      assert Copies(input, n)[..n - 1] == Copies(input, n - 1);
      assert n * PayloadBytes(input) == (n - 1) * PayloadBytes(input) + PayloadBytes(input);
    }
  }

  function Xs(n: nat): string {
    seq(n, _ => 'x')
  }

  lemma XsLength(n: nat)
    ensures Utf8Len(Xs(n)) == n
  {
    AsciiLength(Xs(n));
  }

  lemma {:induction false} AsciiLength(s: string)
    requires forall i :: 0 <= i < |s| ==> s[i] < '\U{80}'
    ensures Utf8Len(s) == |s|
  {
    if s != [] { AsciiLength(s[..|s| - 1]); }
  }

  // ------------------------------------------------------------- plain records

  /** Characters that are printed as they are, in one byte. */
  predicate PlainText(s: string) {
    forall i :: 0 <= i < |s| ==> '0' <= s[i] <= '9' || 'a' <= s[i] <= 'z'
  }

  lemma {:induction false} EscapesToItself(s: string)
    requires PlainText(s)
    ensures EscapeAll(s) == s
  {
    if s != [] {
      EscapesToItself(s[1..]);
      assert s == [s[0]] + s[1..];
    }
  }

  function RawOf(id: string, payload: string): RawRecord {
    Some(map["id" := JString(id), "payload" := JString(payload)])
  }

  function InputOf(id: string, payload: string): PutInput {
    PutInput(id, Some(payload), None, None)
  }

  lemma RawParses(id: string, payload: string)
    ensures ParseRaw(RawOf(id, payload)) == Ok(InputOf(id, payload))
  {
    KeysDistinct();
    ParsesFields(RawOf(id, payload).value, InputOf(id, payload));
  }

  /** A body of one such record is clean. */
  lemma OneClean(id: string, payload: string, maxPayload: int)
    requires Utf8Len(payload) <= maxPayload
    ensures Clean([RawOf(id, payload)], maxPayload) && Inputs([RawOf(id, payload)], maxPayload) == [InputOf(id, payload)]
  {
    RawParses(id, payload);
    SingleClean(RawOf(id, payload), InputOf(id, payload), maxPayload);
  }

  lemma SingleClean(raw: RawRecord, input: PutInput, maxPayload: int)
    requires ParseRaw(raw) == Ok(input) && !TooLarge(input, maxPayload) && input.ttl.None?
    ensures Clean([raw], maxPayload) && Inputs([raw], maxPayload) == [input]
  {
    assert [raw][..0] == [];
    assert ParseBody([raw], maxPayload) == Some(Decoded([] + [input], map[]));
    assert AllToMilliseconds([input]) == [input];
  }

  lemma {:induction false} LengthsAdd(a: string, b: string)
    ensures Utf8Len(a + b) == Utf8Len(a) + Utf8Len(b)
  {
    if b == [] {
      assert a + b == a;
    } else {
      assert (a + b)[..|a + b| - 1] == a + b[..|b| - 1];
      LengthsAdd(a, b[..|b| - 1]);
    }
  }

  /** A plain member takes its key, its value, four quotes and a colon. */
  lemma MemberLength(key: string, value: string)
    requires PlainText(key) && PlainText(value)
    ensures Utf8Len(PrintMember((key, JString(value)))) == |key| + |value| + 5
  {
    QuoteLength(key);
    QuoteLength(value);
    AsciiLength(":");
    LengthsAdd(Quote(key) + ":", Quote(value));
    LengthsAdd(Quote(key), ":");
  }

  lemma QuoteLength(s: string)
    requires PlainText(s)
    ensures Utf8Len(Quote(s)) == |s| + 2
  {
    EscapesToItself(s);
    AsciiLength(Quote(s));
  }

  lemma ObjectLength(a: Member, b: Member)
    ensures Utf8Len(PrintObject([a, b])) == Utf8Len(PrintMember(a)) + Utf8Len(PrintMember(b)) + 3
  {
    var x, y := PrintMember(a), PrintMember(b);
    assert [a, b][1..] == [b];
    assert PrintMembers([b]) == y + "}";
    assert PrintMembers([a, b]) == x + ("," + (y + "}"));
    assert PrintObject([a, b]) == "{" + (x + ("," + (y + "}")));
    LengthsAdd("{", x + ("," + (y + "}")));
    LengthsAdd(x, "," + (y + "}"));
    LengthsAdd(",", y + "}");
    LengthsAdd(y, "}");
    AsciiLength("{");
    AsciiLength(",");
    AsciiLength("}");
  }

  lemma EncodedLength(id: string, payload: string)
    requires PlainText(id) && PlainText(payload)
    ensures Utf8Len(EncodeRecord(InputOf(id, payload))) == |id| + |payload| + 22
  {
    assert Fields(InputOf(id, payload)) == [("id", JString(id)), ("payload", JString(payload))];
    MemberLength("id", id);
    MemberLength("payload", payload);
    ObjectLength(("id", JString(id)), ("payload", JString(payload)));
  }

  /** A plain record fits the scanner exactly if its id and payload leave room for the rest. */
  lemma FitsExactly(id: string, payload: string)
    requires PlainText(id) && PlainText(payload)
    ensures Fits(EncodeRecord(InputOf(id, payload))) <==> |id| + |payload| + 23 <= SCANNER_TOKEN_SIZE
  {
    EncodedLength(id, payload);
  }

  // ------------------------------------------------------- a record that is lost

  /**
    A record whose line does not fit, created and committed in one request: the answer
    is 200 with its id among the successes, and no record is stored. One plain POST of
    the same body stores it.
   */
  lemma LongRecordLost(st: Store, cfg: Config, r: Request, tm: Times, cid: int, input: PutInput)
    requires r.CollectionPost? && Accepted(Made(st, r, tm), cfg, r, cid) && r.batch == Some("true") && r.commit
    requires Inputs(r.body.value, cfg.maxRecordPayloadBytes) == [input] && input.payload.Some? && PutCheck(input).None?
    requires !Fits(EncodeRecord(input)) && 0 <= cfg.maxTotalRecords
    ensures var plan := PlanPost(st, cfg, r, tm);
            && plan.resp.status == 200 && plan.resp.body == Posted([input.id], {}, None)
            && ApplyAll(st, plan.effects).bsos == st.bsos
    ensures var posted := PlainPost(Made(st, r, tm), cfg, cid, r.body.value, Now(tm.write));
            Key(cid, input.id) in posted.bsos && posted.bsos[Key(cid, input.id)].payload == input.payload.value
  {
    NothingKept(r.body.value, cfg, input);
    NothingPosted(st, cfg, r, tm, cid, input);
    PlainPostStores(Made(st, r, tm), cfg, cid, r.body.value, input, Now(tm.write));
  }

  lemma NothingPosted(st: Store, cfg: Config, r: Request, tm: Times, cid: int, input: PutInput)
    requires r.CollectionPost? && Accepted(Made(st, r, tm), cfg, r, cid) && r.batch == Some("true") && r.commit
    requires Inputs(r.body.value, cfg.maxRecordPayloadBytes) == [input] && 0 <= cfg.maxTotalRecords
    requires Filtered([input]) == [input] && Failures([input]) == map[] && Kept(r.body.value, cfg) == []
    ensures var plan := PlanPost(st, cfg, r, tm);
            && plan.resp == Response(200, Some(Now(tm.write)), Posted([input.id], {}, None))
            && ApplyAll(st, plan.effects).bsos == st.bsos
  {
    LostResponse(input, Now(tm.write));
    CommitOf(st, cfg, r, tm, cid, [input], {}, []);
  }

  lemma CommitOf(st: Store, cfg: Config, r: Request, tm: Times, cid: int, sent: seq<PutInput>, failed: set<string>, kept: seq<PutInput>)
    requires r.CollectionPost? && Accepted(Made(st, r, tm), cfg, r, cid) && r.batch == Some("true") && r.commit
    requires sent == Filtered(Inputs(r.body.value, cfg.maxRecordPayloadBytes))
    requires failed == Failures(Inputs(r.body.value, cfg.maxRecordPayloadBytes)).Keys
    requires kept == Kept(r.body.value, cfg) && |kept| <= cfg.maxTotalRecords && SizesOk(cfg, kept)
    ensures var plan := PlanPost(st, cfg, r, tm);
            plan.resp == CommitResponse(sent, failed, kept, Now(tm.write)) && ApplyAll(st, plan.effects).bsos == PutRows(st.bsos, cid, kept, Now(tm.write))
  {
    CreateAndCommit(st, cfg, r, tm, cid);
    MadeKeepsRecords(st, r, tm);
  }

  lemma LostResponse(input: PutInput, now: int)
    ensures CommitResponse([input], {}, [], now) == Response(200, Some(now), Posted([input.id], {}, None))
  {
    var none: set<string> := {};
    assert IdsOf([input]) == [input.id];
    assert PutOutcome([]).failed.Keys == none && none + none == none;
  }

  lemma NothingKept(raws: seq<RawRecord>, cfg: Config, input: PutInput)
    requires Clean(raws, cfg.maxRecordPayloadBytes) && Inputs(raws, cfg.maxRecordPayloadBytes) == [input]
    requires PutCheck(input).None? && !Fits(EncodeRecord(input))
    ensures Filtered([input]) == [input] && Failures([input]) == map[] && Kept(raws, cfg) == []
  {
    assert [input][..0] == [];
    assert Failures([input]) == Failures([]);
    EncodedOne(input);
  }

  lemma MadeKeepsRecords(st: Store, r: Request, tm: Times)
    requires r.CollectionPost?
    ensures Made(st, r, tm).bsos == st.bsos
  {
    if r.coll !in st.names { ApplyOne(st, CreateCollection(r.coll, Now(tm.create))); }
  }

  lemma PlainPostStores(st: Store, cfg: Config, cid: int, raws: seq<RawRecord>, input: PutInput, now: int)
    requires Clean(raws, cfg.maxRecordPayloadBytes) && Inputs(raws, cfg.maxRecordPayloadBytes) == [input]
    requires input.payload.Some? && PutCheck(input).None?
    ensures var posted := PlainPost(st, cfg, cid, raws, now);
            Key(cid, input.id) in posted.bsos && posted.bsos[Key(cid, input.id)].payload == input.payload.value
  {
    NoMoreInputs(raws, cfg.maxRecordPayloadBytes);
    ApplyOne(st, PostBSOs(cid, [input], now));
    assert [input][..0] == [];
  }

  /** Such a record: a payload as long as the scanner's buffer, which the payload limit lets through by default. */
  lemma LongRecordExample(st: Store, cfg: Config, r: Request, tm: Times, cid: int)
    requires r.CollectionPost? && CollectionNameOk(r.coll) && r.headers == Headers("", "") && r.batch == Some("true") && r.commit
    requires r.body == Some([RawOf("a", Xs(SCANNER_TOKEN_SIZE))]) && cid == CidOf(Made(st, r, tm), r.coll)
    requires SCANNER_TOKEN_SIZE <= cfg.maxRecordPayloadBytes && 1 <= cfg.maxPOSTRecords && 0 <= cfg.maxTotalRecords
    ensures var plan := PlanPost(st, cfg, r, tm);
            && plan.resp.status == 200 && plan.resp.body == Posted(["a"], {}, None)
            && ApplyAll(st, plan.effects).bsos == st.bsos
    ensures Key(cid, "a") in PlainPost(Made(st, r, tm), cfg, cid, r.body.value, Now(tm.write)).bsos
  {
    var payload := Xs(SCANNER_TOKEN_SIZE);
    XsLength(SCANNER_TOKEN_SIZE);
    OneClean("a", payload, cfg.maxRecordPayloadBytes);
    FitsExactly("a", payload);
    if r.coll !in st.names { ApplyOne(st, CreateCollection(r.coll, Now(tm.create))); }
    LongRecordLost(st, cfg, r, tm, cid, InputOf("a", payload));
  }

  // --------------------------------------------------- a batch beyond the limit

  function Upload(coll: string, batch: string, commit: bool, raws: seq<RawRecord>, clock: nat): Step {
    Serve(CollectionPost(coll, Headers("", ""), Some(raws), Some(batch), commit), TimesFrom(clock))
  }

  lemma UploadEnabled(sv: Server, coll: string, batch: string, commit: bool, raws: seq<RawRecord>)
    requires Inv(sv)
    ensures Enabled(sv, Upload(coll, batch, commit, raws, sv.clock))
  {
    TimesEnabled(sv, Upload(coll, batch, commit, raws, sv.clock).r);
  }

  /** Record i of a batch: a number as its id and a payload of the given length. */
  function RawAt(i: nat, length: nat): RawRecord {
    RawOf(Decimal.Itoa(i), Xs(length))
  }

  function InputAt(i: nat, length: nat): PutInput {
    InputOf(Decimal.Itoa(i), Xs(length))
  }

  function RawsTo(n: nat, length: nat): seq<RawRecord> {
    Tabulate(i => RawAt(i, length), n)
  }

  function InputsTo(n: nat, length: nat): seq<PutInput> {
    Tabulate(i => InputAt(i, length), n)
  }

  lemma OneMoreRecord(n: nat, length: nat)
    requires n > 0
    ensures RawsTo(n, length) == RawsTo(n - 1, length) + [RawAt(n - 1, length)]
    ensures InputsTo(n, length) == InputsTo(n - 1, length) + [InputAt(n - 1, length)]
  {
    TabulateSnoc(i => RawAt(i, length), n - 1);
    TabulateSnoc(i => InputAt(i, length), n - 1);
  }

  /** The lengths under which every single record is fine. */
  predicate FineLength(cfg: Config, n: nat, length: nat) {
    && n <= 1_000_000_000 && n <= cfg.maxTotalRecords && 1 <= cfg.maxPOSTRecords
    && length <= 256 * 1024 && length <= cfg.maxRecordPayloadBytes && length <= cfg.maxTotalBytes
  }

  lemma IdAt(i: nat)
    requires i < 1_000_000_000
    ensures BSOIdOk(Decimal.Itoa(i)) && PlainText(Decimal.Itoa(i)) && |Decimal.Itoa(i)| <= 9
  {
    Decimal.DigitsLength(i, 9);
    Pow10Values();
  }

  lemma InputFine(cfg: Config, i: nat, length: nat)
    requires FineLength(cfg, i + 1, length)
    ensures BatchCheck(InputAt(i, length)).None? && PutCheck(InputAt(i, length)).None?
    ensures Fits(EncodeRecord(InputAt(i, length))) && !TooLarge(InputAt(i, length), cfg.maxTotalBytes)
  {
    IdAt(i);
    XsLength(length);
    FitsExactly(Decimal.Itoa(i), Xs(length));
  }

  lemma {:induction false} RawsClean(cfg: Config, n: nat, length: nat)
    requires FineLength(cfg, n, length)
    ensures Clean(RawsTo(n, length), cfg.maxRecordPayloadBytes)
    ensures Inputs(RawsTo(n, length), cfg.maxRecordPayloadBytes) == InputsTo(n, length)
  {
    if n > 0 {
      RawsClean(cfg, n - 1, length);
      XsLength(length);
      OneClean(Decimal.Itoa(n - 1), Xs(length), cfg.maxRecordPayloadBytes);
      CleanConcat(RawsTo(n - 1, length), [RawAt(n - 1, length)], cfg.maxRecordPayloadBytes);
      OneMoreRecord(n, length);
    } else {
      EmptyColumn(cfg);
      assert RawsTo(0, length) == [] && InputsTo(0, length) == [];
    }
  }

  lemma {:induction false} InputsStay(cfg: Config, n: nat, length: nat)
    requires FineLength(cfg, n, length)
    ensures Filtered(InputsTo(n, length)) == InputsTo(n, length)
  {
    if n > 0 {
      InputsStay(cfg, n - 1, length);
      InputFine(cfg, n - 1, length);
      OneMoreRecord(n, length);
      FilteredSnoc(InputsTo(n - 1, length), InputAt(n - 1, length));
    }
  }

  lemma FilteredSnoc(inputs: seq<PutInput>, input: PutInput)
    requires BatchCheck(input).None?
    ensures Filtered(inputs + [input]) == Filtered(inputs) + [input]
  {
    assert (inputs + [input])[..|inputs|] == inputs;
  }

  /** All of them are kept, and each is within every limit. */
  lemma AllKept(cfg: Config, n: nat, length: nat)
    requires FineLength(cfg, n, length)
    ensures Clean(RawsTo(n, length), cfg.maxRecordPayloadBytes) && Kept(RawsTo(n, length), cfg) == InputsTo(n, length)
    ensures WithinLimits(RawsTo(n, length), cfg)
  {
    var inputs := InputsTo(n, length);
    RawsClean(cfg, n, length);
    InputsStay(cfg, n, length);
    forall i | 0 <= i < n ensures Fits(Encoded(inputs)[i]) && !TooLarge(inputs[i], cfg.maxTotalBytes) {
      InputFine(cfg, i, length);
      assert Encoded(inputs)[i] == EncodeRecord(inputs[i]);
    }
    AllFitPrefix(inputs);
  }

  /** A server whose batch b holds these records. */
  ghost predicate Ready(sv: Server, cfg: Config, coll: string, cid: int, b: int, raws: seq<RawRecord>) {
    && Inv(sv) && !sv.stopped && CollectionNameOk(coll) && coll in sv.store.names && sv.store.names[coll] == cid
    && Holding(sv.store, cfg, b, cid, raws)
  }

  lemma UploadOne(sv: Server, cfg: Config, coll: string, cid: int, b: int, n: nat, length: nat) returns (step: Step)
    requires FineLength(cfg, n + 1, length) && Ready(sv, cfg, coll, cid, b, RawsTo(n, length))
    ensures Enabled(sv, step) && Ready(Next(sv, cfg, step), cfg, coll, cid, b, RawsTo(n + 1, length))
  {
    var raw := RawAt(n, length);
    OneMoreRecord(n + 1, length);
    step := Upload(coll, BatchIdString(b), false, [raw], sv.clock);
    UploadEnabled(sv, coll, BatchIdString(b), false, [raw]);
    StepKeeps(sv, cfg, step);
    XsLength(length);
    OneClean(Decimal.Itoa(n), Xs(length), cfg.maxRecordPayloadBytes);
    BatchIdRoundTrip(b);
    AppendStays(sv.store, cfg, step.r, step.tm, b, cid, RawsTo(n, length));
    NextStore(sv, cfg, step);
  }

  lemma {:induction false} UploadMany(sv: Server, cfg: Config, coll: string, cid: int, b: int, n: nat, length: nat) returns (steps: seq<Step>)
    requires FineLength(cfg, n, length) && Ready(sv, cfg, coll, cid, b, [])
    ensures ValidRun(sv, cfg, steps) && Ready(Run(sv, cfg, steps), cfg, coll, cid, b, RawsTo(n, length))
  {
    steps := [];
    assert RawsTo(0, length) == [];
    if n > 0 {
      var before := UploadMany(sv, cfg, coll, cid, b, n - 1, length);
      var s1 := Run(sv, cfg, before);
      var step := UploadOne(s1, cfg, coll, cid, b, n - 1, length);
      OneStepMore(sv, cfg, before, step);
      steps := before + [step];
    }
  }

  lemma CreateOne(sv: Server, cfg: Config, coll: string) returns (step: Step, cid: int)
    requires Inv(sv) && !sv.stopped && CollectionNameOk(coll) && 1 <= cfg.maxPOSTRecords
    ensures Enabled(sv, step) && Ready(Next(sv, cfg, step), cfg, coll, cid, sv.store.nextBatch, [])
  {
    step := Upload(coll, "true", false, [], sv.clock);
    UploadEnabled(sv, coll, "true", false, []);
    StepKeeps(sv, cfg, step);
    EmptyColumn(cfg);
    var st1 := Made(sv.store, step.r, step.tm);
    AutomakeRow(sv.store, coll, step.tm);
    cid := st1.names[coll];
    CreateHolds(sv.store, cfg, step.r, step.tm, cid);
    NextStore(sv, cfg, step);
    RunAppliesStep(sv, cfg, step, coll);
  }

  /** A POST keeps the name of the collection it made. */
  lemma RunAppliesStep(sv: Server, cfg: Config, step: Step, coll: string)
    requires step.Serve? && step.r.CollectionPost? && step.r.coll == coll && CollectionNameOk(coll) && !sv.stopped
    requires coll in Made(sv.store, step.r, step.tm).names
    ensures var names := Next(sv, cfg, step).store.names;
            coll in names && names[coll] == Made(sv.store, step.r, step.tm).names[coll]
  {
    var st1 := Made(sv.store, step.r, step.tm);
    MadePlan(sv.store, cfg, step.r, step.tm);
    NextStore(sv, cfg, step);
    Sync.NamesStay(st1, PlanPost(st1, cfg, step.r, step.tm).effects, coll);
  }

  lemma {:induction false} AllStored(bsos: map<Key, Bso>, cid: int, cfg: Config, n: nat, length: nat, now: int, i: nat)
    requires FineLength(cfg, n, length) && i < n
    ensures var key := Key(cid, Decimal.Itoa(i));
            key in PutRows(bsos, cid, InputsTo(n, length), now) && PutRows(bsos, cid, InputsTo(n, length), now)[key].payload == Xs(length)
  {
    var rows := PutRows(bsos, cid, InputsTo(n - 1, length), now);
    InputFine(cfg, n - 1, length);
    if i < n - 1 { AllStored(bsos, cid, cfg, n - 1, length, now, i); }
    PutStores(rows, cid, InputAt(n - 1, length), now, Key(cid, Decimal.Itoa(i)), Xs(length));
    PutRowsSnoc(bsos, cid, InputsTo(n - 1, length), InputAt(n - 1, length), now);
    OneMoreRecord(n, length);
  }

  lemma PutStores(rows: map<Key, Bso>, cid: int, input: PutInput, now: int, key: Key, payload: string)
    requires PutCheck(input).None? && input.payload == Some(payload)
    requires key == Key(cid, input.id) || (key in rows && rows[key].payload == payload)
    ensures key in PutRow(rows, cid, input, now) && PutRow(rows, cid, input, now)[key].payload == payload
  {}

  lemma PutRowsSnoc(bsos: map<Key, Bso>, cid: int, inputs: seq<PutInput>, input: PutInput, now: int)
    ensures PutRows(bsos, cid, inputs + [input], now) == PutRow(PutRows(bsos, cid, inputs, now), cid, input, now)
  {
    assert (inputs + [input])[..|inputs|] == inputs;
  }

  /**
    The byte limit does not bound a batch. From any running server, any number of records,
    each fine by itself, can be uploaded one by one and committed together: the answer is
    200 and every one is stored, whatever their total.
   */
  lemma TotalNotBounded(sv: Server, cfg: Config, coll: string, n: nat, length: nat) returns (steps: seq<Step>, commit: Step, cid: int)
    requires Inv(sv) && !sv.stopped && CollectionNameOk(coll) && FineLength(cfg, n, length)
    ensures ValidRun(sv, cfg, steps) && Enabled(Run(sv, cfg, steps), commit) && commit.Serve? && commit.r.CollectionPost?
    ensures !Run(sv, cfg, steps).stopped && PlanPost(Run(sv, cfg, steps).store, cfg, commit.r, commit.tm).resp.status == 200
    ensures forall i :: 0 <= i < n ==> Stored(Next(Run(sv, cfg, steps), cfg, commit).store, cid, i, length)
    ensures forall i, j :: 0 <= i < j < n ==> Decimal.Itoa(i) != Decimal.Itoa(j)
  {
    var create;
    create, cid := CreateOne(sv, cfg, coll);
    var b, s1 := sv.store.nextBatch, Next(sv, cfg, create);
    var uploads := UploadMany(s1, cfg, coll, cid, b, n, length);
    steps := [create] + uploads;
    FirstStep(sv, cfg, create, uploads);
    var s2 := Run(sv, cfg, steps);
    commit := Upload(coll, BatchIdString(b), true, [], s2.clock);
    UploadEnabled(s2, coll, BatchIdString(b), true, []);
    CommitAll(s2, cfg, coll, cid, b, n, length, commit);
    forall i, j | 0 <= i < j < n ensures Decimal.Itoa(i) != Decimal.Itoa(j) {
      Decimal.ItoaAtoi(i);
      Decimal.ItoaAtoi(j);
    }
  }

  predicate Stored(st: Store, cid: int, i: nat, length: nat) {
    var key := Key(cid, Decimal.Itoa(i));
    key in st.bsos && st.bsos[key].payload == Xs(length)
  }

  lemma CommitAll(sv: Server, cfg: Config, coll: string, cid: int, b: int, n: nat, length: nat, commit: Step)
    requires FineLength(cfg, n, length) && Ready(sv, cfg, coll, cid, b, RawsTo(n, length))
    requires commit == Upload(coll, BatchIdString(b), true, [], sv.clock)
    ensures PlanPost(sv.store, cfg, commit.r, commit.tm).resp.status == 200
    ensures forall i :: 0 <= i < n ==> Stored(Next(sv, cfg, commit).store, cid, i, length)
  {
    var raws := RawsTo(n, length);
    assert raws + [] == raws;
    EmptyColumn(cfg);
    AllKept(cfg, n, length);
    BatchIdRoundTrip(b);
    AppendAndCommit(sv.store, cfg, commit.r, commit.tm, b, cid, raws);
    NextStore(sv, cfg, commit);
    forall i | 0 <= i < n ensures Stored(Next(sv, cfg, commit).store, cid, i, length) {
      AllStored(sv.store.bsos, cid, cfg, n, length, Now(commit.tm.write), i);
    }
  }

  /** The limits a server has by default. */
  const DEFAULT_CONFIG := Config(100, 10000, 100 * 1024 * 1024, 2 * 60 * 60 * 1000, 2 * 1024 * 1024)

  /** With them, one batch can store more than twenty times MaxTotalBytes. */
  lemma DefaultTotalExceeded(sv: Server, coll: string) returns (steps: seq<Step>, commit: Step, cid: int)
    requires Inv(sv) && !sv.stopped && CollectionNameOk(coll)
    ensures ValidRun(sv, DEFAULT_CONFIG, steps) && Enabled(Run(sv, DEFAULT_CONFIG, steps), commit)
    ensures commit.Serve? && commit.r.CollectionPost?
    ensures PlanPost(Run(sv, DEFAULT_CONFIG, steps).store, DEFAULT_CONFIG, commit.r, commit.tm).resp.status == 200
    ensures forall i :: 0 <= i < 10000 ==> Stored(Next(Run(sv, DEFAULT_CONFIG, steps), DEFAULT_CONFIG, commit).store, cid, i, 256 * 1024)
    ensures 10000 * (256 * 1024) > 20 * DEFAULT_CONFIG.maxTotalBytes
  {
    steps, commit, cid := TotalNotBounded(sv, DEFAULT_CONFIG, coll, 10000, 256 * 1024);
  }
}
