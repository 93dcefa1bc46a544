/**
  What one request does: for each route, the table operations it runs, in order, and
  its response, as a function of the tables, the request and the clock readings taken
  while it is served.
 */
module Requests {
  import opened Prelude
  import opened Timestamps
  import opened Tables
  import opened Sql
  import opened Records
  import opened BatchLines
  import Decimal
  import Query

  datatype Config = Config(
    maxPOSTRecords: int,
    maxTotalRecords: int,
    maxTotalBytes: int,
    maxBatchTTL: int,
    maxRecordPayloadBytes: int)

  /** X-If-Modified-Since and X-If-Unmodified-Since, empty when absent. */
  datatype Headers = Headers(modifiedSince: string, unmodifiedSince: string)

  /** Query parameters of a collection GET; the two bounds are the client's text. */
  datatype GetParams = GetParams(ids: seq<string>, older: string, newer: string, limit: Option<int>, offset: int, sort: SortType)

  datatype Request =
    | CollectionGet(coll: string, headers: Headers, params: GetParams)
    | CollectionPost(coll: string, headers: Headers, body: Option<seq<RawRecord>>, batch: Option<string>, commit: bool)
    | CollectionDelete(coll: string, headers: Headers, ids: Option<seq<string>>)
    | BsoGet(coll: string, id: string, headers: Headers)
    | BsoPut(coll: string, id: string, headers: Headers, record: RawRecord)
    | BsoDelete(coll: string, id: string, headers: Headers)
    | DeleteAll
    | InfoCollections(headers: Headers)

  predicate IsWrite(r: Request) {
    r.CollectionPost? || r.CollectionDelete? || r.BsoPut? || r.BsoDelete? || r.DeleteAll?
  }

  /** A DELETE names at least one id, since splitting text at commas gives at least one part. */
  predicate WellFormed(r: Request) {
    r.CollectionDelete? && r.ids.Some? ==> |r.ids.value| > 0
  }

  /**
    The instants of one request, in nanoseconds: arrival, the end of the write delay,
    the three points at which handlers read the clock, and completion.
   */
  datatype Times = Times(arrive: nat, wake: nat, create: nat, middle: nat, write: nat, done: nat)

  predicate Ordered(tm: Times) {
    tm.arrive <= tm.wake <= tm.create <= tm.middle <= tm.write <= tm.done
  }

  datatype Body =
    | NoBody
    | Rows(rows: seq<Row>, next: Option<int>)
    | Posted(success: seq<string>, failed: set<string>, batch: Option<string>)
    | Info(stamps: map<string, int>)

  datatype Response = Response(status: int, lastModified: Option<int>, body: Body)

  function Status(code: int): Response {
    Response(code, None, NoBody)
  }

  datatype Plan = Plan(effects: seq<Effect>, resp: Response)

  // ------------------------------------------------------------ preconditions

  datatype Verdict = Proceed | BadHeader | NotModified | PreconditionFailed

  /** Compares a stamp with the one conditional header, if any. */
  function Judge(h: Headers, modified: int): Verdict {
    if h.modifiedSince != "" && h.unmodifiedSince != "" then BadHeader
    else if h.modifiedSince != "" then
      match ConvertSigned(h.modifiedSince)
      case None => BadHeader
      case Some(ts) => if ts < 0 then BadHeader else if modified <= ts then NotModified else Proceed
    else if h.unmodifiedSince != "" then
      match ConvertSigned(h.unmodifiedSince)
      case None => BadHeader
      case Some(ts) => if ts < 0 then BadHeader else if modified > ts then PreconditionFailed else Proceed
    else Proceed
  }

  function Refusal(v: Verdict, modified: int): Response
    requires v != Proceed
  {
    match v
    case BadHeader => Status(400)
    case NotModified => Response(304, Some(modified), NoBody)
    case PreconditionFailed => Response(412, Some(modified), NoBody)
  }

  function CollectionStamp(st: Store, cid: int): int {
    if cid in st.collections then st.collections[cid].modified else 0
  }

  // -------------------------------------------------------------------- POST

  /** The id after the prefix byte; cutting into a longer character leaves no number. */
  function BatchIdInt(text: string): Option<int> {
    if |text| < 2 || CharLen(text[0]) != 1 then None else Decimal.Atoi(text[1..])
  }

  function BatchIdString(id: int): string {
    "b" + Decimal.Itoa(id)
  }

  /** The prefix is cut off unread: any one-byte character will do. */
  lemma AnyPrefixReads(prefix: char, id: int)
    requires prefix < '\U{80}'
    ensures BatchIdInt([prefix] + Decimal.Itoa(id)) == Some(id)
  {
    Decimal.ItoaAtoi(id);
    assert ([prefix] + Decimal.Itoa(id))[1..] == Decimal.Itoa(id);
  }

  lemma BatchIdRoundTrip(id: int)
    ensures BatchIdInt(BatchIdString(id)) == Some(id) && BatchIdString(id) != "true"
  {
    AnyPrefixReads('b', id);
    assert BatchIdString(id)[0] == 'b';
  }

  function IdsOf(inputs: seq<PutInput>): seq<string> {
    seq(|inputs|, i requires 0 <= i < |inputs| => inputs[i].id)
  }

  function PlanClassic(cfg: Config, cid: int, body: Option<seq<RawRecord>>, now: int): Plan {
    var decoded := if body.Some? then DecodeBody(body.value, cfg.maxRecordPayloadBytes) else None;
    if decoded.None? then Plan([], Status(400))
    else if |decoded.value.inputs| > cfg.maxPOSTRecords then Plan([], Status(413))
    else
      var results := PutOutcome(decoded.value.inputs);
      Plan([PostBSOs(cid, decoded.value.inputs, now)],
           Response(200, Some(now), Posted(results.success, decoded.value.failed.Keys + results.failed.Keys, None)))
  }

  /** The size check looks at each payload alone. */
  predicate SizesOk(cfg: Config, inputs: seq<PutInput>) {
    forall i :: 0 <= i < |inputs| ==> !TooLarge(inputs[i], cfg.maxTotalBytes)
  }

  /** Loading, checking and posting a stored batch. */
  function PlanCommit(st: Store, cfg: Config, cid: int, id: int, sent: seq<PutInput>, failed: set<string>, missing: int, now: int): Plan {
    if !BatchIn(st, id, cid) then Plan([], Status(missing))
    else
      var lines := Lines(st.batches[id].bsos);
      var inputs := ParseLines(lines);
      if |lines| > cfg.maxTotalRecords then Plan([BatchRemove(id)], Status(400))
      else if inputs.None? then Plan([], Status(500))
      else if !SizesOk(cfg, inputs.value) then Plan([BatchRemove(id)], Status(400))
      else
        Plan([PostBSOs(cid, inputs.value, now), BatchRemove(id)],
             Response(200, Some(now), Posted(IdsOf(sent), failed + PutOutcome(inputs.value).failed.Keys, None)))
  }

  /** After the batch row is in place: commit, or just acknowledge. */
  function PlanFinish(st: Store, cfg: Config, cid: int, id: int, commit: bool, sent: seq<PutInput>, failed: set<string>, found: bool, now: int): Plan {
    if commit then PlanCommit(st, cfg, cid, id, sent, failed, if found then 500 else 400, now)
    else if !found then Plan([], Status(400))
    else
      Plan([], Response(202, Some(CollectionStamp(st, cid)), Posted(IdsOf(sent), failed, Some(BatchIdString(id)))))
  }

  function PlanCreate(st: Store, cfg: Config, cid: int, commit: bool, filtered: seq<PutInput>, failed: set<string>, tm: Times): Plan {
    var first := BatchCreate(cid, EncodeAll(filtered), Now(tm.middle));
    var rest := PlanFinish(Apply(st, first), cfg, cid, st.nextBatch, commit, filtered, failed, true, Now(tm.write));
    Plan([first] + rest.effects, rest.resp)
  }

  function PlanAppend(st: Store, cfg: Config, cid: int, id: int, commit: bool, filtered: seq<PutInput>, failed: set<string>, tm: Times): Plan {
    var found := BatchIn(st, id, cid);
    if filtered == [] then PlanFinish(st, cfg, cid, id, commit, filtered, failed, found, Now(tm.write))
    else if !found then Plan([], Status(400))
    else
      var first := BatchAppend(id, cid, EncodeAll(filtered), Now(tm.middle));
      var rest := PlanFinish(Apply(st, first), cfg, cid, id, commit, filtered, failed, true, Now(tm.write));
      Plan([first] + rest.effects, rest.resp)
  }

  /**
    Create, append to, or commit a batch. A batch that is not found has been answered
    with 400, but processing goes on; the later steps must not find it either.
   */
  function PlanBatch(st: Store, cfg: Config, cid: int, batch: string, commit: bool, inputs: seq<PutInput>, tm: Times): Plan {
    var filtered, failed := Filtered(inputs), Failures(inputs).Keys;
    if batch == "true" then PlanCreate(st, cfg, cid, commit, filtered, failed, tm)
    else if BatchIdInt(batch).None? then Plan([], Status(400))
    else PlanAppend(st, cfg, cid, BatchIdInt(batch).value, commit, filtered, failed, tm)
  }

  function PlanBatchBody(st: Store, cfg: Config, cid: int, batch: string, commit: bool, body: Option<seq<RawRecord>>, tm: Times): Plan {
    var decoded := if body.Some? then DecodeBody(body.value, cfg.maxRecordPayloadBytes) else None;
    if decoded.None? then Plan([], Status(400))
    else if |decoded.value.inputs| > cfg.maxPOSTRecords then Plan([], Status(413))
    else if decoded.value.failed != map[] then
      Plan([], Response(200, Some(st.storage), Posted([], decoded.value.failed.Keys, None)))
    else PlanBatch(st, cfg, cid, batch, commit, decoded.value.inputs, tm)
  }

  function PlanPostTo(st: Store, cfg: Config, cid: int, r: Request, tm: Times): Plan
    requires r.CollectionPost?
  {
    var cmodified := CollectionStamp(st, cid);
    var v := Judge(r.headers, cmodified);
    if v != Proceed then Plan([], Refusal(v, cmodified))
    else if r.commit && r.batch.None? then Plan([], Status(400))
    else if r.batch.Some? && r.batch.value != "" then PlanBatchBody(st, cfg, cid, r.batch.value, r.commit, r.body, tm)
    else PlanClassic(cfg, cid, r.body, Now(tm.write))
  }

  /** The collection is made first when it does not exist, whatever happens to the rest. */
  function Automake(st: Store, coll: string, tm: Times): seq<Effect> {
    if coll in st.names then [] else [CreateCollection(coll, Now(tm.create))]
  }

  function PlanPost(st: Store, cfg: Config, r: Request, tm: Times): Plan
    requires r.CollectionPost?
  {
    if !CollectionNameOk(r.coll) then Plan([], Status(400))
    else
      var made := Automake(st, r.coll, tm);
      var st1 := ApplyAll(st, made);
      var rest := PlanPostTo(st1, cfg, CidOf(st1, r.coll), r, tm);
      Plan(made + rest.effects, rest.resp)
  }

  function CidOf(st: Store, coll: string): int {
    if coll in st.names then st.names[coll] else 0
  }

  // ------------------------------------------------------------- PUT, DELETE

  function PlanPutTo(st: Store, cfg: Config, cid: int, r: Request, tm: Times): Plan
    requires r.BsoPut?
  {
    var current := Query.GetBSOModified(st.bsos, cid, r.id, Now(tm.middle));
    var modified := if current.Some? then current.value else 0;
    var v := Judge(r.headers, modified);
    if v != Proceed then Plan([], Refusal(v, modified))
    else
      match ParseRaw(r.record)
      case Err(_) => Plan([], Status(400))
      case Ok(parsed) =>
        if TooLarge(parsed, cfg.maxRecordPayloadBytes) then Plan([], Status(413))
        else
          var input := ToMilliseconds(parsed).(id := r.id);
          if PutCheck(input).Some? then Plan([], Status(400))
          else Plan([PostBSOs(cid, [input], Now(tm.write))], Response(200, Some(Now(tm.write)), NoBody))
  }

  function PlanPut(st: Store, cfg: Config, r: Request, tm: Times): Plan
    requires r.BsoPut?
  {
    if !BSOIdOk(r.id) then Plan([], Status(404))
    else if !CollectionNameOk(r.coll) then Plan([], Status(500))
    else
      var made := Automake(st, r.coll, tm);
      var st1 := ApplyAll(st, made);
      var rest := PlanPutTo(st1, cfg, CidOf(st1, r.coll), r, tm);
      Plan(made + rest.effects, rest.resp)
  }

  function PlanCollectionDelete(st: Store, cfg: Config, r: Request, tm: Times): Plan
    requires r.CollectionDelete?
  {
    if !CollectionNameOk(r.coll) then Plan([], Status(500))
    else if r.coll !in st.names then Plan([], Status(404))
    else
      var cid, now := st.names[r.coll], Now(tm.write);
      var v := Judge(r.headers, CollectionStamp(st, cid));
      if v != Proceed then Plan([], Refusal(v, CollectionStamp(st, cid)))
      else if r.ids.Some? && |r.ids.value| > cfg.maxPOSTRecords then Plan([], Status(400))
      else
        Plan([if r.ids.Some? then DeleteBSOs(cid, r.ids.value, now) else DeleteCollection(cid, now)],
             Response(200, Some(now), NoBody))
  }

  /** A name the table would never hold is not refused here: it just finds nothing. */
  function PlanBsoDelete(st: Store, r: Request, tm: Times): Plan
    requires r.BsoDelete?
  {
    if !BSOIdOk(r.id) then Plan([], Status(404))
    else if CollectionNameOk(r.coll) && r.coll !in st.names then Plan([], Status(406))
    else
      var cid := if CollectionNameOk(r.coll) then CidOf(st, r.coll) else 0;
      var found := Query.GetBSO(st.bsos, cid, r.id, Now(tm.middle));
      if found.None? then Plan([], Status(404))
      else
        var v := Judge(r.headers, found.value.modified);
        if v != Proceed then Plan([], Refusal(v, found.value.modified))
        else Plan([DeleteBSOs(cid, [r.id], Now(tm.write))], Response(200, Some(Now(tm.write)), NoBody))
  }

  // -------------------------------------------------------------------- GET

  /** The bounds of a search, from the client's text; a negative upper bound is let through. */
  function ParseBounds(p: GetParams): Option<(int, int)> {
    match (if p.older == "" then Some(MAX_TIMESTAMP) else ConvertSigned(p.older),
           if p.newer == "" then Some(0) else ConvertSigned(p.newer))
    case (Some(older), Some(newer)) => if newer < 0 then None else Some((older, newer))
    case _ => None
  }

  predicate IdsOk(ids: seq<string>) {
    |ids| <= 100 && forall i :: 0 <= i < |ids| ==> BSOIdOk(ids[i])
  }

  function GetCollection(st: Store, r: Request, tm: Times, arrange: Arrange): Response
    requires r.CollectionGet?
  {
    var p, bounds := r.params, ParseBounds(r.params);
    var limit := if p.limit.Some? then p.limit.value else -1;
    if !CollectionNameOk(r.coll) then Status(500)
    else if r.coll !in st.names then Response(200, None, Rows([], None))
    else if !IdsOk(p.ids) || bounds.None? || (p.limit.Some? && limit < 0) || p.offset < 0 then Status(400)
    else
      var cid := st.names[r.coll];
      var cmodified := CollectionStamp(st, cid);
      var v := Judge(r.headers, cmodified);
      if v != Proceed then Refusal(v, cmodified)
      else
        var search := Query.Search(cid, p.ids, bounds.value.0, bounds.value.1, p.sort, Now(tm.middle));
        match Query.GetBSOs(st.bsos, search, limit, p.offset, arrange)
        case Err(_) => Status(500)
        case Ok(page) =>
          Response(200, Some(cmodified), Rows(page.rows, if page.more then Some(page.offset) else None))
  }

  function GetOne(st: Store, r: Request, tm: Times): Response
    requires r.BsoGet?
  {
    if !BSOIdOk(r.id) then Status(404)
    else if !CollectionNameOk(r.coll) then Status(500)
    else if r.coll !in st.names then Status(404)
    else
      var found := Query.GetBSO(st.bsos, st.names[r.coll], r.id, Now(tm.middle));
      if found.None? then Status(404)
      else
        var v := Judge(r.headers, found.value.modified);
        if v != Proceed then Refusal(v, found.value.modified)
        else Response(200, Some(found.value.modified), Rows([found.value], None))
  }

  /** The stamps of the collections that have one. */
  function CollectionStamps(st: Store): map<string, int> {
    map n | n in st.names && CollectionStamp(st, st.names[n]) != 0 :: CollectionStamp(st, st.names[n])
  }

  function GetInfo(st: Store, headers: Headers): Response {
    var v := Judge(headers, st.storage);
    if v != Proceed then Refusal(v, st.storage) else Response(200, Some(st.storage), Info(CollectionStamps(st)))
  }

  // ------------------------------------------------------------------ routes

  function PlanRequest(st: Store, cfg: Config, r: Request, tm: Times, arrange: Arrange): Plan {
    match r
    case CollectionPost(_, _, _, _, _) => PlanPost(st, cfg, r, tm)
    case CollectionDelete(_, _, _) => PlanCollectionDelete(st, cfg, r, tm)
    case BsoPut(_, _, _, _) => PlanPut(st, cfg, r, tm)
    case BsoDelete(_, _, _) => PlanBsoDelete(st, r, tm)
    case DeleteAll => Plan([DeleteEverything], Response(200, Some(Now(tm.write)), NoBody))
    case CollectionGet(_, _, _) => Plan([], GetCollection(st, r, tm, arrange))
    case BsoGet(_, _, _) => Plan([], GetOne(st, r, tm))
    case InfoCollections(headers) => Plan([], GetInfo(st, headers))
  }
}
