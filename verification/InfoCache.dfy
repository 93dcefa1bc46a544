/**
  The cache in front of GET info/collections: one packed entry per user, holding the
  stamp as thirteen bytes and then the body. A hit must be what the user's own handler
  would answer now.
 */
module InfoCache {
  import opened Prelude
  import opened Timestamps
  import opened Tables
  import opened Requests
  import opened Runs
  import Decimal

  const LAST_MODIFIED_BYTES: nat := 13

  /** A response as sent: status, X-Last-Modified and body. */
  datatype Text = Text(status: int, lastModified: Option<string>, body: string)

  // ------------------------------------------------------------------ rendering

  function StampText(stamp: int): string {
    if stamp < 0 then "" else ModifiedToString(stamp)
  }

  function Member(name: string, stamps: map<string, int>): string {
    "\"" + name + "\":" + StampText(if name in stamps then stamps[name] else 0)
  }

  /** The members in the order the map happens to be walked, with commas between. */
  function Members(order: seq<string>, stamps: map<string, int>): string {
    if order == [] then ""
    else if |order| == 1 then Member(order[0], stamps)
    else Member(order[0], stamps) + "," + Members(order[1..], stamps)
  }

  function InfoText(order: seq<string>, stamps: map<string, int>): string {
    "{" + Members(order, stamps) + "}"
  }

  /** An order of a map's names: each once. */
  ghost predicate IsOrder(order: seq<string>, stamps: map<string, int>) {
    && (forall n :: n in order <==> n in stamps)
    && forall i, j :: 0 <= i < j < |order| ==> order[i] != order[j]
  }

  function AsText(resp: Response, order: seq<string>): Text {
    Text(resp.status,
         if resp.lastModified.Some? then Some(StampText(resp.lastModified.value)) else None,
         if resp.body.Info? then InfoText(order, resp.body.stamps) else "")
  }

  /** What the user's handler answers. */
  function Uncached(sv: Server, headers: Headers, order: seq<string>): Text {
    AsText(if sv.stopped then Status(503) else GetInfo(sv.store, headers), order)
  }

  // -------------------------------------------------------------------- entries

  function Padded(header: string): (r: string)
    ensures |r| == LAST_MODIFIED_BYTES
  {
    if |header| >= LAST_MODIFIED_BYTES then header[..LAST_MODIFIED_BYTES]
    else header + seq(LAST_MODIFIED_BYTES - |header|, _ => '\0')
  }

  function Packed(header: string, body: string): string {
    Padded(header) + body
  }

  /** Copies the header to the front of the entry, then the body over what follows byte 13. */
  method PackEntry(header: string, body: string) returns (data: array<char>)
    ensures fresh(data) && data[..] == Packed(header, body)
  {
    data := new char[|body| + LAST_MODIFIED_BYTES](_ => '\0');
    var i := 0;
    while i < |header| && i < data.Length
      invariant i <= |header| && i <= data.Length
      invariant forall j :: 0 <= j < data.Length ==> data[j] == if j < i then header[j] else '\0'
    {
      data[i] := header[i];
      i := i + 1;
    }
    i := 0;
    while i < |body|
      invariant i <= |body|
      invariant forall j :: 0 <= j < LAST_MODIFIED_BYTES ==> data[j] == if j < |header| then header[j] else '\0'
      invariant forall j :: 0 <= j < i ==> data[LAST_MODIFIED_BYTES + j] == body[j]
    {
      data[LAST_MODIFIED_BYTES + i] := body[i];
      i := i + 1;
    }
    assert data[..LAST_MODIFIED_BYTES] == Padded(header);
    assert data[LAST_MODIFIED_BYTES..] == body;
  }

  /** What a cached entry is answered with; an unreadable stamp counts as zero. */
  function Hit(entry: string, headers: Headers): Text
    requires |entry| >= LAST_MODIFIED_BYTES
  {
    var text := entry[..LAST_MODIFIED_BYTES];
    var modified := StampOf(text);
    var v := Judge(headers, modified);
    if v != Proceed then AsText(Refusal(v, modified), []) else Text(200, Some(text), entry[LAST_MODIFIED_BYTES..])
  }

  function StampOf(text: string): nat {
    match ConvertTimestamp(text)
    case Some(m) => m
    case None => 0
  }

  // ------------------------------------------------------- a hit against a miss

  /** Unpacking gives the body back always, and the header exactly if it has thirteen bytes. */
  lemma Unpacks(header: string, body: string)
    ensures |Packed(header, body)| == LAST_MODIFIED_BYTES + |body|
    ensures Packed(header, body)[LAST_MODIFIED_BYTES..] == body
    ensures Packed(header, body)[..LAST_MODIFIED_BYTES] == header <==> |header| == LAST_MODIFIED_BYTES
  {
    assert Packed(header, body)[..LAST_MODIFIED_BYTES] == Padded(header);
  }

  function EntryFor(st: Store, order: seq<string>): string {
    Packed(StampText(st.storage), InfoText(order, CollectionStamps(st)))
  }

  lemma HitOf(entry: string, text: string, body: string, stamp: nat, headers: Headers)
    requires |entry| >= LAST_MODIFIED_BYTES && entry[..LAST_MODIFIED_BYTES] == text && entry[LAST_MODIFIED_BYTES..] == body
    requires StampOf(text) == stamp
    ensures Hit(entry, headers) ==
            var v := Judge(headers, stamp);
            if v != Proceed then AsText(Refusal(v, stamp), []) else Text(200, Some(text), body)
  {}

  /** An entry answers as the handler does, when its stamp reads back as the storage stamp. */
  lemma HitIs(st: Store, headers: Headers, order: seq<string>, text: string)
    requires text == StampText(st.storage) && |text| == LAST_MODIFIED_BYTES && StampOf(text) == st.storage
    ensures Hit(EntryFor(st, order), headers) == AsText(GetInfo(st, headers), order)
  {
    var body := InfoText(order, CollectionStamps(st));
    Unpacks(text, body);
    HitOf(EntryFor(st, order), text, body, st.storage, headers);
    MissOf(st, headers, order);
  }

  lemma MissOf(st: Store, headers: Headers, order: seq<string>)
    ensures AsText(GetInfo(st, headers), order) ==
            var v := Judge(headers, st.storage);
            if v != Proceed then AsText(Refusal(v, st.storage), [])
            else Text(200, Some(StampText(st.storage)), InfoText(order, CollectionStamps(st)))
  {}

  /** The stamps for which a hit can be trusted: thirteen bytes that read back exactly. */
  predicate Cacheable(stamp: nat) {
    |ModifiedToString(stamp)| == LAST_MODIFIED_BYTES && Echoes(stamp)
  }

  /** All stamps from November 2004 to January 2038. */
  lemma CacheableWindow(m: nat)
    requires m % 10 == 0 && 0x100_0000_0000 <= m < 0x8000_0000 * 1000
    ensures Cacheable(m)
  {
    EchoWindows(m);
    TextLength(m);
  }

  lemma CacheableHits(st: Store, headers: Headers, order: seq<string>)
    requires st.storage >= 0 && Cacheable(st.storage)
    ensures Hit(EntryFor(st, order), headers) == AsText(GetInfo(st, headers), order)
  {
    EchoedStamp(st.storage);
    HitIs(st, headers, order, StampText(st.storage));
  }

  /** A client without conditions sees a header that is not thirteen bytes long altered. */
  lemma HeaderAltered(st: Store, order: seq<string>, text: string)
    requires text == StampText(st.storage) && |text| != LAST_MODIFIED_BYTES
    ensures Hit(EntryFor(st, order), Headers("", "")).lastModified != AsText(GetInfo(st, Headers("", "")), order).lastModified
  {
    Unpacks(text, InfoText(order, CollectionStamps(st)));
  }

  /** A client that sends back a stamp losing its last millisecond is told 304 by a hit and 200 by the handler. */
  lemma DecisionAltered(st: Store, order: seq<string>, text: string)
    requires text == StampText(st.storage) && |text| == LAST_MODIFIED_BYTES && st.storage > 0
    requires ConvertTimestamp(text) == Some(st.storage - 1)
    ensures Hit(EntryFor(st, order), Headers(text, "")).status == 304
    ensures AsText(GetInfo(st, Headers(text, "")), order).status == 200
  {
    Unpacks(text, InfoText(order, CollectionStamps(st)));
  }

  /** A storage never written: its stamp is four bytes, so a hit sends another header. */
  lemma NeverWrittenHit(st: Store, order: seq<string>)
    requires st.storage == 0
    ensures Hit(EntryFor(st, order), Headers("", "")).lastModified != AsText(GetInfo(st, Headers("", "")), order).lastModified
  {
    TextLength(0);
    HeaderAltered(st, order, StampText(0));
  }

  /** A stamp that loses a millisecond: a client that sends it back gets a 304 from a hit and a 200 from the handler. */
  lemma LostStampHit(st: Store, order: seq<string>, stamp: nat)
    requires st.storage == stamp == 2147483648140
    ensures Hit(EntryFor(st, order), Headers(StampText(stamp), "")).status == 304
    ensures AsText(GetInfo(st, Headers(StampText(stamp), "")), order).status == 200
  {
    LostExample(stamp);
    TextLength(stamp);
    DecisionAltered(st, order, StampText(stamp));
  }

  /** A hit answers every conditional request as the handler does exactly when the stamp is cacheable. */
  lemma HitExact(st: Store, order: seq<string>)
    requires 0 <= st.storage < 0x80000000000 * 1000 && st.storage % 10 == 0
    ensures (forall headers :: Hit(EntryFor(st, order), headers) == AsText(GetInfo(st, headers), order)) <==> Cacheable(st.storage)
  {
    var text := StampText(st.storage);
    if Cacheable(st.storage) {
      forall headers ensures Hit(EntryFor(st, order), headers) == AsText(GetInfo(st, headers), order) {
        CacheableHits(st, headers, order);
      }
    } else if |text| != LAST_MODIFIED_BYTES {
      HeaderAltered(st, order, text);
    } else {
      RoundTrip(st.storage);
      DecisionAltered(st, order, text);
    }
  }

  // ------------------------------------------------------------------- the class

  class CacheHandler {
    var cache: map<string, string>

    /** info/collections; `inner` is what the wrapped handler answers if it is asked. */
    method InfoCollection(uid: string, headers: Headers, inner: Text) returns (resp: Text, asked: bool)
      requires uid in cache && cache[uid] != "" ==> |cache[uid]| >= LAST_MODIFIED_BYTES
      modifies this
      ensures asked == !IsHit(old(cache), uid)
      ensures resp == if asked then inner else Hit(old(cache)[uid], headers)
      ensures cache == if asked then Filled(old(cache), uid, inner) else old(cache)
    {
      if uid in cache && |cache[uid]| > 0 {
        return Hit(cache[uid], headers), false;
      }
      if inner.status == 200 {
        var data := PackEntry(if inner.lastModified.Some? then inner.lastModified.value else "", inner.body);
        cache := cache[uid := data[..]];
      }
      return inner, true;
    }

    /** POST, PUT and DELETE empty the user's entry before the request is served. */
    method Clear(uid: string)
      modifies this
      ensures cache == old(cache)[uid := ""]
    {
      cache := cache[uid := ""];
    }
  }

  predicate IsHit(cache: map<string, string>, uid: string) {
    uid in cache && cache[uid] != ""
  }

  /** The cache after a miss: only a 200 is kept. */
  function Filled(cache: map<string, string>, uid: string, resp: Text): map<string, string> {
    if resp.status == 200
    then cache[uid := Packed(if resp.lastModified.Some? then resp.lastModified.value else "", resp.body)]
    else cache
  }

  // ------------------------------------------------------------------- all users

  /** Every user's server, and the one cache in front of them. */
  datatype World = World(users: map<string, Server>, cache: map<string, string>)

  datatype Event =
    | Info(uid: string, headers: Headers, tm: Times, order: seq<string>)
    | Pass(uid: string, r: Request, tm: Times)
    | Configuration(body: string)
    | Drop(key: string)
    | Inside(uid: string, step: Step)

  predicate IsUid(uid: string) {
    uid != "" && Decimal.AllDigits(uid)
  }

  /** Requests of one user do not overlap; the cache may drop anything at any time. */
  ghost predicate MayHappen(w: World, e: Event) {
    match e
    case Info(uid, headers, tm, order) =>
      && uid in w.users
      && (!IsHit(w.cache, uid) ==>
            Enabled(w.users[uid], Serve(InfoCollections(headers), tm)) && IsOrder(order, CollectionStamps(w.users[uid].store)))
    case Pass(uid, r, tm) => uid in w.users && !r.InfoCollections? && Enabled(w.users[uid], Serve(r, tm))
    case Inside(uid, step) => uid in w.users && !step.Serve? && Enabled(w.users[uid], step)
    case Configuration(_) => true
    case Drop(_) => true
  }

  function Advance(w: World, cfg: Config, uid: string, step: Step): World
    requires uid in w.users
  {
    w.(users := w.users[uid := Next(w.users[uid], cfg, step)])
  }

  ghost function Happens(w: World, cfg: Config, e: Event): World
    requires MayHappen(w, e)
  {
    match e
    case Info(uid, headers, tm, order) =>
      if IsHit(w.cache, uid) then w
      else
        Advance(w.(cache := Filled(w.cache, uid, Uncached(w.users[uid], headers, order))), cfg, uid, Serve(InfoCollections(headers), tm))
    case Pass(uid, r, tm) =>
      Advance(if IsWrite(r) then w.(cache := w.cache[uid := ""]) else w, cfg, uid, Serve(r, tm))
    case Configuration(body) => w.(cache := w.cache["config" := body])
    case Drop(key) => w.(cache := w.cache - {key})
    case Inside(uid, step) => Advance(w, cfg, uid, step)
  }

  /** The entry is what this user's handler would answer now, in some order of the map. */
  ghost predicate EntryOk(st: Store, entry: string) {
    exists order :: IsOrder(order, CollectionStamps(st)) && entry == EntryFor(st, order)
  }

  ghost predicate UserOk(w: World, uid: string)
    requires uid in w.users
  {
    && IsUid(uid) && Inv(w.users[uid])
    && (IsHit(w.cache, uid) ==> EntryOk(w.users[uid].store, w.cache[uid]))
  }

  ghost predicate Coherent(w: World) {
    forall uid :: uid in w.users ==> UserOk(w, uid)
  }

  /** Two stores with the same stamps have the same entries. */
  lemma SameEntries(st: Store, st': Store, entry: string)
    requires EntryOk(st, entry) && st'.storage == st.storage && CollectionStamps(st') == CollectionStamps(st)
    ensures EntryOk(st', entry)
  {
    var order :| IsOrder(order, CollectionStamps(st)) && entry == EntryFor(st, order);
    assert EntryFor(st', order) == EntryFor(st, order);
  }

  /** Only a write changes a stamp. */
  lemma OnlyWritesStamp(sv: Server, cfg: Config, step: Step)
    requires step.Serve? ==> !IsWrite(step.r)
    ensures Next(sv, cfg, step).store.storage == sv.store.storage
    ensures CollectionStamps(Next(sv, cfg, step).store) == CollectionStamps(sv.store)
  {
    match step
    case Serve(r, tm) => ReadsDoNothing(sv.store, cfg, r, tm, AnyOrder);
    case Tidy(purge, batchPurge) =>
      var e, f := PurgeExpired(Now(purge)), BatchPurge(Now(batchPurge), cfg.maxBatchTTL);
      ApplyTwo(sv.store, e, f);
      assert Apply(Apply(sv.store, e), f).collections == sv.store.collections;
    case _ =>
  }

  /** What a miss puts in the cache is the entry for the user's own store. */
  lemma FilledEntry(sv: Server, headers: Headers, order: seq<string>)
    ensures var resp := Uncached(sv, headers, order);
            resp.status == 200 ==> resp == Text(200, Some(StampText(sv.store.storage)), InfoText(order, CollectionStamps(sv.store)))
  {
    if !sv.stopped { MissOf(sv.store, headers, order); }
  }

  lemma InfoKeeps(w: World, cfg: Config, e: Event)
    requires e.Info? && MayHappen(w, e) && UserOk(w, e.uid) && !IsHit(w.cache, e.uid)
    ensures UserOk(Happens(w, cfg, e), e.uid)
  {
    var sv, step := w.users[e.uid], Serve(InfoCollections(e.headers), e.tm);
    StepKeeps(sv, cfg, step);
    OnlyWritesStamp(sv, cfg, step);
    FilledEntry(sv, e.headers, e.order);
    var w' := Happens(w, cfg, e);
    if IsHit(w'.cache, e.uid) {
      assert w'.cache[e.uid] == EntryFor(sv.store, e.order);
      SameEntries(sv.store, w'.users[e.uid].store, w'.cache[e.uid]);
    }
  }

  lemma StepOk(w: World, cfg: Config, uid: string, step: Step, cache: map<string, string>)
    requires uid in w.users && UserOk(w, uid) && Enabled(w.users[uid], step)
    requires (cache == w.cache && (step.Serve? ==> !IsWrite(step.r))) || !IsHit(cache, uid)
    ensures UserOk(Advance(w.(cache := cache), cfg, uid, step), uid)
  {
    var sv := w.users[uid];
    StepKeeps(sv, cfg, step);
    if IsHit(cache, uid) {
      OnlyWritesStamp(sv, cfg, step);
      SameEntries(sv.store, Next(sv, cfg, step).store, cache[uid]);
    }
  }

  /** The entry shared by all users is under a name no user has. */
  lemma ConfigIsNoUid(uid: string)
    requires IsUid(uid)
    ensures uid != "config"
  {
    assert Decimal.IsDigit(uid[0]);
  }

  lemma EventKeepsUser(w: World, cfg: Config, e: Event, uid: string)
    requires Coherent(w) && MayHappen(w, e) && uid in w.users
    ensures UserOk(Happens(w, cfg, e), uid)
  {
    assert UserOk(w, uid);
    ConfigIsNoUid(uid);
    match e
    case Info(u, _, _, _) => if u == uid && !IsHit(w.cache, uid) { InfoKeeps(w, cfg, e); }
    case Pass(u, r, tm) =>
      if u == uid { StepOk(w, cfg, uid, Serve(r, tm), if IsWrite(r) then w.cache[uid := ""] else w.cache); }
    case Inside(u, step) => if u == uid { StepOk(w, cfg, uid, step, w.cache); }
    case Configuration(_) =>
    case Drop(_) =>
  }

  ghost predicate Unfolds(w: World, cfg: Config, events: seq<Event>, w': World)
    decreases |events|
  {
    if events == [] then w == w'
    else MayHappen(w, events[0]) && Unfolds(Happens(w, cfg, events[0]), cfg, events[1..], w')
  }

  lemma HappensKeepsUsers(w: World, cfg: Config, e: Event)
    requires MayHappen(w, e)
    ensures Happens(w, cfg, e).users.Keys == w.users.Keys
  {}

  /** Whatever the users do, every entry stays what that user's handler would answer. */
  lemma {:induction false} CoherentAlways(w: World, cfg: Config, events: seq<Event>, w': World)
    requires Coherent(w) && Unfolds(w, cfg, events, w')
    ensures Coherent(w')
    decreases |events|
  {
    if events != [] {
      HappensKeepsUsers(w, cfg, events[0]);
      forall uid | uid in w.users ensures UserOk(Happens(w, cfg, events[0]), uid) { EventKeepsUser(w, cfg, events[0], uid); }
      CoherentAlways(Happens(w, cfg, events[0]), cfg, events[1..], w');
    }
  }

  predicate CacheableUser(sv: Server) {
    sv.store.storage >= 0 && Cacheable(sv.store.storage)
  }

  /** The entry is answered as this store is: header, body and decision, for some order of its map. */
  ghost predicate CurrentHit(st: Store, entry: string, headers: Headers) {
    |entry| >= LAST_MODIFIED_BYTES && exists order {:trigger EntryFor(st, order)} ::
      IsOrder(order, CollectionStamps(st)) && Hit(entry, headers) == AsText(GetInfo(st, headers), order)
  }

  /**
    In every run of any number of users, a cache hit for a user with a cacheable stamp is,
    header, body and 304 or 412 decision, the answer of that user's own open handler at
    that moment, for some order of its map.
   */
  lemma HitsAreCurrent(w: World, cfg: Config, events: seq<Event>, w': World, uid: string, headers: Headers)
    requires Coherent(w) && Unfolds(w, cfg, events, w')
    requires uid in w'.users && IsHit(w'.cache, uid) && CacheableUser(w'.users[uid])
    ensures CurrentHit(w'.users[uid].store, w'.cache[uid], headers)
  {
    CoherentAlways(w, cfg, events, w');
    assert UserOk(w', uid);
    EntryIsCurrent(w'.users[uid].store, w'.cache[uid], headers);
  }

  lemma EntryIsCurrent(st: Store, entry: string, headers: Headers)
    requires EntryOk(st, entry) && st.storage >= 0 && Cacheable(st.storage)
    ensures CurrentHit(st, entry, headers)
  {
    var order :| IsOrder(order, CollectionStamps(st)) && entry == EntryFor(st, order);
    CacheableHits(st, headers, order);
    assert EntryFor(st, order) == entry;
  }

  /** New databases for these users, and an empty cache. */
  function NewWorld(stores: map<string, Store>, clock: nat): World {
    World(map uid | uid in stores :: Server(stores[uid], None, false, clock), map[])
  }

  lemma NewWorldCoherent(stores: map<string, Store>, clock: nat)
    requires forall uid :: uid in stores ==> IsUid(uid) && Fresh(stores[uid])
    ensures Coherent(NewWorld(stores, clock))
  {}

  /** From new databases and an empty cache, in every run, every hit with a cacheable stamp is current. */
  lemma HitsFromNewWorld(stores: map<string, Store>, clock: nat, cfg: Config, events: seq<Event>, w': World, uid: string, headers: Headers)
    requires forall u :: u in stores ==> IsUid(u) && Fresh(stores[u])
    requires Unfolds(NewWorld(stores, clock), cfg, events, w')
    requires uid in w'.users && IsHit(w'.cache, uid) && CacheableUser(w'.users[uid])
    ensures CurrentHit(w'.users[uid].store, w'.cache[uid], headers)
  {
    NewWorldCoherent(stores, clock);
    HitsAreCurrent(NewWorld(stores, clock), cfg, events, w', uid, headers);
  }
}
