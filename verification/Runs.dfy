/**
  Whole runs of one user's server: requests, purges, stops and reopenings in any
  order, with a clock that never goes back. Every stamp of a request is newer than
  every stamp before it, and data never outruns its stamps.
 */
module Runs {
  import opened Prelude
  import opened Timestamps
  import opened Tables
  import opened Sql
  import opened Requests
  import opened UserHandler

  /** The tables on disk, the handler that has them open, and the time of the last event. */
  datatype Server = Server(store: Store, lastChange: Option<nat>, stopped: bool, clock: nat)

  datatype Step =
    | Serve(r: Request, tm: Times)
    | Tidy(purge: nat, batchPurge: nat)
    | Stop(at: nat)
    | Reopen(at: nat)

  /** The order of rows matters to responses only. */
  function AnyOrder(rows: set<Row>, sort: SortType): seq<Row> {
    []
  }

  function StepEffects(sv: Server, cfg: Config, step: Step): seq<Effect> {
    match step
    case Serve(r, tm) => if sv.stopped then [] else PlanRequest(sv.store, cfg, r, tm, AnyOrder).effects
    case Tidy(purge, batchPurge) => [PurgeExpired(Now(purge)), BatchPurge(Now(batchPurge), cfg.maxBatchTTL)]
    case _ => []
  }

  /** What the server answers; `arrange` is how the database orders rows. */
  function Answer(sv: Server, cfg: Config, r: Request, tm: Times, arrange: Arrange): Response {
    if sv.stopped then Status(503) else PlanRequest(sv.store, cfg, r, tm, arrange).resp
  }

  /** A new handler opens the file only after the old one has stopped. */
  predicate Enabled(sv: Server, step: Step) {
    match step
    case Serve(r, tm) => WellFormed(r) && sv.clock <= tm.arrive && if sv.stopped then Ordered(tm) else Timely(sv.lastChange, r, tm)
    case Tidy(purge, batchPurge) => sv.clock <= purge <= batchPurge
    case Stop(at) => sv.clock <= at
    case Reopen(at) => sv.clock <= at && sv.stopped
  }

  function Next(sv: Server, cfg: Config, step: Step): Server {
    var store := ApplyAll(sv.store, StepEffects(sv, cfg, step));
    match step
    case Serve(r, tm) =>
      Server(store, if IsWrite(r) && !sv.stopped then Some(tm.done) else sv.lastChange, sv.stopped, tm.done)
    case Tidy(_, batchPurge) => sv.(store := store, clock := batchPurge)
    case Stop(at) => sv.(stopped := true, clock := at)
    case Reopen(at) => sv.(stopped := false, lastChange := None, clock := at)
  }

  function Run(sv: Server, cfg: Config, steps: seq<Step>): Server
    decreases |steps|
  {
    if steps == [] then sv else Run(Next(sv, cfg, steps[0]), cfg, steps[1..])
  }

  ghost predicate ValidRun(sv: Server, cfg: Config, steps: seq<Step>)
    decreases |steps|
  {
    steps == [] || (Enabled(sv, steps[0]) && ValidRun(Next(sv, cfg, steps[0]), cfg, steps[1..]))
  }

  /** All table operations of a run, in order. */
  function Log(sv: Server, cfg: Config, steps: seq<Step>): seq<Effect>
    decreases |steps|
  {
    if steps == [] then [] else StepEffects(sv, cfg, steps[0]) + Log(Next(sv, cfg, steps[0]), cfg, steps[1..])
  }

  // ---------------------------------------------------------- well-timed plans

  /** Operations whose stamps lie between lo and hi and never decrease. */
  ghost predicate Chain(st: Store, es: seq<Effect>, lo: int, hi: int)
    decreases |es|
  {
    es != [] ==>
      && Allowed(st, es[0])
      && (Stamps(es[0]) ==> lo <= es[0].now <= hi && es[0].now % 10 == 0)
      && Chain(Apply(st, es[0]), es[1..], if Stamps(es[0]) then es[0].now else lo, hi)
  }

  lemma ChainOne(st: Store, e: Effect, lo: int, hi: int)
    requires Allowed(st, e) && (Stamps(e) ==> lo <= e.now <= hi && e.now % 10 == 0)
    ensures Chain(st, [e], lo, hi)
  {
    assert [e][1..] == [];
  }

  lemma ChainCons(st: Store, e: Effect, es: seq<Effect>, lo: int, hi: int)
    requires Allowed(st, e) && (Stamps(e) ==> lo <= e.now <= hi && e.now % 10 == 0)
    requires Chain(Apply(st, e), es, if Stamps(e) then e.now else lo, hi)
    ensures Chain(st, [e] + es, lo, hi)
  {
    assert ([e] + es)[1..] == es;
  }

  lemma {:induction false} ChainKeeps(st: Store, es: seq<Effect>, lo: int, hi: int)
    requires Consistent(st) && StampedBy(st, lo) && 0 < lo <= hi && Chain(st, es, lo, hi)
    ensures Consistent(ApplyAll(st, es)) && StampedBy(ApplyAll(st, es), hi)
    ensures forall i :: 0 <= i < |es| && Stamps(es[i]) ==> lo <= es[i].now <= hi && es[i].now % 10 == 0
    decreases |es|
  {
    if es != [] {
      ApplyKeeps(st, es[0], lo);
      ApplyCons(st, es[0], es[1..]);
      assert es == [es[0]] + es[1..];
      ChainKeeps(Apply(st, es[0]), es[1..], if Stamps(es[0]) then es[0].now else lo, hi);
    }
  }

  lemma CommitChain(st: Store, cfg: Config, cid: int, id: int, sent: seq<PutInput>, failed: set<string>, missing: int, now: int, lo: int)
    requires cid in st.collections && lo <= now && now % 10 == 0
    ensures Chain(st, PlanCommit(st, cfg, cid, id, sent, failed, missing, now).effects, lo, now)
  {
    var plan := PlanCommit(st, cfg, cid, id, sent, failed, missing, now);
    if |plan.effects| == 1 {
      ChainOne(st, BatchRemove(id), lo, now);
    } else if |plan.effects| == 2 {
      var post := plan.effects[0];
      ChainOne(Apply(st, post), BatchRemove(id), now, now);
      ChainCons(st, post, [BatchRemove(id)], lo, now);
      assert plan.effects == [post] + [BatchRemove(id)];
    }
  }

  lemma FinishChain(st: Store, cfg: Config, cid: int, id: int, commit: bool, sent: seq<PutInput>, failed: set<string>, found: bool, now: int, lo: int)
    requires cid in st.collections && lo <= now && now % 10 == 0
    ensures Chain(st, PlanFinish(st, cfg, cid, id, commit, sent, failed, found, now).effects, lo, now)
  {
    CommitChain(st, cfg, cid, id, sent, failed, if found then 500 else 400, now, lo);
  }

  lemma BatchChain(st: Store, cfg: Config, cid: int, batch: string, commit: bool, inputs: seq<PutInput>, tm: Times, lo: int)
    requires cid in st.collections && lo <= Now(tm.write)
    ensures Chain(st, PlanBatch(st, cfg, cid, batch, commit, inputs, tm).effects, lo, Now(tm.write))
  {
    var now := Now(tm.write);
    var filtered, failed := BatchLines.Filtered(inputs), BatchLines.Failures(inputs).Keys;
    var data := BatchLines.EncodeAll(filtered);
    if batch == "true" {
      var first := BatchCreate(cid, data, Now(tm.middle));
      var rest := PlanFinish(Apply(st, first), cfg, cid, st.nextBatch, commit, filtered, failed, true, now);
      FinishChain(Apply(st, first), cfg, cid, st.nextBatch, commit, filtered, failed, true, now, lo);
      ChainCons(st, first, rest.effects, lo, now);
    } else if BatchIdInt(batch).Some? {
      var id := BatchIdInt(batch).value;
      var first := BatchAppend(id, cid, data, Now(tm.middle));
      var rest := PlanFinish(Apply(st, first), cfg, cid, id, commit, filtered, failed, true, now);
      FinishChain(st, cfg, cid, id, commit, filtered, failed, BatchIn(st, id, cid), now, lo);
      FinishChain(Apply(st, first), cfg, cid, id, commit, filtered, failed, true, now, lo);
      ChainCons(st, first, rest.effects, lo, now);
    }
  }

  lemma PostChain(st: Store, cfg: Config, cid: int, r: Request, tm: Times, lo: int)
    requires r.CollectionPost? && cid in st.collections && lo <= Now(tm.write)
    ensures Chain(st, PlanPostTo(st, cfg, cid, r, tm).effects, lo, Now(tm.write))
  {
    var plan := PlanPostTo(st, cfg, cid, r, tm);
    if r.batch.Some? && r.batch.value != "" {
      var decoded := if r.body.Some? then Records.DecodeBody(r.body.value, cfg.maxRecordPayloadBytes) else None;
      if decoded.Some? { BatchChain(st, cfg, cid, r.batch.value, r.commit, decoded.value.inputs, tm, lo); }
    } else if plan.effects != [] {
      ChainOne(st, plan.effects[0], lo, Now(tm.write));
    }
  }

  lemma PutChain(st: Store, cfg: Config, cid: int, r: Request, tm: Times, lo: int)
    requires r.BsoPut? && cid in st.collections && lo <= Now(tm.write)
    ensures Chain(st, PlanPutTo(st, cfg, cid, r, tm).effects, lo, Now(tm.write))
  {
    var plan := PlanPutTo(st, cfg, cid, r, tm);
    if plan.effects != [] { ChainOne(st, plan.effects[0], lo, Now(tm.write)); }
  }

  /** The plan after the collection has been made, if it had to be. */
  lemma AutomakeChain(st: Store, coll: string, es: seq<Effect>, tm: Times)
    requires Consistent(st) && Ordered(tm)
    requires var st1 := ApplyAll(st, Automake(st, coll, tm));
             Chain(st1, es, Now(tm.create), Now(tm.write))
    ensures Chain(st, Automake(st, coll, tm) + es, Now(tm.create), Now(tm.write))
  {
    NowMonotone(tm.create, tm.write);
    if coll in st.names {
      assert [] + es == es;
    } else {
      var e := CreateCollection(coll, Now(tm.create));
      ApplyOne(st, e);
      ChainCons(st, e, es, Now(tm.create), Now(tm.write));
    }
  }

  lemma AutomakeRow(st: Store, coll: string, tm: Times)
    requires Consistent(st)
    ensures var st1 := ApplyAll(st, Automake(st, coll, tm));
            coll in st1.names && st1.names[coll] in st1.collections && CidOf(st1, coll) in st1.collections
  {
    if coll !in st.names { ApplyOne(st, CreateCollection(coll, Now(tm.create))); }
  }

  lemma PlanChain(st: Store, cfg: Config, r: Request, tm: Times, arrange: Arrange)
    requires Consistent(st) && Ordered(tm)
    ensures Chain(st, PlanRequest(st, cfg, r, tm, arrange).effects, Now(tm.create), Now(tm.write))
  {
    NowMonotone(tm.create, tm.write);
    var plan := PlanRequest(st, cfg, r, tm, arrange);
    match r
    case CollectionPost(coll, _, _, _, _) =>
      AutomakeRow(st, coll, tm);
      var st1 := ApplyAll(st, Automake(st, coll, tm));
      PostChain(st1, cfg, CidOf(st1, coll), r, tm, Now(tm.create));
      AutomakeChain(st, coll, PlanPostTo(st1, cfg, CidOf(st1, coll), r, tm).effects, tm);
    case BsoPut(coll, _, _, _) =>
      AutomakeRow(st, coll, tm);
      var st1 := ApplyAll(st, Automake(st, coll, tm));
      PutChain(st1, cfg, CidOf(st1, coll), r, tm, Now(tm.create));
      AutomakeChain(st, coll, PlanPutTo(st1, cfg, CidOf(st1, coll), r, tm).effects, tm);
    case CollectionDelete(_, _, _) => if plan.effects != [] { ChainOne(st, plan.effects[0], Now(tm.create), Now(tm.write)); }
    case BsoDelete(_, _, _) => if plan.effects != [] { ChainOne(st, plan.effects[0], Now(tm.create), Now(tm.write)); }
    case DeleteAll => ChainOne(st, DeleteEverything, Now(tm.create), Now(tm.write));
    case _ =>
  }

  // ------------------------------------------------------------ the invariant

  /** No stamp in the store is later than this. */
  function StampLimit(sv: Server): nat {
    if sv.lastChange.Some? then Now(sv.lastChange.value) else Now(sv.clock)
  }

  ghost predicate Inv(sv: Server) {
    && Consistent(sv.store)
    && StampedBy(sv.store, StampLimit(sv))
    && (sv.lastChange.Some? ==> sv.lastChange.value <= sv.clock)
  }

  /** The write delay puts every stamp of a request beyond the limit. */
  lemma DelayExceedsLimit(sv: Server, r: Request, tm: Times)
    requires Inv(sv) && IsWrite(r) && sv.clock <= tm.arrive && Timely(sv.lastChange, r, tm)
    ensures StampLimit(sv) + 10 <= Now(tm.create) <= Now(tm.write) <= Now(tm.done)
    ensures tm.wake >= if sv.lastChange.Some? then sv.lastChange.value + 11_000_000 else tm.arrive + 10_000_000
  {
    var base := if sv.lastChange.Some? then sv.lastChange.value else sv.clock;
    NowSeparates(base, tm.create);
    NowMonotone(tm.create, tm.write);
    NowMonotone(tm.write, tm.done);
  }

  lemma ReadsDoNothing(st: Store, cfg: Config, r: Request, tm: Times, arrange: Arrange)
    requires !IsWrite(r)
    ensures PlanRequest(st, cfg, r, tm, arrange).effects == []
  {}

  lemma WriteKeeps(sv: Server, cfg: Config, r: Request, tm: Times)
    requires Inv(sv) && !sv.stopped && IsWrite(r) && sv.clock <= tm.arrive && Timely(sv.lastChange, r, tm)
    ensures var es := PlanRequest(sv.store, cfg, r, tm, AnyOrder).effects;
            && Consistent(ApplyAll(sv.store, es)) && StampedBy(ApplyAll(sv.store, es), Now(tm.done)) && StampLimit(sv) <= Now(tm.done)
            && forall i :: 0 <= i < |es| && Stamps(es[i]) ==> StampLimit(sv) < es[i].now <= Now(tm.done) && es[i].now % 10 == 0
  {
    DelayExceedsLimit(sv, r, tm);
    PlanChain(sv.store, cfg, r, tm, AnyOrder);
    ChainKeeps(sv.store, PlanRequest(sv.store, cfg, r, tm, AnyOrder).effects, Now(tm.create), Now(tm.write));
  }

  lemma PurgesKeep(st: Store, e: Effect, f: Effect, bound: int)
    requires Consistent(st) && StampedBy(st, bound) && e.PurgeExpired? && f.BatchPurge?
    ensures Consistent(ApplyAll(st, [e, f])) && StampedBy(ApplyAll(st, [e, f]), bound)
  {
    ApplyTwo(st, e, f);
    ApplyKeeps(st, e, bound);
    ApplyKeeps(Apply(st, e), f, bound);
  }

  lemma StepKeeps(sv: Server, cfg: Config, step: Step)
    requires Inv(sv) && Enabled(sv, step)
    ensures Inv(Next(sv, cfg, step)) && StampLimit(sv) <= StampLimit(Next(sv, cfg, step))
    ensures forall e :: e in StepEffects(sv, cfg, step) && Stamps(e) ==>
              StampLimit(sv) < e.now <= StampLimit(Next(sv, cfg, step)) && e.now % 10 == 0
  {
    match step
    case Serve(r, tm) =>
      NowMonotone(sv.clock, tm.done);
      if IsWrite(r) && !sv.stopped {
        WriteKeeps(sv, cfg, r, tm);
      } else if !sv.stopped {
        ReadsDoNothing(sv.store, cfg, r, tm, AnyOrder);
      }
    case Tidy(purge, batchPurge) =>
      NowMonotone(sv.clock, batchPurge);
      PurgesKeep(sv.store, PurgeExpired(Now(purge)), BatchPurge(Now(batchPurge), cfg.maxBatchTTL), StampLimit(sv));
    case Stop(at) => NowMonotone(sv.clock, at);
    case Reopen(at) =>
      NowMonotone(sv.clock, at);
      if sv.lastChange.Some? { NowMonotone(sv.lastChange.value, at); }
  }

  /** In every run the invariant holds, and every stamp is beyond all stamps from before the run. */
  lemma {:induction false} RunKeeps(sv: Server, cfg: Config, steps: seq<Step>)
    requires Inv(sv) && ValidRun(sv, cfg, steps)
    ensures Inv(Run(sv, cfg, steps)) && StampLimit(sv) <= StampLimit(Run(sv, cfg, steps))
    ensures forall e :: e in Log(sv, cfg, steps) && Stamps(e) ==>
              StampLimit(sv) < e.now <= StampLimit(Run(sv, cfg, steps)) && e.now % 10 == 0
    decreases |steps|
  {
    if steps != [] {
      StepKeeps(sv, cfg, steps[0]);
      RunKeeps(Next(sv, cfg, steps[0]), cfg, steps[1..]);
    }
  }

  lemma {:induction false} RunAppliesLog(sv: Server, cfg: Config, steps: seq<Step>)
    ensures Run(sv, cfg, steps).store == ApplyAll(sv.store, Log(sv, cfg, steps))
    decreases |steps|
  {
    if steps != [] {
      var sv' := Next(sv, cfg, steps[0]);
      RunAppliesLog(sv', cfg, steps[1..]);
      ApplyAllConcat(sv.store, StepEffects(sv, cfg, steps[0]), Log(sv', cfg, steps[1..]));
    }
  }

  lemma {:induction false} RunSplit(sv: Server, cfg: Config, a: seq<Step>, b: seq<Step>)
    ensures Run(sv, cfg, a + b) == Run(Run(sv, cfg, a), cfg, b)
    ensures ValidRun(sv, cfg, a + b) <==> ValidRun(sv, cfg, a) && ValidRun(Run(sv, cfg, a), cfg, b)
    decreases |a|
  {
    if a == [] {
      assert a + b == b;
    } else {
      assert (a + b)[1..] == a[1..] + b;
      RunSplit(Next(sv, cfg, a[0]), cfg, a[1..], b);
    }
  }

  // ------------------------------------------------------------- example times

  const HALF_SECOND: nat := 500 * MS

  /** A request served in half a second from when the server is free. */
  function TimesFrom(clock: nat): Times {
    var t := clock + HALF_SECOND;
    Times(clock, t, t, t, t, t)
  }

  /** That is long enough for any request. */
  lemma TimesEnabled(sv: Server, r: Request)
    requires Inv(sv) && WellFormed(r)
    ensures Enabled(sv, Serve(r, TimesFrom(sv.clock)))
  {}

  // ---------------------------------------------------------- main results

  /** From a new database, whatever happens, data never outruns its stamps. */
  lemma ReachableInv(st: Store, clock: nat, cfg: Config, steps: seq<Step>)
    requires Fresh(st)
    requires ValidRun(Server(st, None, false, clock), cfg, steps)
    ensures Inv(Run(Server(st, None, false, clock), cfg, steps))
  {
    RunKeeps(Server(st, None, false, clock), cfg, steps);
  }

  /**
    Any two requests of a run stamp their changes with strictly increasing multiples
    of ten, on the same handler or across a stop and a reopening.
   */
  lemma StampsIncrease(sv: Server, cfg: Config, steps: seq<Step>, i: nat, j: nat, e: Effect, f: Effect)
    requires Inv(sv) && ValidRun(sv, cfg, steps) && i < j < |steps|
    requires e in StepEffects(Run(sv, cfg, steps[..i]), cfg, steps[i]) && Stamps(e)
    requires f in StepEffects(Run(sv, cfg, steps[..j]), cfg, steps[j]) && Stamps(f)
    ensures e.now < f.now && e.now % 10 == 0 && f.now % 10 == 0
  {
    StateAt(sv, cfg, steps, i);
    StateAt(sv, cfg, steps, j);
    StepKeeps(Run(sv, cfg, steps[..i]), cfg, steps[i]);
    StepKeeps(Run(sv, cfg, steps[..j]), cfg, steps[j]);
    LimitsGrow(sv, cfg, steps, i + 1, j);
  }

  /** The state before step i of a valid run. */
  lemma StateAt(sv: Server, cfg: Config, steps: seq<Step>, i: nat)
    requires Inv(sv) && ValidRun(sv, cfg, steps) && i < |steps|
    ensures Inv(Run(sv, cfg, steps[..i])) && Enabled(Run(sv, cfg, steps[..i]), steps[i])
    ensures Run(sv, cfg, steps[..i + 1]) == Next(Run(sv, cfg, steps[..i]), cfg, steps[i])
    ensures ValidRun(sv, cfg, steps[..i])
  {
    SplitAt(steps, i);
    RunSplit(sv, cfg, steps[..i], [steps[i]] + steps[i + 1..]);
    FirstStep(Run(sv, cfg, steps[..i]), cfg, steps[i], steps[i + 1..]);
    RunKeeps(sv, cfg, steps[..i]);
    OneStepMore(sv, cfg, steps[..i], steps[i]);
  }

  lemma OneStepMore(sv: Server, cfg: Config, steps: seq<Step>, step: Step)
    requires ValidRun(sv, cfg, steps) && Enabled(Run(sv, cfg, steps), step)
    ensures ValidRun(sv, cfg, steps + [step]) && Run(sv, cfg, steps + [step]) == Next(Run(sv, cfg, steps), cfg, step)
  {
    RunSplit(sv, cfg, steps, [step]);
    FirstStep(Run(sv, cfg, steps), cfg, step, []);
    assert [step] + [] == [step];
  }

  lemma {:induction false} LimitsGrow(sv: Server, cfg: Config, steps: seq<Step>, i: nat, j: nat)
    requires Inv(sv) && ValidRun(sv, cfg, steps) && i <= j <= |steps|
    ensures StampLimit(Run(sv, cfg, steps[..i])) <= StampLimit(Run(sv, cfg, steps[..j]))
    decreases j
  {
    if i < j {
      LimitsGrow(sv, cfg, steps, i, j - 1);
      StateAt(sv, cfg, steps, j - 1);
      StepKeeps(Run(sv, cfg, steps[..j - 1]), cfg, steps[j - 1]);
    }
  }

  lemma FirstStep(sv: Server, cfg: Config, step: Step, rest: seq<Step>)
    ensures Run(sv, cfg, [step] + rest) == Run(Next(sv, cfg, step), cfg, rest)
    ensures ValidRun(sv, cfg, [step] + rest) <==> Enabled(sv, step) && ValidRun(Next(sv, cfg, step), cfg, rest)
  {
    assert ([step] + rest)[1..] == rest;
  }
}
