/**
  The pool under concurrent callers. A step is what one thread does while it holds the
  pool's lock, or one read or one stop outside it: looking up an element may release
  the lock, clean, and take it again, and other threads run in between.
 */
module PoolSteps {
  import opened Prelude
  import opened Pools

  datatype Job = GetJob(uid: string) | StopJob

  /** Where a cleaning thread is in its round. */
  datatype Cursor = AtBack | At(node: Node) | StoppedAt(node: Node) | Leaving(node: Node, next: Option<Node>)

  /** Where a thread is. `Panicked` is a move of a list node that does not exist. */
  datatype Pc =
    | Start(uid: string)
    | Clean(job: Job, left: int, cursor: Cursor)
    | Create(uid: string)
    | Returned(uid: string, out: Outcome)
    | Swept
    | Panicked

  datatype System = System(pool: Pool, threads: map<nat, Pc>)

  datatype Action =
    | Call(t: nat, job: Job)
    | Enter(t: nat, dirOk: bool, dbOk: bool)
    | ReadBack(t: nat)
    | StopIt(t: nat)
    | ReadPrev(t: nat)
    | Remove(t: nat)
    | Relock(t: nat, dbOk: bool)
    | Leave(t: nat)

  predicate Can(s: System, a: Action) {
    if a.Call? then a.t !in s.threads else a.t in s.threads && PcCan(s.threads[a.t], a)
  }

  predicate PcCan(pc: Pc, a: Action) {
    match a
    case Enter(_, _, _) => pc.Start?
    case ReadBack(_) => pc.Clean? && pc.cursor.AtBack?
    case StopIt(_) => pc.Clean? && pc.cursor.At?
    case ReadPrev(_) => pc.Clean? && pc.cursor.StoppedAt?
    case Remove(_) => pc.Clean? && pc.cursor.Leaving?
    case Relock(_, _) => pc.Create?
    case Leave(_) => pc.Returned? || pc.Swept?
    case Call(_, _) => false
  }

  function Finish(job: Job): Pc {
    if job.GetJob? then Create(job.uid) else Swept
  }

  /** The locked end of getElement, which does not look again whether the user is there. */
  function CreateOutcome(p: Pool, uid: string, dbOk: bool): Outcome {
    if dbOk then Got(NewElement(p, uid), true) else Failed
  }

  function CreatePool(p: Pool, uid: string, dbOk: bool): Pool {
    if dbOk then Add(p, uid) else p
  }

  /** The locked start of getElement. */
  function EnterPc(p: Pool, maxPoolSize: int, uid: string, dirOk: bool, dbOk: bool): Pc {
    if uid in p.elements then
      if IsStopped(p, p.elements[uid].hid) then Returned(uid, ElementStopped)
      else if uid in p.lrumap then Returned(uid, Got(p.elements[uid], false))
      else Panicked
    else if !dirOk then Returned(uid, Failed)
    else if |p.lru| > maxPoolSize then Clean(GetJob(uid), CleanCount(maxPoolSize), AtBack)
    else Returned(uid, CreateOutcome(p, uid, dbOk))
  }

  function EnterPool(p: Pool, maxPoolSize: int, uid: string, dirOk: bool, dbOk: bool): Pool {
    if uid in p.elements then
      if IsStopped(p, p.elements[uid].hid) || uid !in p.lrumap then p else MoveToFront(p, p.lrumap[uid])
    else if !dirOk || |p.lru| > maxPoolSize then p
    else CreatePool(p, uid, dbOk)
  }

  function NextPool(s: System, maxPoolSize: int, a: Action): Pool
    requires Can(s, a)
  {
    var p := s.pool;
    match a
    case Enter(t, dirOk, dbOk) => EnterPool(p, maxPoolSize, s.threads[t].uid, dirOk, dbOk)
    case StopIt(t) => StopHandler(p, s.threads[t].cursor.node.elem.hid)
    case Remove(t) => RemoveNode(p, s.threads[t].cursor.node)
    case Relock(t, dbOk) => CreatePool(p, s.threads[t].uid, dbOk)
    case _ => p
  }

  function NextPc(s: System, maxPoolSize: int, a: Action): Pc
    requires Can(s, a)
  {
    var p := s.pool;
    match a
    case Call(_, job) => if job.GetJob? then Start(job.uid) else Clean(job, |p.lru|, AtBack)
    case Enter(t, dirOk, dbOk) => EnterPc(p, maxPoolSize, s.threads[t].uid, dirOk, dbOk)
    case ReadBack(t) =>
      var pc := s.threads[t];
      if p.lru == [] || pc.left <= 0 then Finish(pc.job) else Clean(pc.job, pc.left, At(p.lru[|p.lru| - 1]))
    case StopIt(t) => Clean(s.threads[t].job, s.threads[t].left, StoppedAt(s.threads[t].cursor.node))
    case ReadPrev(t) =>
      var node := s.threads[t].cursor.node;
      Clean(s.threads[t].job, s.threads[t].left, Leaving(node, Prev(p.lru, node)))
    case Remove(t) =>
      var pc := s.threads[t];
      if pc.cursor.next.None? || pc.left <= 1 then Finish(pc.job) else Clean(pc.job, pc.left - 1, At(pc.cursor.next.value))
    case Relock(t, dbOk) => Returned(s.threads[t].uid, CreateOutcome(p, s.threads[t].uid, dbOk))
    case Leave(_) => Swept
  }

  function Do(s: System, maxPoolSize: int, a: Action): System
    requires Can(s, a)
  {
    System(NextPool(s, maxPoolSize, a),
           if a.Leave? then s.threads - {a.t} else s.threads[a.t := NextPc(s, maxPoolSize, a)])
  }

  /** The actions lead from s to s'. */
  ghost predicate Path(s: System, maxPoolSize: int, actions: seq<Action>, s': System)
    decreases |actions|
  {
    if actions == [] then s == s'
    else Can(s, actions[0]) && Path(Do(s, maxPoolSize, actions[0]), maxPoolSize, actions[1..], s')
  }

  const INITIALLY := System(EMPTY_POOL, map[])

  // -------------------------------------------------- every interleaving at all

  /** No thread has panicked, and what was handed to a caller is that caller's. */
  ghost predicate Served(threads: map<nat, Pc>) {
    forall t :: t in threads ==> PcServed(threads[t])
  }

  predicate PcServed(pc: Pc) {
    !pc.Panicked? && (pc.Returned? && pc.out.Got? ==> pc.out.elem.uid == pc.uid)
  }

  lemma MoveKeepsMaps(p: Pool, node: Node)
    requires MapsAgree(p)
    ensures MapsAgree(MoveToFront(p, node))
  {
    var q := MoveToFront(p, node);
    forall u | u in q.elements ensures UserAgrees(q, u) {
      assert UserAgrees(p, u);
      if node in p.lru && p.lrumap[u] != node { WithoutKeeps(p.lru, node, p.lrumap[u]); }
    }
  }

  lemma AddKeepsMaps(p: Pool, uid: string)
    requires MapsAgree(p)
    ensures MapsAgree(Add(p, uid))
  {
    var q := Add(p, uid);
    forall u | u in q.elements ensures UserAgrees(q, u) { if u != uid { assert UserAgrees(p, u); } }
  }

  lemma StopKeepsMaps(p: Pool, hid: nat)
    requires MapsAgree(p)
    ensures MapsAgree(StopHandler(p, hid))
  {
    forall u | u in p.elements ensures UserAgrees(StopHandler(p, hid), u) { assert UserAgrees(p, u); }
  }

  lemma StepKeepsMaps(s: System, maxPoolSize: int, a: Action)
    requires Can(s, a) && MapsAgree(s.pool)
    ensures MapsAgree(NextPool(s, maxPoolSize, a))
  {
    var p := s.pool;
    match a
    case Enter(t, dirOk, dbOk) =>
      var uid := s.threads[t].uid;
      if uid in p.elements && uid in p.lrumap { MoveKeepsMaps(p, p.lrumap[uid]); }
      AddKeepsMaps(p, uid);
    case StopIt(t) => StopKeepsMaps(p, s.threads[t].cursor.node.elem.hid);
    case Remove(t) => RemoveKeepsMaps(p, s.threads[t].cursor.node);
    case Relock(t, dbOk) => AddKeepsMaps(p, s.threads[t].uid);
    case _ =>
  }

  lemma StepServes(s: System, maxPoolSize: int, a: Action)
    requires Can(s, a) && MapsAgree(s.pool)
    ensures PcServed(NextPc(s, maxPoolSize, a))
  {
    if a.Enter? && s.threads[a.t].uid in s.pool.elements { assert UserAgrees(s.pool, s.threads[a.t].uid); }
  }

  /**
    In every interleaving of any number of threads the maps and the list agree, no
    thread moves a node that is not there, and no caller is handed another user's element.
   */
  lemma {:induction false} MapsAgreeAlways(s: System, maxPoolSize: int, actions: seq<Action>, s': System)
    requires MapsAgree(s.pool) && Served(s.threads) && Path(s, maxPoolSize, actions, s')
    ensures MapsAgree(s'.pool) && Served(s'.threads)
    decreases |actions|
  {
    if actions != [] {
      StepKeepsMaps(s, maxPoolSize, actions[0]);
      StepServes(s, maxPoolSize, actions[0]);
      MapsAgreeAlways(Do(s, maxPoolSize, actions[0]), maxPoolSize, actions[1..], s');
    }
  }

  /** Whichever step hands out an element, it is open then and at the front of the list. */
  lemma HandedOutIsOpen(s: System, maxPoolSize: int, a: Action)
    requires Can(s, a) && MapsAgree(s.pool)
    ensures var pc, p := NextPc(s, maxPoolSize, a), NextPool(s, maxPoolSize, a);
            pc.Returned? && pc.out.Got? ==>
              !IsStopped(p, pc.out.elem.hid) && p.lru != [] && p.lru[0].elem == pc.out.elem && |p.lru| == |s.pool.lru| + if pc.out.created then 1 else 0
  {
    if a.Enter? && s.threads[a.t].uid in s.pool.elements {
      var uid := s.threads[a.t].uid;
      assert UserAgrees(s.pool, uid);
      assert Find(s.pool.lru, s.pool.lrumap[uid], 0) < |s.pool.lru|;
    }
  }

  // ------------------------------------------------------- orderly interleavings

  /** The user a thread is getting an element for. */
  function Wants(pc: Pc): Option<string> {
    match pc
    case Start(uid) => Some(uid)
    case Clean(GetJob(uid), _, _) => Some(uid)
    case Create(uid) => Some(uid)
    case _ => None
  }

  /** No two threads get the same user's element, and no two threads clean. */
  ghost predicate Orderly(threads: map<nat, Pc>) {
    forall t, o :: t in threads && o in threads && t != o ==> Apart(threads[t], threads[o])
  }

  predicate Apart(x: Pc, y: Pc) {
    (Wants(x).None? || Wants(x) != Wants(y)) && !(x.Clean? && y.Clean?)
  }

  /** The actions lead from s to s' through orderly states only. */
  ghost predicate OrderlyPath(s: System, maxPoolSize: int, actions: seq<Action>, s': System)
    decreases |actions|
  {
    && Orderly(s.threads)
    && if actions == [] then s == s'
       else Can(s, actions[0]) && OrderlyPath(Do(s, maxPoolSize, actions[0]), maxPoolSize, actions[1..], s')
  }

  /** A thread about to create finds its user absent; a cleaner's nodes are in the list. */
  predicate PcOk(p: Pool, pc: Pc) {
    && (pc.Clean? && pc.job.GetJob? ==> pc.job.uid !in p.elements)
    && (pc.Create? ==> pc.uid !in p.elements)
    && (pc.Clean? && !pc.cursor.AtBack? ==> pc.cursor.node in p.lru)
    && (pc.Clean? && (pc.cursor.StoppedAt? || pc.cursor.Leaving?) ==> IsStopped(p, pc.cursor.node.elem.hid))
    && (pc.Clean? && pc.cursor.Leaving? && pc.cursor.next.Some? ==> pc.cursor.next.value in p.lru && pc.cursor.next.value != pc.cursor.node)
  }

  ghost predicate PcsOk(p: Pool, threads: map<nat, Pc>) {
    forall t :: t in threads ==> PcOk(p, threads[t])
  }

  /** What other threads rely on: the list loses nothing, stops stay, and no user they want appears. */
  ghost predicate Gentle(p: Pool, q: Pool, added: Option<string>) {
    && (forall n :: n in p.lru ==> n in q.lru)
    && (forall h :: IsStopped(p, h) ==> IsStopped(q, h))
    && forall u :: u in q.elements && u !in p.elements ==> added == Some(u)
  }

  lemma GentleKeeps(p: Pool, q: Pool, added: Option<string>, pc: Pc)
    requires Gentle(p, q, added) && PcOk(p, pc) && (added.None? || Wants(pc) != added)
    ensures PcOk(q, pc)
  {}

  lemma MoveIsGentle(p: Pool, node: Node)
    requires node in p.lru
    ensures Gentle(p, MoveToFront(p, node), None)
  {
    forall n | n in p.lru ensures n in MoveToFront(p, node).lru {
      if n != node { WithoutKeeps(p.lru, node, n); }
    }
  }

  lemma AddIsGentle(p: Pool, uid: string)
    ensures Gentle(p, Add(p, uid), Some(uid))
  {
    var q := Add(p, uid);
    forall n | n in p.lru ensures n in q.lru { assert q.lru == [q.lru[0]] + p.lru; }
  }

  /** What the user of a creating step is. */
  function AddedBy(s: System, a: Action): Option<string>
    requires Can(s, a)
  {
    if a.Enter? || a.Relock? then Some(s.threads[a.t].uid) else None
  }

  lemma StepIsGentle(s: System, maxPoolSize: int, a: Action)
    requires Can(s, a) && !a.Remove? && MapsAgree(s.pool)
    ensures Gentle(s.pool, NextPool(s, maxPoolSize, a), AddedBy(s, a))
  {
    var p := s.pool;
    if a.Enter? || a.Relock? {
      var uid := s.threads[a.t].uid;
      AddIsGentle(p, uid);
      if uid in p.elements {
        assert UserAgrees(p, uid);
        MoveIsGentle(p, p.lrumap[uid]);
      }
    }
  }

  lemma OthersOk(s: System, maxPoolSize: int, a: Action, o: nat)
    requires Can(s, a) && MapsAgree(s.pool) && o in s.threads && o != a.t && PcOk(s.pool, s.threads[o])
    requires a.t in s.threads ==> Apart(s.threads[a.t], s.threads[o])
    ensures PcOk(NextPool(s, maxPoolSize, a), s.threads[o])
  {
    if a.Remove? {
      assert !s.threads[o].Clean?;
    } else {
      StepIsGentle(s, maxPoolSize, a);
      GentleKeeps(s.pool, NextPool(s, maxPoolSize, a), AddedBy(s, a), s.threads[o]);
    }
  }

  lemma EnterTight(p: Pool, maxPoolSize: int, uid: string, dirOk: bool, dbOk: bool)
    requires Tight(p)
    ensures Tight(EnterPool(p, maxPoolSize, uid, dirOk, dbOk))
  {
    if uid in p.elements { MoveKeepsTight(p, uid); } else { AddKeepsTight(p, uid); }
  }

  lemma StepTight(s: System, maxPoolSize: int, a: Action)
    requires Can(s, a) && Tight(s.pool) && (a.t in s.threads ==> PcOk(s.pool, s.threads[a.t]))
    ensures Tight(NextPool(s, maxPoolSize, a))
  {
    var p := s.pool;
    match a
    case Enter(t, dirOk, dbOk) =>
      var uid := s.threads[t].uid;
      EnterTight(p, maxPoolSize, uid, dirOk, dbOk);
    case StopIt(t) => StopKeepsTight(p, s.threads[t].cursor.node.elem.hid);
    case Remove(t) =>
      var i :| 0 <= i < |p.lru| && p.lru[i] == s.threads[t].cursor.node;
      RemoveKeepsTight(p, i);
    case Relock(t, dbOk) => AddKeepsTight(p, s.threads[t].uid);
    case _ =>
  }

  lemma OwnOk(s: System, maxPoolSize: int, a: Action)
    requires Can(s, a) && Tight(s.pool) && (a.t in s.threads ==> PcOk(s.pool, s.threads[a.t]))
    ensures PcOk(NextPool(s, maxPoolSize, a), NextPc(s, maxPoolSize, a))
  {
    var p := s.pool;
    match a
    case StopIt(t) => InList(p, s.threads[t].cursor.node);
    case ReadPrev(t) => InList(p, s.threads[t].cursor.node);
    case Remove(t) =>
      var c := s.threads[t].cursor;
      if c.next.Some? { WithoutKeeps(p.lru, c.node, c.next.value); }
    case _ =>
  }

  lemma InList(p: Pool, node: Node)
    requires NodesListed(p) && Distinct(p.lru) && node in p.lru
    ensures node.elem.hid < |p.handlers| && Prev(p.lru, node) != Some(node)
    ensures Prev(p.lru, node).Some? ==> Prev(p.lru, node).value in p.lru
  {
    var i :| 0 <= i < |p.lru| && p.lru[i] == node;
    assert Known(p, p.lru[i]);
    FoundAt(p.lru, i);
  }

  /**
    If calls for the same user do not overlap and cleanings do not overlap, then, however
    else the threads interleave, no user ever has two open handlers.
   */
  lemma {:induction false} OneOpenWhenOrderly(s: System, maxPoolSize: int, actions: seq<Action>, s': System)
    requires Tight(s.pool) && PcsOk(s.pool, s.threads) && OrderlyPath(s, maxPoolSize, actions, s')
    ensures Tight(s'.pool) && OneOpenPerUser(s'.pool)
    decreases |actions|
  {
    if actions == [] {
      TightMeansOne(s.pool);
    } else {
      OrderlyStep(s, maxPoolSize, actions[0]);
      OneOpenWhenOrderly(Do(s, maxPoolSize, actions[0]), maxPoolSize, actions[1..], s');
    }
  }

  lemma OrderlyStep(s: System, maxPoolSize: int, a: Action)
    requires Tight(s.pool) && PcsOk(s.pool, s.threads) && Orderly(s.threads) && Can(s, a)
    ensures Tight(Do(s, maxPoolSize, a).pool) && PcsOk(Do(s, maxPoolSize, a).pool, Do(s, maxPoolSize, a).threads)
  {
    var s' := Do(s, maxPoolSize, a);
    StepTight(s, maxPoolSize, a);
    forall o | o in s'.threads ensures PcOk(s'.pool, s'.threads[o]) {
      if o == a.t { OwnOk(s, maxPoolSize, a); } else { OthersOk(s, maxPoolSize, a, o); }
    }
  }

  // --------------------------------------------------------- when one is stranded

  /** The pool has an entry for this user, and its handler is open. */
  predicate EntryOpen(p: Pool, uid: string) {
    uid in p.elements && !IsStopped(p, p.elements[uid].hid)
  }

  /** Every entry's handler exists and is that user's. */
  ghost predicate EntriesReal(p: Pool) {
    forall u :: u in p.elements ==> EntryReal(p, u)
  }

  predicate EntryReal(p: Pool, u: string)
    requires u in p.elements
  {
    p.elements[u].hid < |p.handlers| && p.handlers[p.elements[u].hid].uid == u
  }

  /**
    A step that leaves an open handler outside the pool, told from the map under the lock:
    the last part of a call finds an open entry of its user and replaces it, or a cleaning
    clears an entry that is open.
   */
  predicate Strands(s: System, a: Action)
    requires Can(s, a)
  {
    match a
    case Relock(t, dbOk) => dbOk && EntryOpen(s.pool, s.threads[t].uid)
    case Remove(t) => EntryOpen(s.pool, s.threads[t].cursor.node.elem.uid)
    case _ => false
  }

  lemma AddOwned(p: Pool, uid: string)
    requires OpenOwned(p) && EntriesReal(p)
    ensures OpenOwned(Add(p, uid)) <==> !EntryOpen(p, uid)
    ensures EntriesReal(Add(p, uid))
  {
    var q, n := Add(p, uid), |p.handlers|;
    assert q.handlers[n] == Handler(uid, false) && q.handlers[..n] == p.handlers;
    forall u | u in q.elements ensures EntryReal(q, u) { if u != uid { assert EntryReal(p, u); } }
    if EntryOpen(p, uid) {
      assert EntryReal(p, uid);
      assert !Owned(q, p.elements[uid].hid);
    } else {
      forall h | 0 <= h < |q.handlers| && !q.handlers[h].stopped ensures Owned(q, h) {
        if h < n { assert q.handlers[h] == p.handlers[h] && Owned(p, h); }
      }
    }
  }

  lemma RemoveOwned(p: Pool, node: Node)
    requires OpenOwned(p) && EntriesReal(p)
    ensures OpenOwned(RemoveNode(p, node)) <==> !EntryOpen(p, node.elem.uid)
    ensures EntriesReal(RemoveNode(p, node))
  {
    var q, uid := RemoveNode(p, node), node.elem.uid;
    forall u | u in q.elements ensures EntryReal(q, u) { assert EntryReal(p, u); }
    if EntryOpen(p, uid) {
      assert EntryReal(p, uid);
      assert !Owned(q, p.elements[uid].hid);
    } else {
      forall h | 0 <= h < |q.handlers| && !q.handlers[h].stopped ensures Owned(q, h) { assert Owned(p, h); }
    }
  }

  lemma StopOwned(p: Pool, hid: nat)
    requires OpenOwned(p) && EntriesReal(p)
    ensures OpenOwned(StopHandler(p, hid)) && EntriesReal(StopHandler(p, hid))
  {
    var q := StopHandler(p, hid);
    forall u | u in q.elements ensures EntryReal(q, u) { assert EntryReal(p, u); }
    forall h | 0 <= h < |q.handlers| && !q.handlers[h].stopped ensures Owned(q, h) { assert Owned(p, h); }
  }

  lemma MoveOwned(p: Pool, node: Node)
    requires OpenOwned(p) && EntriesReal(p)
    ensures OpenOwned(MoveToFront(p, node)) && EntriesReal(MoveToFront(p, node))
  {
    var q := MoveToFront(p, node);
    forall u | u in q.elements ensures EntryReal(q, u) { assert EntryReal(p, u); }
    forall h | 0 <= h < |q.handlers| && !q.handlers[h].stopped ensures Owned(q, h) { assert Owned(p, h); }
  }

  lemma StepOwned(s: System, maxPoolSize: int, a: Action)
    requires Can(s, a) && OpenOwned(s.pool) && EntriesReal(s.pool)
    ensures OpenOwned(NextPool(s, maxPoolSize, a)) <==> !Strands(s, a)
    ensures EntriesReal(NextPool(s, maxPoolSize, a))
  {
    var p := s.pool;
    match a
    case Enter(t, _, _) =>
      var uid := s.threads[t].uid;
      if uid !in p.elements { AddOwned(p, uid); } else if uid in p.lrumap { MoveOwned(p, p.lrumap[uid]); }
    case Relock(t, _) => AddOwned(p, s.threads[t].uid);
    case StopIt(t) => StopOwned(p, s.threads[t].cursor.node.elem.hid);
    case Remove(t) => RemoveOwned(p, s.threads[t].cursor.node);
    case _ =>
  }

  ghost predicate OwnedThroughout(s: System, maxPoolSize: int, actions: seq<Action>)
    decreases |actions|
  {
    OpenOwned(s.pool) &&
    (actions != [] && Can(s, actions[0]) ==> OwnedThroughout(Do(s, maxPoolSize, actions[0]), maxPoolSize, actions[1..]))
  }

  ghost predicate NeverStrands(s: System, maxPoolSize: int, actions: seq<Action>)
    decreases |actions|
  {
    actions != [] && Can(s, actions[0]) ==>
      !Strands(s, actions[0]) && NeverStrands(Do(s, maxPoolSize, actions[0]), maxPoolSize, actions[1..])
  }

  lemma OwnedMeansOne(p: Pool)
    requires OpenOwned(p)
    ensures OneOpenPerUser(p)
  {
    forall g, h | 0 <= g < h < |p.handlers| && !p.handlers[g].stopped && !p.handlers[h].stopped
      ensures p.handlers[g].uid != p.handlers[h].uid
    {
      assert Owned(p, g) && Owned(p, h);
    }
  }

  /**
    All along an interleaving every open handler is the one in the pool for its user,
    exactly if no step strands one. Then no user ever has two open handlers.
   */
  lemma {:induction false} OpenOwnedExact(s: System, maxPoolSize: int, actions: seq<Action>, s': System)
    requires OpenOwned(s.pool) && EntriesReal(s.pool) && Path(s, maxPoolSize, actions, s')
    ensures OwnedThroughout(s, maxPoolSize, actions) <==> NeverStrands(s, maxPoolSize, actions)
    ensures NeverStrands(s, maxPoolSize, actions) ==> OpenOwned(s'.pool) && OneOpenPerUser(s'.pool)
    decreases |actions|
  {
    if actions == [] {
      OwnedMeansOne(s.pool);
    } else {
      StepOwned(s, maxPoolSize, actions[0]);
      if Strands(s, actions[0]) {
        NotThroughout(Do(s, maxPoolSize, actions[0]), maxPoolSize, actions[1..]);
      } else {
        OpenOwnedExact(Do(s, maxPoolSize, actions[0]), maxPoolSize, actions[1..], s');
      }
    }
  }

  lemma NotThroughout(s: System, maxPoolSize: int, actions: seq<Action>)
    requires !OpenOwned(s.pool)
    ensures !OwnedThroughout(s, maxPoolSize, actions)
  {}

  /** A stranded handler shows as soon as its user is opened again: then two are open. */
  lemma StrandedMakesTwo(p: Pool, h: nat)
    requires h < |p.handlers| && !p.handlers[h].stopped
    ensures !OneOpenPerUser(Add(p, p.handlers[h].uid))
  {
    var q := Add(p, p.handlers[h].uid);
    assert q.handlers[h] == p.handlers[h] && q.handlers[|p.handlers|] == Handler(p.handlers[h].uid, false);
  }

  lemma {:induction false} PathSnoc(s: System, maxPoolSize: int, actions: seq<Action>, s1: System, a: Action)
    requires Path(s, maxPoolSize, actions, s1) && Can(s1, a)
    ensures Path(s, maxPoolSize, actions + [a], Do(s1, maxPoolSize, a))
    decreases |actions|
  {
    if actions == [] {
      assert [] + [a] == [a] && [a][1..] == [];
    } else {
      assert (actions + [a])[1..] == actions[1..] + [a];
      PathSnoc(Do(s, maxPoolSize, actions[0]), maxPoolSize, actions[1..], s1, a);
    }
  }

  /** One more step from the start. */
  lemma Go(maxPoolSize: int, actions: seq<Action>, s: System, a: Action, s': System) returns (more: seq<Action>)
    requires Path(INITIALLY, maxPoolSize, actions, s) && Can(s, a) && Do(s, maxPoolSize, a) == s'
    ensures more == actions + [a] && Path(INITIALLY, maxPoolSize, more, s')
  {
    PathSnoc(INITIALLY, maxPoolSize, actions, s, a);
    more := actions + [a];
  }

  const ELEM_A := Element("a", 0)
  const NODE_A := Node(0, ELEM_A)
  const POOL_A := Pool(map["a" := ELEM_A], [NODE_A], map["a" := NODE_A], [Handler("a", false)], 1)
  const POOL_A_GONE := Pool(map[], [], map[], [Handler("a", true)], 1)

  /** A pool with one user. */
  lemma OneUser(maxPoolSize: int) returns (actions: seq<Action>)
    requires 0 <= maxPoolSize
    ensures Path(INITIALLY, maxPoolSize, actions, System(POOL_A, map[]))
  {
    var s1 := System(EMPTY_POOL, map[0 := Start("a")]);
    var s2 := System(POOL_A, map[0 := Returned("a", Got(ELEM_A, true))]);
    actions := Go(maxPoolSize, [], INITIALLY, Call(0, GetJob("a")), s1);
    actions := Go(maxPoolSize, actions, s1, Enter(0, true, true), s2);
    actions := Go(maxPoolSize, actions, s2, Leave(0), System(POOL_A, map[]));
  }

  const ELEM_B := Element("b", 1)
  const NODE_B := Node(1, ELEM_B)
  const POOL_B := Pool(map["b" := ELEM_B], [NODE_B], map["b" := NODE_B], [Handler("a", true), Handler("b", false)], 2)

  /**
    Two overlapping calls for one user, with a single cleaner: the first call cleans, the
    second creates the element while the lock is released, and the first creates it again.
   */
  lemma SameUserRace() returns (actions: seq<Action>, s': System)
    ensures Path(INITIALLY, 0, actions, s') && !OneOpenPerUser(s'.pool)
  {
    actions := OneUser(0);
    var gone := System(POOL_A_GONE, map[1 := Create("b")]);
    actions := FirstCleans(actions);
    var s1 := System(POOL_A_GONE, map[1 := Create("b"), 2 := Start("b")]);
    actions := Go(0, actions, gone, Call(2, GetJob("b")), s1);
    var s2 := System(POOL_B, map[1 := Create("b"), 2 := Returned("b", Got(ELEM_B, true))]);
    actions := Go(0, actions, s1, Enter(2, true, true), s2);
    s' := Do(s2, 0, Relock(1, true));
    actions := Go(0, actions, s2, Relock(1, true), s');
    var handlers := Add(POOL_B, "b").handlers;
    assert handlers[1] == handlers[2] == Handler("b", false);
  }

  lemma FirstCleans(before: seq<Action>) returns (actions: seq<Action>)
    requires Path(INITIALLY, 0, before, System(POOL_A, map[]))
    ensures Path(INITIALLY, 0, actions, System(POOL_A_GONE, map[1 := Create("b")]))
  {
    var job := GetJob("b");
    var s0 := System(POOL_A, map[1 := Start("b")]);
    var s1 := System(POOL_A, map[1 := Clean(job, 1, AtBack)]);
    actions := Go(0, before, System(POOL_A, map[]), Call(1, job), s0);
    actions := Go(0, actions, s0, Enter(1, true, true), s1);
    actions := Go(0, actions, s1, ReadBack(1), System(POOL_A, map[1 := Clean(job, 1, At(NODE_A))]));
    actions := ThenRemoves(actions, job);
  }

  lemma ThenRemoves(before: seq<Action>, job: Job) returns (actions: seq<Action>)
    requires Path(INITIALLY, 0, before, System(POOL_A, map[1 := Clean(job, 1, At(NODE_A))]))
    ensures Path(INITIALLY, 0, actions, System(POOL_A_GONE, map[1 := Finish(job)]))
  {
    RoundFrom(0, before, POOL_A, map[], 1, job, NODE_A);
    assert RemoveNode(StopHandler(POOL_A, 0), NODE_A) == POOL_A_GONE;
    actions := before + Round(1);
  }

  const ELEM_A2 := Element("a", 1)
  const NODE_A2 := Node(1, ELEM_A2)
  const POOL_A2 := Pool(map["a" := ELEM_A2], [NODE_A2], map["a" := NODE_A2], [Handler("a", true), Handler("a", false)], 2)
  const POOL_LOST := POOL_A2.(elements := map[], lrumap := map[])

  /**
    Two overlapping cleanings, with no two calls for the same user: both have reached the
    same node; after the first removes it and the user is opened again, the second removes
    the new entries of that user and leaves its handler open, so the next call opens another.
   */
  lemma CleanerRace() returns (actions: seq<Action>, s': System)
    ensures Path(INITIALLY, 1, actions, s') && !OneOpenPerUser(s'.pool)
  {
    actions := OneUser(1);
    actions := BothAtNode(actions);
    var second := Clean(StopJob, 1, At(NODE_A));
    actions := FirstRemoves(actions, second);
    actions := OpensAgain(actions, second);
    actions := SecondRemoves(actions, second);
    actions, s' := OpensAnother(actions);
  }

  lemma OpensAnother(before: seq<Action>) returns (actions: seq<Action>, s': System)
    requires Path(INITIALLY, 1, before, System(POOL_LOST, map[1 := Swept, 2 := Swept, 3 := Returned("a", Got(ELEM_A2, true))]))
    ensures Path(INITIALLY, 1, actions, s') && !OneOpenPerUser(s'.pool)
  {
    var s0 := System(POOL_LOST, map[1 := Swept, 2 := Swept, 3 := Returned("a", Got(ELEM_A2, true))]);
    var s1 := System(POOL_LOST, map[1 := Swept, 2 := Swept]);
    var s2 := System(POOL_LOST, map[1 := Swept, 2 := Swept, 3 := Start("a")]);
    actions := Go(1, before, s0, Leave(3), s1);
    actions := Go(1, actions, s1, Call(3, GetJob("a")), s2);
    s' := Do(s2, 1, Enter(3, true, true));
    actions := Go(1, actions, s2, Enter(3, true, true), s');
    var handlers := Add(POOL_LOST, "a").handlers;
    assert handlers[1] == handlers[2] == Handler("a", false);
  }

  lemma BothAtNode(before: seq<Action>) returns (actions: seq<Action>)
    requires Path(INITIALLY, 1, before, System(POOL_A, map[]))
    ensures Path(INITIALLY, 1, actions, System(POOL_A, map[1 := Clean(StopJob, 1, At(NODE_A)), 2 := Clean(StopJob, 1, At(NODE_A))]))
  {
    var start, there := Clean(StopJob, 1, AtBack), Clean(StopJob, 1, At(NODE_A));
    var s1, s2 := System(POOL_A, map[1 := start]), System(POOL_A, map[1 := start, 2 := start]);
    var s3, s4 := System(POOL_A, map[1 := there, 2 := start]), System(POOL_A, map[1 := there, 2 := there]);
    actions := Go(1, before, System(POOL_A, map[]), Call(1, StopJob), s1);
    actions := Go(1, actions, s1, Call(2, StopJob), s2);
    actions := Go(1, actions, s2, ReadBack(1), s3);
    actions := Go(1, actions, s3, ReadBack(2), s4);
  }

  lemma FirstRemoves(before: seq<Action>, second: Pc) returns (actions: seq<Action>)
    requires Path(INITIALLY, 1, before, System(POOL_A, map[1 := Clean(StopJob, 1, At(NODE_A)), 2 := second]))
    ensures Path(INITIALLY, 1, actions, System(POOL_A_GONE, map[1 := Swept, 2 := second]))
  {
    var others: map<nat, Pc> := map[2 := second];
    assert others[1 := Clean(StopJob, 1, At(NODE_A))] == map[1 := Clean(StopJob, 1, At(NODE_A)), 2 := second];
    RoundFrom(1, before, POOL_A, others, 1, StopJob, NODE_A);
    assert RemoveNode(StopHandler(POOL_A, 0), NODE_A) == POOL_A_GONE;
    assert others[1 := Swept] == map[1 := Swept, 2 := second];
    actions := before + Round(1);
  }

  lemma OpensAgain(before: seq<Action>, second: Pc) returns (actions: seq<Action>)
    requires Path(INITIALLY, 1, before, System(POOL_A_GONE, map[1 := Swept, 2 := second]))
    ensures Path(INITIALLY, 1, actions, System(POOL_A2, map[1 := Swept, 2 := second, 3 := Returned("a", Got(ELEM_A2, true))]))
  {
    var s0 := System(POOL_A_GONE, map[1 := Swept, 2 := second]);
    var s1 := System(POOL_A_GONE, map[1 := Swept, 2 := second, 3 := Start("a")]);
    actions := Go(1, before, s0, Call(3, GetJob("a")), s1);
    actions := Go(1, actions, s1, Enter(3, true, true), System(POOL_A2, map[1 := Swept, 2 := second, 3 := Returned("a", Got(ELEM_A2, true))]));
  }

  lemma SecondRemoves(before: seq<Action>, second: Pc) returns (actions: seq<Action>)
    requires second == Clean(StopJob, 1, At(NODE_A))
    requires Path(INITIALLY, 1, before, System(POOL_A2, map[1 := Swept, 2 := second, 3 := Returned("a", Got(ELEM_A2, true))]))
    ensures Path(INITIALLY, 1, actions, System(POOL_LOST, map[1 := Swept, 2 := Swept, 3 := Returned("a", Got(ELEM_A2, true))]))
  {
    var got := Returned("a", Got(ELEM_A2, true));
    var others: map<nat, Pc> := map[1 := Swept, 3 := got];
    assert others[2 := second] == map[1 := Swept, 2 := second, 3 := got];
    RoundFrom(1, before, POOL_A2, others, 2, StopJob, NODE_A);
    assert RemoveNode(StopHandler(POOL_A2, 0), NODE_A) == POOL_LOST;
    assert others[2 := Swept] == map[1 := Swept, 2 := Swept, 3 := got];
    actions := before + Round(2);
  }

  /** The last round of a cleaning, of a node with nothing before it. */
  lemma RoundFrom(maxPoolSize: int, before: seq<Action>, q: Pool, others: map<nat, Pc>, t: nat, job: Job, node: Node)
    requires Path(INITIALLY, maxPoolSize, before, System(q, others[t := Clean(job, 1, At(node))])) && Prev(q.lru, node) == None
    ensures Path(INITIALLY, maxPoolSize, before + Round(t), System(RemoveNode(StopHandler(q, node.elem.hid), node), others[t := Finish(job)]))
  {
    var s0 := System(q, others[t := Clean(job, 1, At(node))]);
    RoundSteps(q, others, t, job, 1, node, None, maxPoolSize);
    PathConcat(INITIALLY, maxPoolSize, before, s0, Round(t), System(RemoveNode(StopHandler(q, node.elem.hid), node), others[t := Finish(job)]));
  }

  // --------------------------------------------------------- one thread by itself

  /** The steps of k rounds of cleaning. */
  function Rounds(t: nat, k: nat): seq<Action> {
    if k == 0 then [] else Round(t) + Rounds(t, k - 1)
  }

  function Round(t: nat): seq<Action> {
    [StopIt(t), ReadPrev(t), Remove(t)]
  }

  /** Where a cleaning thread is when k elements of p are left and it may clean `left` more. */
  function Cleaning(p: Pool, threads: map<nat, Pc>, t: nat, job: Job, k: nat, left: int): System
    requires k <= |p.lru|
  {
    System(KeepFirst(p, k), threads[t := if k == 0 || left <= 0 then Finish(job) else Clean(job, left, At(p.lru[k - 1]))])
  }

  lemma OneRound(p: Pool, threads: map<nat, Pc>, t: nat, job: Job, k: nat, left: int, maxPoolSize: int)
    requires Sound(p) && 0 < k <= |p.lru| && 0 < left
    ensures Path(Cleaning(p, threads, t, job, k, left), maxPoolSize, Round(t),
                 Cleaning(p, threads, t, job, k - 1, left - 1))
  {
    var node := p.lru[k - 1];
    RoundOf(p, k);
    RoundSteps(KeepFirst(p, k), threads, t, job, left, node, if k == 1 then None else Some(p.lru[k - 2]), maxPoolSize);
  }

  lemma RoundOf(p: Pool, k: nat)
    requires Sound(p) && 0 < k <= |p.lru|
    ensures var q, node := KeepFirst(p, k), p.lru[k - 1];
            && RemoveNode(StopHandler(q, node.elem.hid), node) == KeepFirst(p, k - 1)
            && Prev(q.lru, node) == if k == 1 then None else Some(p.lru[k - 2])
  {
    EvictKeepsFewer(p, k - 1);
    FoundAt(KeepFirst(p, k).lru, k - 1);
  }

  /** Stop, look back, remove. */
  lemma RoundSteps(q: Pool, threads: map<nat, Pc>, t: nat, job: Job, left: int, node: Node, next: Option<Node>, maxPoolSize: int)
    requires next == Prev(q.lru, node)
    ensures Path(System(q, threads[t := Clean(job, left, At(node))]), maxPoolSize, [StopIt(t), ReadPrev(t), Remove(t)],
                 System(RemoveNode(StopHandler(q, node.elem.hid), node),
                        threads[t := if next.None? || left <= 1 then Finish(job) else Clean(job, left - 1, At(next.value))]))
  {
    var r := StopHandler(q, node.elem.hid);
    var s0 := System(q, threads[t := Clean(job, left, At(node))]);
    var s1 := System(r, threads[t := Clean(job, left, StoppedAt(node))]);
    var s2 := System(r, threads[t := Clean(job, left, Leaving(node, next))]);
    assert [StopIt(t)] == [] + [StopIt(t)] && [StopIt(t), ReadPrev(t)] == [StopIt(t)] + [ReadPrev(t)];
    assert [StopIt(t), ReadPrev(t), Remove(t)] == [StopIt(t), ReadPrev(t)] + [Remove(t)];
    assert Do(s0, maxPoolSize, StopIt(t)) == s1;
    PathSnoc(s0, maxPoolSize, [], s0, StopIt(t));
    assert Do(s1, maxPoolSize, ReadPrev(t)) == s2;
    PathSnoc(s0, maxPoolSize, [StopIt(t)], s1, ReadPrev(t));
    PathSnoc(s0, maxPoolSize, [StopIt(t), ReadPrev(t)], s2, Remove(t));
    assert Do(s2, maxPoolSize, Remove(t)).threads ==
           threads[t := if next.None? || left <= 1 then Finish(job) else Clean(job, left - 1, At(next.value))];
  }

  lemma {:induction false} PathConcat(s: System, maxPoolSize: int, xs: seq<Action>, s1: System, ys: seq<Action>, s2: System)
    requires Path(s, maxPoolSize, xs, s1) && Path(s1, maxPoolSize, ys, s2)
    ensures Path(s, maxPoolSize, xs + ys, s2)
    decreases |xs|
  {
    if xs == [] {
      assert xs + ys == ys;
    } else {
      assert (xs + ys)[1..] == xs[1..] + ys;
      PathConcat(Do(s, maxPoolSize, xs[0]), maxPoolSize, xs[1..], s1, ys, s2);
    }
  }

  /** A cleaning of at most n elements after j rounds. */
  function Stage(p: Pool, threads: map<nat, Pc>, t: nat, job: Job, n: int, j: nat): System {
    if j <= |p.lru| then Cleaning(p, threads, t, job, |p.lru| - j, n - j) else INITIALLY
  }

  ghost predicate Linked(at: nat -> System, maxPoolSize: int, t: nat, j: nat) {
    Path(at(j), maxPoolSize, Round(t), at(j + 1))
  }

  lemma {:induction false} Chain(at: nat -> System, maxPoolSize: int, t: nat, i: nat, m: nat)
    requires i <= m && forall j: nat :: i <= j < m ==> Linked(at, maxPoolSize, t, j)
    ensures Path(at(i), maxPoolSize, Rounds(t, m - i), at(m))
    decreases m - i
  {
    if i < m {
      Chain(at, maxPoolSize, t, i + 1, m);
      assert Linked(at, maxPoolSize, t, i);
      PathConcat(at(i), maxPoolSize, Round(t), at(i + 1), Rounds(t, m - (i + 1)), at(m));
    }
  }

  lemma StagesLinked(p: Pool, threads: map<nat, Pc>, t: nat, job: Job, n: int, maxPoolSize: int, at: nat -> System, j: nat)
    requires Sound(p) && j < |p.lru| && j < n
    requires at(j) == Stage(p, threads, t, job, n, j) && at(j + 1) == Stage(p, threads, t, job, n, j + 1)
    ensures Linked(at, maxPoolSize, t, j)
  {
    StageStep(p, threads, t, job, n, j, maxPoolSize);
    LinkedBy(at, maxPoolSize, t, j, Stage(p, threads, t, job, n, j), Stage(p, threads, t, job, n, j + 1));
  }

  lemma StageStep(p: Pool, threads: map<nat, Pc>, t: nat, job: Job, n: int, j: nat, maxPoolSize: int)
    requires Sound(p) && j < |p.lru| && j < n
    ensures Path(Stage(p, threads, t, job, n, j), maxPoolSize, Round(t), Stage(p, threads, t, job, n, j + 1))
  {
    OneRound(p, threads, t, job, |p.lru| - j, n - j, maxPoolSize);
  }

  lemma LinkedBy(at: nat -> System, maxPoolSize: int, t: nat, j: nat, a: System, b: System)
    requires at(j) == a && at(j + 1) == b && Path(a, maxPoolSize, Round(t), b)
    ensures Linked(at, maxPoolSize, t, j)
  {}

  lemma AloneCleans(p: Pool, threads: map<nat, Pc>, t: nat, job: Job, n: int, m: nat, maxPoolSize: int)
    requires Sound(p) && m <= |p.lru| && (m == 0 || m <= n)
    ensures Path(Stage(p, threads, t, job, n, 0), maxPoolSize, Rounds(t, m), Stage(p, threads, t, job, n, m))
  {
    var at := (j: nat) => Stage(p, threads, t, job, n, j);
    forall j: nat | j < m ensures Linked(at, maxPoolSize, t, j) { StagesLinked(p, threads, t, job, n, maxPoolSize, at, j); }
    Chain(at, maxPoolSize, t, 0, m);
  }

  /** The steps of getElement when nothing else runs. */
  function GetSteps(p: Pool, maxPoolSize: int, t: nat, uid: string, dirOk: bool, dbOk: bool): seq<Action> {
    [Enter(t, dirOk, dbOk)] +
    if uid in p.elements || !dirOk || |p.lru| <= maxPoolSize then []
    else [ReadBack(t)] + Rounds(t, |p.lru| - Kept(p, CleanCount(maxPoolSize))) + [Relock(t, dbOk)]
  }

  lemma PathOne(s: System, maxPoolSize: int, a: Action)
    requires Can(s, a)
    ensures Path(s, maxPoolSize, [a], Do(s, maxPoolSize, a))
  {
    PathSnoc(s, maxPoolSize, [], s, a);
    assert [] + [a] == [a];
  }

  /** By itself a thread does to the pool exactly what the call without overlap does. */
  lemma AloneIsGet(p: Pool, maxPoolSize: int, threads: map<nat, Pc>, t: nat, uid: string, dirOk: bool, dbOk: bool)
    requires Tight(p)
    ensures Path(System(p, threads[t := Start(uid)]), maxPoolSize, GetSteps(p, maxPoolSize, t, uid, dirOk, dbOk),
                 System(GetPool(p, maxPoolSize, uid, dirOk, dbOk), threads[t := Returned(uid, GetOutcome(p, maxPoolSize, uid, dirOk, dbOk))]))
  {
    TightIsSound(p);
    if uid in p.elements { assert UserAgrees(p, uid); }
    SoundGet(p, maxPoolSize, threads, t, uid, dirOk, dbOk);
  }

  lemma SoundGet(p: Pool, maxPoolSize: int, threads: map<nat, Pc>, t: nat, uid: string, dirOk: bool, dbOk: bool)
    requires Sound(p) && (uid in p.elements ==> uid in p.lrumap)
    ensures Path(System(p, threads[t := Start(uid)]), maxPoolSize, GetSteps(p, maxPoolSize, t, uid, dirOk, dbOk),
                 System(GetPool(p, maxPoolSize, uid, dirOk, dbOk), threads[t := Returned(uid, GetOutcome(p, maxPoolSize, uid, dirOk, dbOk))]))
  {
    if uid in p.elements || !dirOk || |p.lru| <= maxPoolSize {
      QuickGet(p, maxPoolSize, threads, t, uid, dirOk, dbOk);
    } else {
      var s0, n := System(p, threads[t := Start(uid)]), CleanCount(maxPoolSize);
      var s1 := System(p, threads[t := Clean(GetJob(uid), n, AtBack)]);
      EnterCleans(p, maxPoolSize, threads, t, uid, dbOk);
      AloneMakesRoom(p, maxPoolSize, threads, t, GetJob(uid), n);
      ThenCreate(s0, s1, System(Cleanup(p, n), threads[t := Create(uid)]), maxPoolSize, threads, t, uid, dbOk,
                 Enter(t, dirOk, dbOk), [ReadBack(t)] + Rounds(t, |p.lru| - Kept(p, n)));
    }
  }

  lemma QuickGet(p: Pool, maxPoolSize: int, threads: map<nat, Pc>, t: nat, uid: string, dirOk: bool, dbOk: bool)
    requires uid in p.elements || !dirOk || |p.lru| <= maxPoolSize
    requires uid in p.elements ==> uid in p.lrumap
    ensures Path(System(p, threads[t := Start(uid)]), maxPoolSize, GetSteps(p, maxPoolSize, t, uid, dirOk, dbOk),
                 System(GetPool(p, maxPoolSize, uid, dirOk, dbOk), threads[t := Returned(uid, GetOutcome(p, maxPoolSize, uid, dirOk, dbOk))]))
  {
    var enter := Enter(t, dirOk, dbOk);
    PathOne(System(p, threads[t := Start(uid)]), maxPoolSize, enter);
    assert [enter] + [] == [enter];
  }

  lemma EnterCleans(p: Pool, maxPoolSize: int, threads: map<nat, Pc>, t: nat, uid: string, dbOk: bool)
    requires uid !in p.elements && |p.lru| > maxPoolSize
    ensures Path(System(p, threads[t := Start(uid)]), maxPoolSize, [Enter(t, true, dbOk)],
                 System(p, threads[t := Clean(GetJob(uid), CleanCount(maxPoolSize), AtBack)]))
  {
    PathOne(System(p, threads[t := Start(uid)]), maxPoolSize, Enter(t, true, dbOk));
  }

  lemma ThenCreate(s0: System, s1: System, s2: System, maxPoolSize: int, threads: map<nat, Pc>, t: nat, uid: string, dbOk: bool, enter: Action, cleaning: seq<Action>)
    requires Path(s0, maxPoolSize, [enter], s1) && Path(s1, maxPoolSize, cleaning, s2)
    requires s2.threads == threads[t := Create(uid)]
    ensures Path(s0, maxPoolSize, [enter] + (cleaning + [Relock(t, dbOk)]),
                 System(CreatePool(s2.pool, uid, dbOk), threads[t := Returned(uid, CreateOutcome(s2.pool, uid, dbOk))]))
  {
    PathSnoc(s1, maxPoolSize, cleaning, s2, Relock(t, dbOk));
    var s3 := Do(s2, maxPoolSize, Relock(t, dbOk));
    assert s3.threads == threads[t := Returned(uid, CreateOutcome(s2.pool, uid, dbOk))];
    PathConcat(s0, maxPoolSize, [enter], s1, cleaning + [Relock(t, dbOk)], s3);
  }

  lemma AloneMakesRoom(p: Pool, maxPoolSize: int, threads: map<nat, Pc>, t: nat, job: Job, n: int)
    requires Sound(p)
    ensures Path(System(p, threads[t := Clean(job, n, AtBack)]), maxPoolSize, [ReadBack(t)] + Rounds(t, |p.lru| - Kept(p, n)),
                 System(Cleanup(p, n), threads[t := Finish(job)]))
  {
    var s0, m := System(p, threads[t := Clean(job, n, AtBack)]), |p.lru| - Kept(p, n);
    FirstStage(p, maxPoolSize, threads, t, job, n);
    LastStage(p, threads, t, job, n, m);
    AloneCleans(p, threads, t, job, n, m, maxPoolSize);
    PathConcat(s0, maxPoolSize, [ReadBack(t)], Stage(p, threads, t, job, n, 0), Rounds(t, m), Stage(p, threads, t, job, n, m));
  }

  lemma FirstStage(p: Pool, maxPoolSize: int, threads: map<nat, Pc>, t: nat, job: Job, n: int)
    ensures Path(System(p, threads[t := Clean(job, n, AtBack)]), maxPoolSize, [ReadBack(t)], Stage(p, threads, t, job, n, 0))
  {
    var s0 := System(p, threads[t := Clean(job, n, AtBack)]);
    KeepAll(p);
    assert Do(s0, maxPoolSize, ReadBack(t)) == Stage(p, threads, t, job, n, 0);
    PathOne(s0, maxPoolSize, ReadBack(t));
  }

  lemma LastStage(p: Pool, threads: map<nat, Pc>, t: nat, job: Job, n: int, m: nat)
    requires m == |p.lru| - Kept(p, n)
    ensures Stage(p, threads, t, job, n, m) == System(Cleanup(p, n), threads[t := Finish(job)])
  {}
}
