/**
  The pool as an LRU cache, told as a trace of uses and evictions: in every run of
  calls that do not overlap, the recency list is exactly what the trace says.
 */
module LruTrace {
  import opened Prelude
  import opened Pools

  /** What a caller of the pool sees happen to users. */
  datatype Event = Used(uid: string) | Evicted(uid: string)

  function UidOf(node: Node): string {
    node.elem.uid
  }

  function Users(lru: seq<Node>): seq<string> {
    Map(UidOf, lru)
  }

  /** The last k users of the list, oldest first. */
  function Evictions(users: seq<string>, k: nat): seq<Event>
    requires k <= |users|
  {
    if k == 0 then [] else [Evicted(users[|users| - 1])] + Evictions(users[..|users| - 1], k - 1)
  }

  /** How many are evicted to make room. */
  function RoomMade(p: Pool, maxPoolSize: int): (k: nat)
    ensures k <= |p.lru|
  {
    if |p.lru| > maxPoolSize then |p.lru| - Kept(p, CleanCount(maxPoolSize)) else 0
  }

  function CallEvents(p: Pool, maxPoolSize: int, call: Call): seq<Event> {
    match call
    case StopAll => Evictions(Users(p.lru), |p.lru|)
    case Get(uid, dirOk, dbOk) =>
      if uid in p.elements then [Used(uid)]
      else if !dirOk then []
      else
        Evictions(Users(p.lru), RoomMade(p, maxPoolSize)) + if dbOk then [Used(uid)] else []
  }

  function Trace(p: Pool, maxPoolSize: int, calls: seq<Call>): seq<Event> {
    if calls == [] then []
    else
      var n := |calls| - 1;
      Trace(p, maxPoolSize, calls[..n]) + CallEvents(ServeAll(p, maxPoolSize, calls[..n]), maxPoolSize, calls[n])
  }

  /** When a user last occurs in a trace; -1 for never. */
  function Last(trace: seq<Event>, u: string): (i: int)
    ensures -1 <= i < |trace|
  {
    if trace == [] then -1 else if trace[|trace| - 1].uid == u then |trace| - 1 else Last(trace[..|trace| - 1], u)
  }

  /** The users whose last event is a use, the latest first. */
  ghost predicate IsLru(users: seq<string>, trace: seq<Event>) {
    && (forall u :: u in users <==> InUse(trace, u))
    && forall i, j :: 0 <= i < j < |users| ==> Last(trace, users[i]) > Last(trace, users[j])
  }

  predicate InUse(trace: seq<Event>, u: string) {
    Last(trace, u) >= 0 && trace[Last(trace, u)].Used?
  }

  /** Of the users in use, this one was used longest ago. */
  ghost predicate Oldest(trace: seq<Event>, u: string) {
    InUse(trace, u) && forall x :: InUse(trace, x) ==> Last(trace, u) <= Last(trace, x)
  }

  /** Whoever is evicted was, at that point, the one used longest ago. */
  ghost predicate EvictsOldest(trace: seq<Event>) {
    forall i :: 0 <= i < |trace| && trace[i].Evicted? ==> Oldest(trace[..i], trace[i].uid)
  }

  lemma EvictsOldestSnoc(trace: seq<Event>, e: Event)
    requires EvictsOldest(trace) && (e.Evicted? ==> Oldest(trace, e.uid))
    ensures EvictsOldest(trace + [e])
  {
    var more := trace + [e];
    forall i | 0 <= i < |more| && more[i].Evicted? ensures Oldest(more[..i], more[i].uid) {
      assert more[..i] == trace[..i];
      assert trace[..|trace|] == trace;
    }
  }

  lemma LastIsOldest(users: seq<string>, trace: seq<Event>)
    requires IsLru(users, trace) && users != []
    ensures Oldest(trace, users[|users| - 1])
  {
    var n := |users| - 1;
    assert users[n] in users;
    forall x | InUse(trace, x) ensures Last(trace, users[n]) <= Last(trace, x) {
      var j :| 0 <= j < |users| && users[j] == x;
    }
  }

  lemma {:induction false} EvictionsOldest(users: seq<string>, trace: seq<Event>, k: nat)
    requires IsLru(users, trace) && k <= |users| && EvictsOldest(trace)
    ensures EvictsOldest(trace + Evictions(users, k))
  {
    if k == 0 {
      assert trace + [] == trace;
    } else {
      var n := |users| - 1;
      LastIsOldest(users, trace);
      EvictsOldestSnoc(trace, Evicted(users[n]));
      EvictLast(users, trace);
      EvictionsOldest(users[..n], trace + [Evicted(users[n])], k - 1);
      EvictionsUnfold(users, trace, k);
    }
  }

  lemma LastSnoc(trace: seq<Event>, e: Event, u: string)
    ensures Last(trace + [e], u) == if e.uid == u then |trace| else Last(trace, u)
    ensures InUse(trace + [e], u) == if e.uid == u then e.Used? else InUse(trace, u)
  {
    assert (trace + [e])[..|trace|] == trace;
  }

  lemma UseFirst(users: seq<string>, rest: seq<string>, trace: seq<Event>, u: string)
    requires IsLru(users, trace)
    requires forall x :: x in rest <==> x in users && x != u
    requires forall i, j :: 0 <= i < j < |rest| ==> Last(trace, rest[i]) > Last(trace, rest[j])
    ensures IsLru([u] + rest, trace + [Used(u)])
  {
    var after, trace' := [u] + rest, trace + [Used(u)];
    forall x ensures x in after <==> InUse(trace', x) {
      LastSnoc(trace, Used(u), x);
      assert x in after <==> x == u || x in rest;
    }
    forall i, j | 0 <= i < j < |after| ensures Last(trace', after[i]) > Last(trace', after[j]) {
      LastSnoc(trace, Used(u), after[i]);
      LastSnoc(trace, Used(u), after[j]);
      assert after[j] == rest[j - 1] && rest[j - 1] in rest;
      if i > 0 { assert after[i] == rest[i - 1] && rest[i - 1] in rest; }
    }
  }

  lemma EvictLast(users: seq<string>, trace: seq<Event>)
    requires IsLru(users, trace) && users != []
    ensures IsLru(users[..|users| - 1], trace + [Evicted(users[|users| - 1])])
  {
    var n := |users| - 1;
    var e := Evicted(users[n]);
    forall x ensures x in users[..n] <==> InUse(trace + [e], x) {
      LastSnoc(trace, e, x);
      assert users == users[..n] + [users[n]];
      assert x in users <==> x in users[..n] || x == users[n];
    }
    forall i, j | 0 <= i < j < n ensures Last(trace + [e], users[i]) > Last(trace + [e], users[j]) {
      LastSnoc(trace, e, users[i]);
      LastSnoc(trace, e, users[j]);
      assert Last(trace, users[j]) > Last(trace, users[n]);
    }
  }

  lemma {:induction false} EvictSome(users: seq<string>, trace: seq<Event>, k: nat)
    requires IsLru(users, trace) && k <= |users|
    ensures IsLru(users[..|users| - k], trace + Evictions(users, k))
  {
    if k == 0 {
      assert users[..|users|] == users && trace + [] == trace;
    } else {
      var n := |users| - 1;
      EvictLast(users, trace);
      EvictSome(users[..n], trace + [Evicted(users[n])], k - 1);
      EvictionsUnfold(users, trace, k);
    }
  }

  lemma EvictionsUnfold(users: seq<string>, trace: seq<Event>, k: nat)
    requires 0 < k <= |users|
    ensures var n := |users| - 1;
            && trace + Evictions(users, k) == trace + [Evicted(users[n])] + Evictions(users[..n], k - 1)
            && users[..n][..n - (k - 1)] == users[..|users| - k]
  {
    Associative(trace, [Evicted(users[|users| - 1])], Evictions(users[..|users| - 1], k - 1));
  }

  // ------------------------------------------------------------- refinement

  lemma CleanupTrace(p: Pool, n: int, trace: seq<Event>)
    requires IsLru(Users(p.lru), trace)
    ensures IsLru(Users(Cleanup(p, n).lru), trace + Evictions(Users(p.lru), |p.lru| - Kept(p, n)))
  {
    MapTake(UidOf, p.lru, Kept(p, n));
    EvictSome(Users(p.lru), trace, |p.lru| - Kept(p, n));
  }

  lemma AddTrace(p: Pool, uid: string, trace: seq<Event>)
    requires uid !in Users(p.lru) && IsLru(Users(p.lru), trace)
    ensures IsLru(Users(Add(p, uid).lru), trace + [Used(uid)])
  {
    MapConcat(UidOf, [Node(p.nextNode, NewElement(p, uid))], p.lru);
    UseFirst(Users(p.lru), Users(p.lru), trace, uid);
    assert Users(Add(p, uid).lru) == [uid] + Users(p.lru);
  }

  lemma NotListed(p: Pool, uid: string)
    requires MapsAgree(p) && NodesListed(p) && uid !in p.elements
    ensures uid !in Users(p.lru)
  {
    forall i | 0 <= i < |p.lru| ensures p.lru[i].elem.uid != uid { assert Listed(p, p.lru[i]); }
  }

  lemma MoveTrace(p: Pool, i: nat, trace: seq<Event>)
    requires Distinct(p.lru) && i < |p.lru| && IsLru(Users(p.lru), trace)
    ensures IsLru(Users(MoveToFront(p, p.lru[i]).lru), trace + [Used(p.lru[i].elem.uid)])
  {
    FoundAt(p.lru, i);
    MoveUser(Users(p.lru), i, trace);
    UsersMoved(p.lru, i);
  }

  lemma UsersMoved(lru: seq<Node>, i: nat)
    requires i < |lru|
    ensures Users([lru[i]] + (lru[..i] + lru[i + 1..])) == [Users(lru)[i]] + (Users(lru)[..i] + Users(lru)[i + 1..])
  {}

  lemma MoveUser(users: seq<string>, i: nat, trace: seq<Event>)
    requires i < |users| && IsLru(users, trace)
    ensures IsLru([users[i]] + (users[..i] + users[i + 1..]), trace + [Used(users[i])])
  {
    var rest := users[..i] + users[i + 1..];
    assert users == users[..i] + ([users[i]] + users[i + 1..]);
    forall x ensures x in rest <==> x in users && x != users[i] { OthersThan(users, i, x, trace); }
    UseFirst(users, rest, trace, users[i]);
  }

  lemma OthersThan(users: seq<string>, i: nat, x: string, trace: seq<Event>)
    requires i < |users| && forall j, k :: 0 <= j < k < |users| ==> Last(trace, users[j]) > Last(trace, users[k])
    ensures x in users[..i] + users[i + 1..] <==> x in users && x != users[i]
  {
    var rest := users[..i] + users[i + 1..];
    if x in rest {
      var j :| 0 <= j < |rest| && rest[j] == x;
      RestIs(users, i, j);
    }
    if x in users && x != users[i] {
      var j :| 0 <= j < |users| && users[j] == x;
      RestIs(users, i, if j < i then j else j - 1);
    }
  }

  lemma RestIs<T>(users: seq<T>, i: nat, j: nat)
    requires i < |users| && j < |users| - 1
    ensures (users[..i] + users[i + 1..])[j] == users[if j < i then j else j + 1]
  {}

  lemma CallTrace(p: Pool, maxPoolSize: int, call: Call, trace: seq<Event>)
    requires Tight(p) && AllOpen(p) && IsLru(Users(p.lru), trace)
    ensures IsLru(Users(Serve(p, maxPoolSize, call).lru), trace + CallEvents(p, maxPoolSize, call))
  {
    match call
    case StopAll => CleanupTrace(p, |p.lru|, trace);
    case Get(uid, dirOk, dbOk) =>
      if uid in p.elements {
        assert UserAgrees(p, uid);
        var i :| 0 <= i < |p.lru| && p.lru[i] == p.lrumap[uid];
        MoveTrace(p, i, trace);
      } else if !dirOk {
        assert trace + [] == trace;
      } else {
        AbsentTrace(p, maxPoolSize, uid, dbOk, trace);
      }
  }

  lemma AbsentTrace(p: Pool, maxPoolSize: int, uid: string, dbOk: bool, trace: seq<Event>)
    requires Tight(p) && AllOpen(p) && IsLru(Users(p.lru), trace) && uid !in p.elements
    ensures IsLru(Users(GetPool(p, maxPoolSize, uid, true, dbOk).lru), trace + CallEvents(p, maxPoolSize, Get(uid, true, dbOk)))
  {
    RoomTight(p, maxPoolSize);
    RoomTrace(p, maxPoolSize, trace);
    ThenAdd(Room(p, maxPoolSize), uid, dbOk, trace, Evictions(Users(p.lru), RoomMade(p, maxPoolSize)));
  }

  lemma RoomTight(p: Pool, maxPoolSize: int)
    requires Tight(p) && AllOpen(p)
    ensures MapsAgree(Room(p, maxPoolSize)) && NodesListed(Room(p, maxPoolSize))
    ensures forall u :: u in Room(p, maxPoolSize).elements ==> u in p.elements
  {
    MakeRoom(p, CleanCount(maxPoolSize));
  }

  lemma RoomTrace(p: Pool, maxPoolSize: int, trace: seq<Event>)
    requires IsLru(Users(p.lru), trace)
    ensures IsLru(Users(Room(p, maxPoolSize).lru), trace + Evictions(Users(p.lru), RoomMade(p, maxPoolSize)))
  {
    if |p.lru| > maxPoolSize {
      CleanupTrace(p, CleanCount(maxPoolSize), trace);
    } else {
      assert trace + [] == trace;
    }
  }

  lemma ThenAdd(q: Pool, uid: string, dbOk: bool, trace: seq<Event>, evictions: seq<Event>)
    requires MapsAgree(q) && NodesListed(q) && uid !in q.elements && IsLru(Users(q.lru), trace + evictions)
    ensures IsLru(Users((if dbOk then Add(q, uid) else q).lru), trace + (evictions + if dbOk then [Used(uid)] else []))
  {
    if dbOk {
      NotListed(q, uid);
      AddTrace(q, uid, trace + evictions);
      Associative(trace, evictions, [Used(uid)]);
    } else {
      assert evictions + [] == evictions;
    }
  }

  lemma CallEvictsOldest(p: Pool, maxPoolSize: int, call: Call, trace: seq<Event>)
    requires IsLru(Users(p.lru), trace) && EvictsOldest(trace)
    ensures EvictsOldest(trace + CallEvents(p, maxPoolSize, call))
  {
    match call
    case StopAll => EvictionsOldest(Users(p.lru), trace, |p.lru|);
    case Get(uid, dirOk, dbOk) =>
      if uid in p.elements {
        EvictsOldestSnoc(trace, Used(uid));
      } else if !dirOk {
        assert trace + [] == trace;
      } else {
        var evictions := Evictions(Users(p.lru), RoomMade(p, maxPoolSize));
        EvictionsOldest(Users(p.lru), trace, RoomMade(p, maxPoolSize));
        EvictsOldestSnoc(trace + evictions, Used(uid));
        Associative(trace, evictions, [Used(uid)]);
        assert evictions + [] == evictions;
      }
  }

  /**
    In every run of calls that do not overlap the pool is an LRU cache: the list is the
    users in use, the most recent first; whoever is evicted was used longest ago; the
    maps agree with the list; every element is open; no user has two open handlers; and
    the list never exceeds the maximum by more than one.
   */
  lemma {:induction false} PoolRefinesLru(maxPoolSize: int, calls: seq<Call>)
    ensures var p := ServeAll(EMPTY_POOL, maxPoolSize, calls);
            && Tight(p) && AllOpen(p) && OneOpenPerUser(p)
            && IsLru(Users(p.lru), Trace(EMPTY_POOL, maxPoolSize, calls))
            && EvictsOldest(Trace(EMPTY_POOL, maxPoolSize, calls))
            && (0 <= maxPoolSize ==> |p.lru| <= maxPoolSize + 1)
  {
    if calls != [] {
      var n := |calls| - 1;
      PoolRefinesLru(maxPoolSize, calls[..n]);
      RunStep(ServeAll(EMPTY_POOL, maxPoolSize, calls[..n]), maxPoolSize, calls[n], Trace(EMPTY_POOL, maxPoolSize, calls[..n]));
      CallEvictsOldest(ServeAll(EMPTY_POOL, maxPoolSize, calls[..n]), maxPoolSize, calls[n], Trace(EMPTY_POOL, maxPoolSize, calls[..n]));
    }
  }

  lemma RunStep(p: Pool, maxPoolSize: int, call: Call, trace: seq<Event>)
    requires Tight(p) && AllOpen(p) && IsLru(Users(p.lru), trace) && (0 <= maxPoolSize ==> |p.lru| <= maxPoolSize + 1)
    ensures var q := Serve(p, maxPoolSize, call);
            && Tight(q) && AllOpen(q) && OneOpenPerUser(q)
            && IsLru(Users(q.lru), trace + CallEvents(p, maxPoolSize, call))
            && (0 <= maxPoolSize ==> |q.lru| <= maxPoolSize + 1)
  {
    ServeKeeps(p, maxPoolSize, call);
    CallTrace(p, maxPoolSize, call, trace);
    TightMeansOne(Serve(p, maxPoolSize, call));
  }

  lemma AddedUsers(p: Pool, uid: string)
    ensures Users(Add(p, uid).lru) == [uid] + Users(p.lru)
  {
    MapConcat(UidOf, [Node(p.nextNode, NewElement(p, uid))], p.lru);
  }

  /**
    After any run of such calls a new user goes to the front: of a pool that is not over
    its size nobody leaves, and of one that is, exactly the oldest tenth of the size and
    one more.
   */
  lemma NewUserInRun(maxPoolSize: nat, calls: seq<Call>, uid: string)
    requires uid !in ServeAll(EMPTY_POOL, maxPoolSize, calls).elements
    ensures var p := ServeAll(EMPTY_POOL, maxPoolSize, calls);
            var before, after := Users(p.lru), Users(Serve(p, maxPoolSize, Get(uid, true, true)).lru);
            && |before| <= maxPoolSize + 1
            && after == [uid] + if |before| <= maxPoolSize then before else before[..maxPoolSize - maxPoolSize / 10]
  {
    PoolRefinesLru(maxPoolSize, calls);
    var p := ServeAll(EMPTY_POOL, maxPoolSize, calls);
    AddedUsers(Room(p, maxPoolSize), uid);
    if |p.lru| > maxPoolSize { MapTake(UidOf, p.lru, maxPoolSize - maxPoolSize / 10); }
  }
}
