/**
  The pool of open user handlers: a map from user to element, a recency list, and a
  second map from user to list node. This module has the pool as its calls change it
  one at a time; PoolSteps has the same operations interleaved.
 */
module Pools {
  import opened Prelude

  /** A handler object: the user it serves and whether it has been stopped. */
  datatype Handler = Handler(uid: string, stopped: bool)

  /** A pool element; `hid` is which handler object it holds. */
  datatype Element = Element(uid: string, hid: nat)

  /** A list node; `id` tells apart two nodes with equal contents. */
  datatype Node = Node(id: nat, elem: Element)

  /** `lru` has the most recently used element first. `handlers` are all ever made. */
  datatype Pool = Pool(
    elements: map<string, Element>,
    lru: seq<Node>,
    lrumap: map<string, Node>,
    handlers: seq<Handler>,
    nextNode: nat)

  datatype Outcome = Got(elem: Element, created: bool) | ElementStopped | Failed

  const EMPTY_POOL := Pool(map[], [], map[], [], 0)

  // ------------------------------------------------------------ list operations

  /** Where a node is in the list; the length of the list when it is not in it. */
  function Find(lru: seq<Node>, node: Node, start: nat): (i: nat)
    requires start <= |lru|
    ensures start <= i <= |lru| && (i < |lru| ==> lru[i] == node)
    ensures forall j :: start <= j < i ==> lru[j] != node
    decreases |lru| - start
  {
    if start == |lru| || lru[start] == node then start else Find(lru, node, start + 1)
  }

  /** The list after Remove: unchanged when the node is not in it. */
  function Without(lru: seq<Node>, node: Node): seq<Node> {
    var i := Find(lru, node, 0);
    if i < |lru| then lru[..i] + lru[i + 1..] else lru
  }

  /** The node before this one: none at the front, and none once it has left the list. */
  function Prev(lru: seq<Node>, node: Node): Option<Node> {
    var i := Find(lru, node, 0);
    if 0 < i < |lru| then Some(lru[i - 1]) else None
  }

  lemma WithoutKeeps(lru: seq<Node>, node: Node, n: Node)
    requires n in lru && n != node
    ensures n in Without(lru, node)
  {
    var i, k := Find(lru, node, 0), Find(lru, n, 0);
    assert k < |lru|;
    if i < |lru| {
      if k < i { assert Without(lru, node)[k] == n; } else { assert Without(lru, node)[k - 1] == n; }
    }
  }

  // ------------------------------------------------------------ pool operations

  predicate IsStopped(p: Pool, hid: nat) {
    hid < |p.handlers| && p.handlers[hid].stopped
  }

  function StopHandler(p: Pool, hid: nat): Pool {
    if hid < |p.handlers| then p.(handlers := p.handlers[hid := p.handlers[hid].(stopped := true)]) else p
  }

  /** The locked part of one round of cleaning: the maps are cleared by user, not by node. */
  function RemoveNode(p: Pool, node: Node): Pool {
    p.(lru := Without(p.lru, node),
      lrumap := p.lrumap - {node.elem.uid},
      elements := p.elements - {node.elem.uid})
  }

  function MoveToFront(p: Pool, node: Node): Pool {
    if node in p.lru then p.(lru := [node] + Without(p.lru, node)) else p
  }

  function NewElement(p: Pool, uid: string): Element {
    Element(uid, |p.handlers|)
  }

  function Add(p: Pool, uid: string): Pool {
    var e := NewElement(p, uid);
    var node := Node(p.nextNode, e);
    Pool(p.elements[uid := e], [node] + p.lru, p.lrumap[uid := node], p.handlers + [Handler(uid, false)], p.nextNode + 1)
  }

  /** About a tenth of the pool; Go's division truncates. */
  function CleanCount(maxPoolSize: int): int {
    1 + if maxPoolSize >= 0 then maxPoolSize / 10 else -((-maxPoolSize) / 10)
  }

  /** One round of cleaning: the oldest is stopped, then its entries go. */
  function Evict(p: Pool): Pool
    requires p.lru != []
  {
    var node := p.lru[|p.lru| - 1];
    RemoveNode(StopHandler(p, node.elem.hid), node)
  }

  /** Some node from position k on holds this handler. */
  predicate HeldFrom(lru: seq<Node>, k: nat, h: nat) {
    exists i :: k <= i < |lru| && lru[i].elem.hid == h
  }

  function UsersFrom(lru: seq<Node>, k: nat): set<string> {
    set i | k <= i < |lru| :: lru[i].elem.uid
  }

  /** Only the k most recent are kept: the others are stopped and their entries gone. */
  function KeepFirst(p: Pool, k: nat): Pool
    requires k <= |p.lru|
  {
    var gone := UsersFrom(p.lru, k);
    Pool(p.elements - gone, p.lru[..k], p.lrumap - gone,
         seq(|p.handlers|, h requires 0 <= h < |p.handlers| =>
           if HeldFrom(p.lru, k, h) then p.handlers[h].(stopped := true) else p.handlers[h]),
         p.nextNode)
  }

  /** What cleaning at most n elements keeps. */
  function Kept(p: Pool, n: int): nat {
    if n <= 0 then |p.lru| else if n >= |p.lru| then 0 else |p.lru| - n
  }

  /** Cleaning n elements with nothing else running. */
  function Cleanup(p: Pool, n: int): Pool {
    KeepFirst(p, Kept(p, n))
  }

  // ---------------------------------------------------------------- invariants

  /** The two maps and the list agree, and every element is its user's. */
  ghost predicate MapsAgree(p: Pool) {
    && p.elements.Keys == p.lrumap.Keys
    && forall u :: u in p.elements ==> UserAgrees(p, u)
  }

  predicate UserAgrees(p: Pool, u: string)
    requires u in p.elements
  {
    u in p.lrumap && p.lrumap[u] in p.lru && p.lrumap[u].elem == p.elements[u] && p.elements[u].uid == u
  }

  predicate Known(p: Pool, node: Node) {
    && node.id < p.nextNode && node.elem.hid < |p.handlers|
    && p.handlers[node.elem.hid].uid == node.elem.uid
  }

  /** Every list node is the one its user's map entry points to, so no user is listed twice. */
  ghost predicate Tight(p: Pool) {
    MapsAgree(p) && NodesListed(p) && Distinct(p.lru) && OpenOwned(p)
  }

  ghost predicate NodesListed(p: Pool) {
    forall i :: 0 <= i < |p.lru| ==> Known(p, p.lru[i]) && Listed(p, p.lru[i])
  }

  ghost predicate Distinct(lru: seq<Node>) {
    forall i, j :: 0 <= i < j < |lru| ==> lru[i].elem.uid != lru[j].elem.uid
  }

  ghost predicate OpenOwned(p: Pool) {
    forall h :: 0 <= h < |p.handlers| && !p.handlers[h].stopped ==> Owned(p, h)
  }

  predicate Listed(p: Pool, node: Node) {
    node.elem.uid in p.lrumap && p.lrumap[node.elem.uid] == node
  }

  /** An unstopped handler is the one in the pool for its user. */
  predicate Owned(p: Pool, h: nat)
    requires h < |p.handlers|
  {
    p.handlers[h].uid in p.elements && p.elements[p.handlers[h].uid].hid == h
  }

  /** Never two unstopped handlers for one user. */
  ghost predicate OneOpenPerUser(p: Pool) {
    forall g, h :: 0 <= g < h < |p.handlers| && !p.handlers[g].stopped && !p.handlers[h].stopped ==>
      p.handlers[g].uid != p.handlers[h].uid
  }

  lemma TightMeansOne(p: Pool)
    requires Tight(p)
    ensures OneOpenPerUser(p)
  {
    forall g, h | 0 <= g < h < |p.handlers| && !p.handlers[g].stopped && !p.handlers[h].stopped
      ensures p.handlers[g].uid != p.handlers[h].uid
    {
      assert Owned(p, g) && Owned(p, h);
    }
  }

  // ------------------------------------------------------------- list lemmas

  lemma FoundAt(lru: seq<Node>, i: nat)
    requires i < |lru| && Distinct(lru)
    ensures Find(lru, lru[i], 0) == i
    ensures Without(lru, lru[i]) == lru[..i] + lru[i + 1..]
    ensures Prev(lru, lru[i]) == if i == 0 then None else Some(lru[i - 1])
  {
    assert Find(lru, lru[i], 0) < |lru|;
  }

  // ------------------------------------------------------- what each step keeps

  lemma StopKeepsTight(p: Pool, hid: nat)
    requires Tight(p)
    ensures Tight(StopHandler(p, hid))
  {
    var q := StopHandler(p, hid);
    forall u | u in q.elements ensures UserAgrees(q, u) { assert UserAgrees(p, u); }
    forall i | 0 <= i < |q.lru| ensures Known(q, q.lru[i]) && Listed(q, q.lru[i]) { assert Known(p, p.lru[i]) && Listed(p, p.lru[i]); }
    forall h | 0 <= h < |q.handlers| && !q.handlers[h].stopped ensures Owned(q, h) { assert Owned(p, h); }
  }

  /** Removing a stopped handler's node from anywhere in the list. */
  lemma RemoveKeepsTight(p: Pool, i: nat)
    requires Tight(p) && i < |p.lru| && IsStopped(p, p.lru[i].elem.hid)
    ensures Tight(RemoveNode(p, p.lru[i]))
    ensures RemoveNode(p, p.lru[i]).lru == p.lru[..i] + p.lru[i + 1..]
  {
    FoundAt(p.lru, i);
    RemoveKeepsMaps(p, p.lru[i]);
    RemoveKeepsListed(p, RemoveNode(p, p.lru[i]), i);
    RemoveKeepsOwned(p, p.lru[i]);
  }

  /** Whichever node is removed, and whether or not it is still in the list. */
  lemma RemoveKeepsMaps(p: Pool, node: Node)
    requires MapsAgree(p)
    ensures MapsAgree(RemoveNode(p, node))
  {
    var q := RemoveNode(p, node);
    forall u | u in q.elements ensures UserAgrees(q, u) {
      assert UserAgrees(p, u);
      WithoutKeeps(p.lru, node, p.lrumap[u]);
    }
  }

  lemma RemoveKeepsListed(p: Pool, q: Pool, i: nat)
    requires NodesListed(p) && Distinct(p.lru) && i < |p.lru| && q == RemoveNode(p, p.lru[i])
    requires q.lru == p.lru[..i] + p.lru[i + 1..]
    ensures NodesListed(q) && Distinct(q.lru)
  {
    forall j | 0 <= j < |q.lru| ensures Known(q, q.lru[j]) && Listed(q, q.lru[j]) {
      var k := if j < i then j else j + 1;
      assert q.lru[j] == p.lru[k] && Known(p, p.lru[k]) && Listed(p, p.lru[k]);
      assert p.lru[k].elem.uid != p.lru[i].elem.uid;
    }
  }

  lemma RemoveKeepsOwned(p: Pool, node: Node)
    requires MapsAgree(p) && OpenOwned(p) && node in p.lru && Listed(p, node) && IsStopped(p, node.elem.hid)
    ensures OpenOwned(RemoveNode(p, node))
  {
    var q := RemoveNode(p, node);
    assert UserAgrees(p, node.elem.uid);
    forall h | 0 <= h < |q.handlers| && !q.handlers[h].stopped ensures Owned(q, h) {
      assert Owned(p, h) && UserAgrees(p, p.handlers[h].uid);
    }
  }

  lemma MoveKeepsTight(p: Pool, uid: string)
    requires Tight(p) && uid in p.elements
    ensures Tight(MoveToFront(p, p.lrumap[uid]))
  {
    assert UserAgrees(p, uid);
    var i :| 0 <= i < |p.lru| && p.lru[i] == p.lrumap[uid];
    FoundAt(p.lru, i);
    MovedTight(p, MoveToFront(p, p.lru[i]), i);
  }

  lemma MovedTight(p: Pool, q: Pool, i: nat)
    requires Tight(p) && i < |p.lru| && q == p.(lru := [p.lru[i]] + (p.lru[..i] + p.lru[i + 1..]))
    ensures Tight(q)
  {
    forall j | 0 <= j < |q.lru| ensures Known(q, q.lru[j]) && Listed(q, q.lru[j]) { Moved(p, q, i, j); }
    forall j, k | 0 <= j < k < |q.lru| ensures q.lru[j].elem.uid != q.lru[k].elem.uid {
      Moved(p, q, i, j);
      Moved(p, q, i, k);
    }
    forall u | u in q.elements ensures UserAgrees(q, u) {
      assert UserAgrees(p, u);
      MovedKeeps(p.lru, i, p.lrumap[u]);
    }
    forall h | 0 <= h < |q.handlers| && !q.handlers[h].stopped ensures Owned(q, h) { assert Owned(p, h); }
  }

  lemma MovedKeeps(lru: seq<Node>, i: nat, n: Node)
    requires i < |lru| && n in lru
    ensures n in [lru[i]] + (lru[..i] + lru[i + 1..])
  {
    var k :| 0 <= k < |lru| && lru[k] == n;
    var moved := [lru[i]] + (lru[..i] + lru[i + 1..]);
    assert moved[if k == i then 0 else if k < i then k + 1 else k] == n;
  }

  /** Where the nodes of the list come from when node i moves to the front. */
  lemma Moved(p: Pool, q: Pool, i: nat, j: nat)
    requires Tight(p) && i < |p.lru| && j < |p.lru|
    requires q == p.(lru := [p.lru[i]] + (p.lru[..i] + p.lru[i + 1..]))
    ensures var k := if j == 0 then i else if j <= i then j - 1 else j;
            q.lru[j] == p.lru[k] && Known(q, p.lru[k]) && Listed(q, p.lru[k])
  {
    var k := if j == 0 then i else if j <= i then j - 1 else j;
    assert Known(p, p.lru[k]) && Listed(p, p.lru[k]);
  }

  lemma AddKeepsTight(p: Pool, uid: string)
    requires Tight(p) && uid !in p.elements
    ensures Tight(Add(p, uid))
  {
    var q := Add(p, uid);
    forall u | u in q.elements ensures UserAgrees(q, u) { if u != uid { assert UserAgrees(p, u); } }
    forall j | 0 <= j < |q.lru| ensures Known(q, q.lru[j]) && Listed(q, q.lru[j]) {
      if j > 0 { assert q.lru[j] == p.lru[j - 1] && Known(p, p.lru[j - 1]) && Listed(p, p.lru[j - 1]); }
    }
    forall j, k | 0 <= j < k < |q.lru| ensures q.lru[j].elem.uid != q.lru[k].elem.uid {
      assert Listed(p, p.lru[k - 1]);
    }
    forall h | 0 <= h < |q.handlers| && !q.handlers[h].stopped ensures Owned(q, h) {
      if h < |p.handlers| { assert Owned(p, h); }
    }
  }

  // ---------------------------------------------------------- calls, one at a time

  datatype Call = Get(uid: string, dirOk: bool, dbOk: bool) | StopAll

  /** getElement with nothing else running. */
  function GetPool(p: Pool, maxPoolSize: int, uid: string, dirOk: bool, dbOk: bool): Pool {
    if uid in p.elements then
      if IsStopped(p, p.elements[uid].hid) || uid !in p.lrumap then p else MoveToFront(p, p.lrumap[uid])
    else if !dirOk then p
    else
      var q := Room(p, maxPoolSize);
      if dbOk then Add(q, uid) else q
  }

  /** The pool with room for one more. */
  function Room(p: Pool, maxPoolSize: int): Pool {
    if |p.lru| > maxPoolSize then Cleanup(p, CleanCount(maxPoolSize)) else p
  }

  function GetOutcome(p: Pool, maxPoolSize: int, uid: string, dirOk: bool, dbOk: bool): Outcome {
    if uid in p.elements then
      if IsStopped(p, p.elements[uid].hid) then ElementStopped else Got(p.elements[uid], false)
    else if !dirOk || !dbOk then Failed
    else Got(Element(uid, |p.handlers|), true)
  }

  function Serve(p: Pool, maxPoolSize: int, call: Call): Pool {
    match call
    case Get(uid, dirOk, dbOk) => GetPool(p, maxPoolSize, uid, dirOk, dbOk)
    case StopAll => Cleanup(p, |p.lru|)
  }

  function ServeAll(p: Pool, maxPoolSize: int, calls: seq<Call>): Pool {
    if calls == [] then p else Serve(ServeAll(p, maxPoolSize, calls[..|calls| - 1]), maxPoolSize, calls[|calls| - 1])
  }

  // ------------------------------------------------------------------ cleaning

  /** No user is listed twice, and every listed handler exists. */
  ghost predicate Sound(p: Pool) {
    Distinct(p.lru) && forall i :: 0 <= i < |p.lru| ==> p.lru[i].elem.hid < |p.handlers|
  }

  lemma TightIsSound(p: Pool)
    requires Tight(p)
    ensures Sound(p)
  {
    forall i | 0 <= i < |p.lru| ensures p.lru[i].elem.hid < |p.handlers| { assert Known(p, p.lru[i]); }
  }

  lemma KeepAll(p: Pool)
    ensures KeepFirst(p, |p.lru|) == p
  {
    assert p.lru[..|p.lru|] == p.lru;
    assert UsersFrom(p.lru, |p.lru|) == {};
    assert KeepFirst(p, |p.lru|).handlers == p.handlers;
  }

  /** A round of cleaning keeps one fewer. */
  lemma EvictKeepsFewer(p: Pool, k: nat)
    requires Sound(p) && k < |p.lru|
    ensures Evict(KeepFirst(p, k + 1)) == KeepFirst(p, k)
  {
    var q := KeepFirst(p, k + 1);
    assert q.lru[|q.lru| - 1] == p.lru[k];
    FoundAt(q.lru, k);
    assert q.lru[..k] + q.lru[k + 1..] == p.lru[..k];
    assert UsersFrom(p.lru, k) == UsersFrom(p.lru, k + 1) + {p.lru[k].elem.uid};
    forall h ensures HeldFrom(p.lru, k, h) <==> HeldFrom(p.lru, k + 1, h) || p.lru[k].elem.hid == h {}
    assert Evict(q).handlers == KeepFirst(p, k).handlers;
    assert Evict(q).elements == KeepFirst(p, k).elements;
    assert Evict(q).lrumap == KeepFirst(p, k).lrumap;
  }

  lemma KeepTight(p: Pool, k: nat)
    requires Tight(p) && k <= |p.lru|
    ensures Tight(KeepFirst(p, k))
  {
    KeepMaps(p, KeepFirst(p, k), k);
    KeepListed(p, KeepFirst(p, k), k);
    KeepOwned(p, KeepFirst(p, k), k);
  }

  lemma KeepMaps(p: Pool, q: Pool, k: nat)
    requires MapsAgree(p) && k <= |p.lru| && q == KeepFirst(p, k)
    ensures MapsAgree(q)
  {
    forall u | u in q.elements ensures UserAgrees(q, u) {
      assert UserAgrees(p, u);
      var i :| 0 <= i < |p.lru| && p.lru[i] == p.lrumap[u];
      forall j | k <= j < |p.lru| ensures p.lru[j] != p.lrumap[u] { assert p.lru[j].elem.uid in UsersFrom(p.lru, k); }
      assert q.lru[i] == p.lru[i];
    }
  }

  lemma KeepListed(p: Pool, q: Pool, k: nat)
    requires NodesListed(p) && Distinct(p.lru) && k <= |p.lru| && q == KeepFirst(p, k)
    ensures NodesListed(q) && Distinct(q.lru)
  {
    forall i | 0 <= i < |q.lru| ensures Known(q, q.lru[i]) && Listed(q, q.lru[i]) {
      assert q.lru[i] == p.lru[i] && Known(p, p.lru[i]) && Listed(p, p.lru[i]);
    }
  }

  lemma KeepOwned(p: Pool, q: Pool, k: nat)
    requires MapsAgree(p) && NodesListed(p) && OpenOwned(p) && k <= |p.lru| && q == KeepFirst(p, k)
    ensures OpenOwned(q)
  {
    forall h | 0 <= h < |q.handlers| && !q.handlers[h].stopped ensures Owned(q, h) {
      assert !p.handlers[h].stopped && Owned(p, h);
      var u := p.handlers[h].uid;
      assert UserAgrees(p, u);
      forall i | k <= i < |p.lru| ensures p.lru[i].elem.uid != u { assert Listed(p, p.lru[i]); }
    }
  }

  /** Without overlap no element in the pool has been stopped. */
  ghost predicate AllOpen(p: Pool) {
    forall u :: u in p.elements ==> !IsStopped(p, p.elements[u].hid)
  }

  lemma KeepOpen(p: Pool, k: nat)
    requires Tight(p) && AllOpen(p) && k <= |p.lru|
    ensures AllOpen(KeepFirst(p, k))
  {
    var q := KeepFirst(p, k);
    KeepMaps(p, q, k);
    forall u | u in q.elements ensures !IsStopped(q, q.elements[u].hid) {
      assert UserAgrees(q, u);
      KeptNotEvicted(p, q.lru, q.lrumap[u], k);
    }
  }

  /** A kept node's handler is not an evicted one. */
  lemma KeptNotEvicted(p: Pool, kept: seq<Node>, node: Node, k: nat)
    requires NodesListed(p) && Distinct(p.lru) && k <= |p.lru| && kept == p.lru[..k] && node in kept
    ensures !HeldFrom(p.lru, k, node.elem.hid)
  {
    var j :| 0 <= j < |kept| && kept[j] == node;
    assert p.lru[j] == node && Known(p, p.lru[j]);
    forall i | k <= i < |p.lru| ensures p.lru[i].elem.hid != node.elem.hid { assert Known(p, p.lru[i]); }
  }

  /**
    Without overlap every call keeps the pool tight with every element open, keeps it
    within one of the maximum, and gives the caller an open element of its own.
   */
  lemma ServeKeeps(p: Pool, maxPoolSize: int, call: Call)
    requires Tight(p) && AllOpen(p)
    ensures Tight(Serve(p, maxPoolSize, call)) && AllOpen(Serve(p, maxPoolSize, call))
    ensures 0 <= maxPoolSize && |p.lru| <= maxPoolSize + 1 ==> |Serve(p, maxPoolSize, call).lru| <= maxPoolSize + 1
  {
    match call
    case Get(uid, dirOk, dbOk) => GetKeeps(p, maxPoolSize, uid, dirOk, dbOk);
    case StopAll => MakeRoom(p, |p.lru|);
  }

  lemma GetKeeps(p: Pool, maxPoolSize: int, uid: string, dirOk: bool, dbOk: bool)
    requires Tight(p) && AllOpen(p)
    ensures var q, out := GetPool(p, maxPoolSize, uid, dirOk, dbOk), GetOutcome(p, maxPoolSize, uid, dirOk, dbOk);
            && Tight(q) && AllOpen(q)
            && (0 <= maxPoolSize && |p.lru| <= maxPoolSize + 1 ==> |q.lru| <= maxPoolSize + 1)
            && (out.Got? ==> out.elem.uid == uid && uid in q.elements && q.elements[uid] == out.elem && q.lru != [] && q.lru[0].elem == out.elem)
            && !out.ElementStopped?
  {
    if uid in p.elements {
      assert UserAgrees(p, uid);
      MoveKeepsTight(p, uid);
    } else if dirOk {
      var q := Room(p, maxPoolSize);
      MakeRoom(p, CleanCount(maxPoolSize));
      AddKeepsTight(q, uid);
      AddKeepsOpen(q, uid);
    }
  }

  lemma MakeRoom(p: Pool, n: int)
    requires Tight(p) && AllOpen(p)
    ensures Tight(Cleanup(p, n)) && AllOpen(Cleanup(p, n))
    ensures |Cleanup(p, n).lru| == Kept(p, n) && |Cleanup(p, n).handlers| == |p.handlers|
    ensures forall u :: u in Cleanup(p, n).elements ==> u in p.elements
  {
    KeepTight(p, Kept(p, n));
    KeepOpen(p, Kept(p, n));
  }

  lemma AddKeepsOpen(p: Pool, uid: string)
    requires Tight(p) && AllOpen(p)
    ensures AllOpen(Add(p, uid))
  {
    forall u | u in p.elements ensures p.elements[u].hid < |p.handlers| {
      assert UserAgrees(p, u);
      var i :| 0 <= i < |p.lru| && p.lru[i] == p.lrumap[u];
      assert Known(p, p.lru[i]);
    }
  }
}
