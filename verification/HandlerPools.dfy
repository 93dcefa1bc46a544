/** The handler pool as the object its methods change. */
module HandlerPools {
  import opened Prelude
  import opened Pools

  /** The back of the list, where cleaning starts. */
  function Back(lru: seq<Node>): Option<Node> {
    if lru == [] then None else Some(lru[|lru| - 1])
  }

  /** How far a cleaning has come: k elements left, the cursor at the last of them. */
  ghost predicate Cleaned(before: Pool, state: Pool, k: nat, cursor: Option<Node>) {
    k <= |before.lru| && state == KeepFirst(before, k) && cursor == Back(before.lru[..k])
  }

  lemma NothingCleaned(p: Pool)
    ensures Cleaned(p, p, |p.lru|, Back(p.lru))
  {
    KeepAll(p);
    assert p.lru[..|p.lru|] == p.lru;
  }

  /** One round leaves the cursor at the new back, and one element fewer. */
  lemma OneRound(before: Pool, state: Pool, k: nat, node: Node)
    requires Sound(before) && Cleaned(before, state, k, Some(node))
    ensures k > 0 && Cleaned(before, RemoveNode(StopHandler(state, node.elem.hid), node), k - 1, Prev(state.lru, node))
  {
    EvictKeepsFewer(before, k - 1);
    FoundAt(state.lru, k - 1);
    assert state.lru == before.lru[..k] && node == before.lru[k - 1];
  }

  class HandlerPool {
    var elements: map<string, Element>
    var lru: seq<Node>
    var lrumap: map<string, Node>
    var handlers: seq<Handler>
    var nextNode: nat
    const maxPoolSize: int

    function State(): Pool
      reads this
    {
      Pool(elements, lru, lrumap, handlers, nextNode)
    }

    ghost predicate Valid()
      reads this
    {
      Tight(State())
    }

    constructor (size: int)
      ensures Valid() && State() == EMPTY_POOL && maxPoolSize == size
    {
      elements, lru, lrumap, handlers, nextNode, maxPoolSize := map[], [], map[], [], 0, size;
    }

    /** Walks the list from the back, stopping each handler before its entries go. */
    method CleanupHandlers(maxClean: int)
      requires Sound(State())
      modifies this
      ensures State() == Cleanup(old(State()), maxClean)
    {
      ghost var before, state, k: nat := State(), State(), |lru|;
      NothingCleaned(before);
      var numCleaned := 0;
      var cursor := Back(lru);
      while cursor.Some? && numCleaned < maxClean
        invariant State() == state && Cleaned(before, state, k, cursor)
        invariant numCleaned == |before.lru| - k && (numCleaned == 0 || numCleaned <= maxClean)
        decreases k
      {
        OneRound(before, state, k, cursor.value);
        state := RemoveNode(StopHandler(state, cursor.value.elem.hid), cursor.value);
        cursor := StopAndRemove(cursor.value);
        numCleaned := numCleaned + 1;
        k := k - 1;
      }
      assert cursor.None? ==> k == 0;
      assert k == Kept(before, maxClean);
    }

    /** The body of the cleaning loop; the cursor is advanced before the node goes. */
    method StopAndRemove(node: Node) returns (next: Option<Node>)
      modifies this
      ensures State() == RemoveNode(StopHandler(old(State()), node.elem.hid), node)
      ensures next == Prev(old(lru), node)
    {
      if node.elem.hid < |handlers| {
        handlers := handlers[node.elem.hid := handlers[node.elem.hid].(stopped := true)];
      }
      next := Prev(lru, node);
      lru := Without(lru, node);
      lrumap := lrumap - {node.elem.uid};
      elements := elements - {node.elem.uid};
    }

    method StopHandlers()
      requires Valid()
      modifies this
      ensures Valid() && State() == Cleanup(old(State()), |old(lru)|)
    {
      ghost var before := State();
      TightIsSound(before);
      CleanupHandlers(|lru|);
      KeepTight(before, 0);
    }

    method Insert(uid: string) returns (element: Element)
      modifies this
      ensures State() == Add(old(State()), uid) && element == NewElement(old(State()), uid)
    {
      element := Element(uid, |handlers|);
      handlers := handlers + [Handler(uid, false)];
      elements := elements[uid := element];
      var listElement := Node(nextNode, element);
      lru := [listElement] + lru;
      nextNode := nextNode + 1;
      lrumap := lrumap[uid := listElement];
    }

    /** The element of a user, opened if need be; `dirOk` and `dbOk` are what the file system answers. */
    method GetElement(uid: string, dirOk: bool, dbOk: bool) returns (out: Outcome)
      requires Valid()
      modifies this
      ensures Valid() && State() == GetPool(old(State()), maxPoolSize, uid, dirOk, dbOk)
      ensures out == GetOutcome(old(State()), maxPoolSize, uid, dirOk, dbOk)
    {
      ghost var before := State();
      if uid !in elements {
        if !dirOk { return Failed; }
        if |lru| > maxPoolSize {
          TightIsSound(before);
          CleanupHandlers(CleanCount(maxPoolSize));
          KeepTight(before, Kept(before, CleanCount(maxPoolSize)));
        }
        if !dbOk { return Failed; }
        AddKeepsTight(State(), uid);
        var element := Insert(uid);
        return Got(element, true);
      } else {
        var element := elements[uid];
        assert UserAgrees(before, uid);
        if element.hid < |handlers| && handlers[element.hid].stopped { return ElementStopped; }
        MoveKeepsTight(before, uid);
        var listElement := lrumap[uid];
        lru := [listElement] + Without(lru, listElement);
        assert State() == MoveToFront(before, before.lrumap[uid]);
        return Got(element, false);
      }
    }
  }
}
