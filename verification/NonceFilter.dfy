/**
  The replay guard: two Bloom filters that take turns, so that a nonce accepted once is
  refused for at least the rotation period.
 */
module NonceFilter {
  /** The base hashes: of four seeds and a key. */
  type Hash = (nat, string) -> nat

  // ------------------------------------------------------------ one Bloom filter

  /** The bit a key sets in round i of k, in 64-bit arithmetic. */
  function Location(hash: Hash, key: string, i: nat, m: nat): (l: nat)
    requires m > 0
    ensures l < m
  {
    (hash(i % 2, key) + i * hash(2 + (i + i % 2) % 4 / 2, key)) % 0x1_0000_0000_0000_0000 % m
  }

  /** Every bit of the key is set. */
  predicate Has(bits: seq<bool>, hash: Hash, k: nat, key: string)
    requires |bits| > 0
  {
    forall i :: 0 <= i < k ==> bits[Location(hash, key, i, |bits|)]
  }

  /** No bit is lost. */
  predicate Includes(bits: seq<bool>, more: seq<bool>) {
    |bits| == |more| && forall j :: 0 <= j < |bits| && bits[j] ==> more[j]
  }

  /** The bits after adding a key: those of the key, and otherwise the same. */
  predicate Added(bits: seq<bool>, hash: Hash, k: nat, key: string, after: seq<bool>)
    requires |bits| > 0
  {
    && |after| == |bits|
    && forall j :: 0 <= j < |bits| ==> (after[j] <==> bits[j] || exists i :: 0 <= i < k && j == Location(hash, key, i, |bits|))
  }

  lemma AddedHas(bits: seq<bool>, hash: Hash, k: nat, key: string, after: seq<bool>)
    requires |bits| > 0 && Added(bits, hash, k, key, after)
    ensures Has(after, hash, k, key) && Includes(bits, after)
  {}

  lemma IncludesHas(bits: seq<bool>, more: seq<bool>, hash: Hash, k: nat, key: string)
    requires |bits| > 0 && Includes(bits, more) && Has(bits, hash, k, key)
    ensures Has(more, hash, k, key)
  {
    forall i | 0 <= i < k ensures more[Location(hash, key, i, |more|)] {
      assert bits[Location(hash, key, i, |bits|)];
    }
  }

  function NoBits(m: nat): (bits: seq<bool>)
    ensures |bits| == m && forall j :: 0 <= j < m ==> !bits[j]
  {
    seq(m, _ => false)
  }

  class BloomFilter {
    const m: nat
    const k: nat
    const hash: Hash
    const bits: array<bool>

    ghost predicate Valid() {
      m > 0 && bits.Length == m
    }

    constructor (m: nat, k: nat, hash: Hash)
      requires m > 0
      ensures Valid() && this.m == m && this.k == k && this.hash == hash
      ensures fresh(bits) && bits[..] == NoBits(m)
    {
      this.m, this.k, this.hash := m, k, hash;
      bits := new bool[m](_ => false);
    }

    method Add(key: string)
      requires Valid()
      modifies bits
      ensures Added(old(bits[..]), hash, k, key, bits[..])
    {
      var i := 0;
      while i < k
        invariant i <= k && Added(old(bits[..]), hash, i, key, bits[..])
      {
        bits[Location(hash, key, i, m)] := true;
        i := i + 1;
      }
    }

    method Test(key: string) returns (found: bool)
      requires Valid()
      ensures found == Has(bits[..], hash, k, key)
    {
      var i := 0;
      while i < k
        invariant i <= k && Has(bits[..], hash, i, key)
      {
        if !bits[Location(hash, key, i, m)] { return false; }
        i := i + 1;
      }
      return true;
    }

    method ClearAll()
      requires Valid()
      modifies bits
      ensures bits[..] == NoBits(m)
    {
      var i := 0;
      while i < m
        invariant i <= m && forall j :: 0 <= j < i ==> !bits[j]
      {
        bits[i] := false;
        i := i + 1;
      }
    }
  }

  // -------------------------------------------------------------- the two filters

  datatype Filters = Filters(current: seq<bool>, previous: seq<bool>, lastRotate: int)

  /** The parameters of both filters and how long they go between rotations. */
  datatype Setup = Setup(m: nat, k: nat, hash: Hash, halflife: nat)

  predicate Fits(f: Filters, c: Setup) {
    c.m > 0 && |f.current| == c.m && |f.previous| == c.m
  }

  /** The current filter becomes the previous one; the other is cleared and takes its place. */
  function Rotated(f: Filters, c: Setup, now: int): Filters {
    if now - f.lastRotate > c.halflife then Filters(NoBits(c.m), f.current, now) else f
  }

  predicate Seen(f: Filters, c: Setup, key: string)
    requires Fits(f, c)
  {
    Has(f.current, c.hash, c.k, key) || Has(f.previous, c.hash, c.k, key)
  }

  /** One check of a key: rotate when due, refuse a key either filter has, otherwise record it. */
  predicate Checked(f: Filters, c: Setup, key: string, now: int, accepted: bool, after: Filters)
    requires Fits(f, c)
  {
    var g := Rotated(f, c, now);
    && accepted == !Seen(g, c, key)
    && after.previous == g.previous && after.lastRotate == g.lastRotate
    && if accepted then Added(g.current, c.hash, c.k, key, after.current) else after.current == g.current
  }

  class HawkHandler {
    var bloomNow: BloomFilter
    var bloomPrev: BloomFilter
    const halflife: nat
    var lastRotate: int

    function State(): Filters
      reads this, bloomNow.bits, bloomPrev.bits
    {
      Filters(bloomNow.bits[..], bloomPrev.bits[..], lastRotate)
    }

    function Settings(): Setup
      reads this
    {
      Setup(bloomNow.m, bloomNow.k, bloomNow.hash, halflife)
    }

    ghost predicate Valid()
      reads this
    {
      && bloomNow.Valid() && bloomPrev.Valid() && bloomNow.bits != bloomPrev.bits
      && bloomNow.m == bloomPrev.m && bloomNow.k == bloomPrev.k && bloomNow.hash == bloomPrev.hash
    }

    constructor (m: nat, k: nat, hash: Hash, halflife: nat, now: int)
      requires m > 0
      ensures Valid() && Settings() == Setup(m, k, hash, halflife)
      ensures State() == Filters(NoBits(m), NoBits(m), now)
    {
      bloomPrev := new BloomFilter(m, k, hash);
      bloomNow := new BloomFilter(m, k, hash);
      this.halflife := halflife;
      lastRotate := now;
    }

    /** Swaps the two filters and clears the one that becomes current. */
    method Rotate(now: int)
      requires Valid()
      modifies this, bloomNow.bits, bloomPrev.bits
      ensures Valid() && Settings() == old(Settings()) && State() == Rotated(old(State()), Settings(), now)
      ensures {bloomNow, bloomPrev} == {old(bloomNow), old(bloomPrev)}
    {
      if now - lastRotate > halflife {
        bloomNow, bloomPrev := bloomPrev, bloomNow;
        bloomNow.ClearAll();
        lastRotate := now;
      }
    }

    /** True when the key has not been seen: then it is recorded. */
    method NonceNotFound(key: string, now: int) returns (accepted: bool)
      requires Valid()
      modifies this, bloomNow.bits, bloomPrev.bits
      ensures Valid() && Settings() == old(Settings())
      ensures Checked(old(State()), Settings(), key, now, accepted, State())
    {
      Rotate(now);
      var inNow := bloomNow.Test(key);
      var inPrev := bloomPrev.Test(key);
      accepted := !(inNow || inPrev);
      if accepted { bloomNow.Add(key); }
    }
  }

  // ------------------------------------------------------------------ retention

  datatype Check = Check(key: string, now: int, accepted: bool)

  /** Checks one after the other: states[i] is before check i, and the clock does not go back. */
  ghost predicate History(c: Setup, checks: seq<Check>, states: seq<Filters>) {
    && |states| == |checks| + 1
    && (forall i :: 0 <= i < |states| ==> Fits(states[i], c))
    && (forall i :: 0 <= i < |checks| ==> Checked(states[i], c, checks[i].key, checks[i].now, checks[i].accepted, states[i + 1]))
    && (forall i, j :: 0 <= i < j < |checks| ==> checks[i].now <= checks[j].now)
  }

  /** A key accepted at time t is still in the current filter, or in the previous one since after t. */
  predicate Retained(f: Filters, c: Setup, key: string, t: int)
    requires Fits(f, c)
  {
    || (Has(f.current, c.hash, c.k, key) && t - f.lastRotate <= c.halflife)
    || (Has(f.previous, c.hash, c.k, key) && f.lastRotate > t)
  }

  lemma AcceptedIsRetained(f: Filters, c: Setup, key: string, now: int, after: Filters)
    requires Fits(f, c) && Fits(after, c) && Checked(f, c, key, now, true, after)
    ensures Retained(after, c, key, now)
  {
    AddedHas(Rotated(f, c, now).current, c.hash, c.k, key, after.current);
  }

  /** Until the period after t is over, a retained key is refused and stays retained. */
  lemma RetainedIsRefused(f: Filters, c: Setup, key: string, t: int, other: string, now: int, accepted: bool, after: Filters)
    requires Fits(f, c) && Fits(after, c) && Retained(f, c, key, t) && t <= now <= t + c.halflife + 1
    requires Checked(f, c, other, now, accepted, after)
    ensures Retained(after, c, key, t) && (other == key ==> !accepted)
  {
    var g := Rotated(f, c, now);
    if accepted {
      AddedHas(g.current, c.hash, c.k, other, after.current);
      if Has(g.current, c.hash, c.k, key) { IncludesHas(g.current, after.current, c.hash, c.k, key); }
    }
  }

  lemma {:induction false} StaysRetained(c: Setup, checks: seq<Check>, states: seq<Filters>, i: nat, j: nat)
    requires History(c, checks, states) && i < j <= |checks| && checks[i].accepted
    requires forall n :: i < n < j ==> checks[n].now <= checks[i].now + c.halflife + 1
    ensures Retained(states[j], c, checks[i].key, checks[i].now)
    decreases j
  {
    if j == i + 1 {
      AcceptedIsRetained(states[i], c, checks[i].key, checks[i].now, states[j]);
    } else {
      StaysRetained(c, checks, states, i, j - 1);
      var x := checks[j - 1];
      RetainedIsRefused(states[j - 1], c, checks[i].key, checks[i].now, x.key, x.now, x.accepted, states[j]);
    }
  }

  /**
    In every history a key accepted at time t is refused each time it comes again until
    one tick past t plus the rotation period, whatever other keys come in between.
   */
  lemma ReplaysRefused(c: Setup, checks: seq<Check>, states: seq<Filters>, i: nat, j: nat)
    requires History(c, checks, states) && i < j < |checks|
    requires checks[i].accepted && checks[j].key == checks[i].key && checks[j].now <= checks[i].now + c.halflife + 1
    ensures !checks[j].accepted
  {
    StaysRetained(c, checks, states, i, j);
    RetainedIsRefused(states[j], c, checks[i].key, checks[i].now, checks[j].key, checks[j].now, checks[j].accepted, states[j + 1]);
  }

  /** One tick later it can be accepted again: two rotations have cleared it. */
  lemma ForgottenAfterTwoRotations(c: Setup, key: string, start: int) returns (checks: seq<Check>, states: seq<Filters>)
    requires c.m > 0 && c.k > 0
    ensures History(c, checks, states) && |checks| == 3
    ensures checks[0] == Check(key, start + c.halflife, true)
    ensures checks[2] == Check(key, checks[0].now + c.halflife + 2, true)
  {
    var none, t := NoBits(c.m), start + c.halflife;
    var some := seq(c.m, j requires 0 <= j < c.m => exists i :: 0 <= i < c.k && j == Location(c.hash, key, i, c.m));
    NotIn(c, key);
    AddedHas(none, c.hash, c.k, key, some);
    states := [Filters(none, none, start), Filters(some, none, start), Filters(none, some, t + 1), Filters(some, none, t + c.halflife + 2)];
    checks := [Check(key, t, true), Check(key, t + 1, false), Check(key, t + c.halflife + 2, true)];
  }

  lemma NotIn(c: Setup, key: string)
    requires c.m > 0 && c.k > 0
    ensures !Has(NoBits(c.m), c.hash, c.k, key)
  {
    assert !NoBits(c.m)[Location(c.hash, key, 0, c.m)];
  }
}
