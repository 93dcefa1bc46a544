/**
  What a user's records take up: the per-collection report, the quota figure and the
  stored payloads always add up to the same number of bytes.
 */
module Usage {
  import opened Prelude
  import opened Tables
  import opened Requests
  import opened Runs

  /** The sum of the values of a map. */
  ghost function Total<K>(m: map<K, int>): int
    decreases |m|
  {
    if m == map[] then 0 else var k :| k in m; m[k] + Total(m - {k})
  }

  /** Whichever entry is taken first, the sum is the same. */
  lemma {:induction false} TotalTakes<K>(m: map<K, int>, k: K)
    requires k in m
    ensures Total(m) == m[k] + Total(m - {k})
    decreases |m|
  {
    var first :| first in m && Total(m) == m[first] + Total(m - {first});
    if first != k {
      TotalTakes(m - {first}, k);
      TotalTakes(m - {k}, first);
      assert m - {first} - {k} == m - {k} - {first};
    }
  }

  // ------------------------------------------------------------------ reports

  ghost function SizeColumn(bsos: map<Key, Bso>): map<Key, int> {
    map k | k in bsos :: bsos[k].payloadSize
  }

  ghost function PayloadLengths(bsos: map<Key, Bso>): map<Key, int> {
    map k | k in bsos :: Utf8Len(bsos[k].payload)
  }

  /** The entries of one collection. */
  ghost function Within(m: map<Key, int>, cid: int): map<Key, int> {
    map k | k in m && k.cid == cid :: m[k]
  }

  ghost function Outside(m: map<Key, int>, cid: int): map<Key, int> {
    map k | k in m && k.cid != cid :: m[k]
  }

  /** The sum of the size column. */
  ghost function InfoQuota(st: Store): int {
    Total(SizeColumn(st.bsos))
  }

  predicate HasRows(st: Store, cid: int) {
    exists k :: k in st.bsos && k.cid == cid
  }

  /** Records joined with their collections and grouped: empty collections do not appear. */
  ghost function InfoCollectionUsage(st: Store): map<string, int> {
    map n | n in st.names && HasRows(st, st.names[n]) :: Total(Within(SizeColumn(st.bsos), st.names[n]))
  }

  /** The quota handler adds up the per-collection report. */
  method QuotaUsed(results: map<string, int>) returns (used: int)
    ensures used == Total(results)
  {
    used := 0;
    var rest := results;
    while rest != map[]
      invariant used + Total(rest) == Total(results)
      decreases |rest|
    {
      var n :| n in rest;
      TotalTakes(rest, n);
      used := used + rest[n];
      rest := rest - {n};
    }
  }

  // ------------------------------------------------------------- conservation

  lemma WithinLess(m: map<Key, int>, k: Key)
    requires k in m
    ensures Within(m - {k}, k.cid) == Within(m, k.cid) - {k}
    ensures Outside(m - {k}, k.cid) == Outside(m, k.cid)
  {}

  /** Taking one collection out of a sum. */
  lemma {:induction false} TotalSplits(m: map<Key, int>, cid: int)
    ensures Total(m) == Total(Within(m, cid)) + Total(Outside(m, cid))
    decreases |m|
  {
    if Within(m, cid) == map[] {
      NoneWithin(m, cid);
    } else {
      var k :| k in Within(m, cid);
      TotalTakes(m, k);
      TotalTakes(Within(m, cid), k);
      WithinLess(m, k);
      TotalSplits(m - {k}, cid);
    }
  }

  lemma NoneWithin(m: map<Key, int>, cid: int)
    requires Within(m, cid) == map[]
    ensures Outside(m, cid) == m
  {
    forall k | k in m ensures k.cid != cid {
      assert k.cid == cid ==> k in Within(m, cid);
    }
  }

  /** Names and ids correspond one to one, and every entry has its name. */
  ghost predicate Covers(names: map<string, int>, m: map<Key, int>) {
    && (forall a, b :: a in names && b in names && names[a] == names[b] ==> a == b)
    && forall k :: k in m ==> exists n :: n in names && names[n] == k.cid
  }

  ghost function ByName(names: map<string, int>, m: map<Key, int>): map<string, int> {
    map n | n in names :: Total(Within(m, names[n]))
  }

  /** Summing by name and then over the names is summing everything. */
  lemma {:induction false} TotalByName(names: map<string, int>, m: map<Key, int>)
    requires Covers(names, m)
    ensures Total(ByName(names, m)) == Total(m)
    decreases |names|
  {
    if names == map[] {
      assert m == map[];
    } else {
      var n :| n in names;
      FewerNames(names, m, n);
      TotalSplits(m, names[n]);
      TotalByName(names - {n}, Outside(m, names[n]));
      TotalTakes(ByName(names, m), n);
    }
  }

  lemma FewerNames(names: map<string, int>, m: map<Key, int>, n: string)
    requires Covers(names, m) && n in names
    ensures Covers(names - {n}, Outside(m, names[n]))
    ensures ByName(names, m) - {n} == ByName(names - {n}, Outside(m, names[n]))
  {
    var fewer, less := names - {n}, Outside(m, names[n]);
    forall k | k in less ensures exists o :: o in fewer && fewer[o] == k.cid {
      var o :| o in names && names[o] == k.cid;
      assert o in fewer;
    }
    forall o | o in fewer ensures Within(less, names[o]) == Within(m, names[o]) {
      assert names[o] != names[n];
    }
  }

  /** The report, the quota and the payloads agree. */
  lemma UsageConserved(st: Store)
    requires Consistent(st)
    ensures Total(InfoCollectionUsage(st)) == InfoQuota(st) == Total(PayloadLengths(st.bsos))
  {
    NamesCover(st);
    TotalByName(UsedNames(st), SizeColumn(st.bsos));
    SizesAreLengths(st);
  }

  ghost function UsedNames(st: Store): map<string, int> {
    map n | n in st.names && HasRows(st, st.names[n]) :: st.names[n]
  }

  lemma NamesCover(st: Store)
    requires Consistent(st)
    ensures Covers(UsedNames(st), SizeColumn(st.bsos))
    ensures InfoCollectionUsage(st) == ByName(UsedNames(st), SizeColumn(st.bsos))
  {
    forall k | k in SizeColumn(st.bsos) ensures exists n :: n in UsedNames(st) && UsedNames(st)[n] == k.cid {
      assert RowOk(st, k, st.bsos[k]);
      assert HasRows(st, k.cid);
      assert st.collections[k.cid].name in UsedNames(st);
    }
  }

  lemma SizesAreLengths(st: Store)
    requires Consistent(st)
    ensures SizeColumn(st.bsos) == PayloadLengths(st.bsos)
  {
    forall k | k in st.bsos ensures st.bsos[k].payloadSize == Utf8Len(st.bsos[k].payload) {
      assert RowOk(st, k, st.bsos[k]);
    }
  }

  /** Each entry of the report is what that collection's payloads take. */
  lemma UsageOfEach(st: Store, name: string)
    requires Consistent(st)
    ensures name in InfoCollectionUsage(st) <==> exists k :: k in st.bsos && st.collections[k.cid].name == name
    ensures name in InfoCollectionUsage(st) ==>
              InfoCollectionUsage(st)[name] == Total(Within(PayloadLengths(st.bsos), st.names[name]))
  {
    forall k | k in st.bsos ensures RowOk(st, k, st.bsos[k]) {}
    if name in InfoCollectionUsage(st) {
      var k :| k in st.bsos && k.cid == st.names[name];
      assert st.collections[k.cid].name == name;
      SizesAreLengths(st);
    }
  }

  /** From a new database, in every run, the quota handler reports exactly the stored payloads. */
  lemma UsageInEveryRun(st: Store, clock: nat, cfg: Config, steps: seq<Step>)
    requires Fresh(st) && ValidRun(Server(st, None, false, clock), cfg, steps)
    ensures var now := Run(Server(st, None, false, clock), cfg, steps).store;
            Total(InfoCollectionUsage(now)) == InfoQuota(now) == Total(PayloadLengths(now.bsos))
  {
    ReachableInv(st, clock, cfg, steps);
    UsageConserved(Run(Server(st, None, false, clock), cfg, steps).store);
  }
}
