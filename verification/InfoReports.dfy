/**
  info/collections: which collections it names and with which stamps, over whole runs,
  and that its text says just that.
 */
module InfoReports {
  import opened Prelude
  import opened Timestamps
  import opened Tables
  import opened Sql
  import opened Requests
  import opened Runs
  import opened Sync
  import opened InfoCache
  import Decimal

  // ------------------------------------------------------------------ one answer

  const INFO := InfoCollections(Headers("", ""))

  /** The Collections table has a row with this name and this stamp. */
  ghost predicate HasStamp(st: Store, name: string, stamp: int) {
    exists c :: c in st.collections && st.collections[c].name == name && st.collections[c].modified == stamp
  }

  lemma NamesAreRows(st: Store, name: string, stamp: int)
    requires Consistent(st)
    ensures HasStamp(st, name, stamp) <==> name in st.names && CollectionStamp(st, st.names[name]) == stamp
  {
    if name in st.names && CollectionStamp(st, st.names[name]) == stamp {
      assert st.collections[st.names[name]].name == name;
    }
  }

  /** The answer names exactly the collections whose row has a stamp other than 0, each with its own. */
  lemma InfoAnswers(sv: Server, cfg: Config, tm: Times, arrange: Arrange)
    requires Inv(sv) && !sv.stopped
    ensures var resp := Answer(sv, cfg, INFO, tm, arrange);
            && resp.status == 200 && resp.lastModified == Some(sv.store.storage) && resp.body.Info?
            && forall name, stamp {:trigger HasStamp(sv.store, name, stamp)} ::
                 name in resp.body.stamps && resp.body.stamps[name] == stamp <==> stamp != 0 && HasStamp(sv.store, name, stamp)
  {
    var resp := Answer(sv, cfg, INFO, tm, arrange);
    forall name, stamp: int
      ensures name in resp.body.stamps && resp.body.stamps[name] == stamp <==> stamp != 0 && HasStamp(sv.store, name, stamp)
    {
      NamesAreRows(sv.store, name, stamp);
    }
  }

  // ------------------------------------------------------------------- over runs

  /** The stamp an operation gives a collection, if it gives it one. */
  function Moved(st: Store, e: Effect, cid: int): Option<int> {
    match e
    case CreateCollection(name, now) => if name !in st.names && st.nextCid == cid then Some(now) else None
    case PostBSOs(c, _, now) => if c == cid && cid in st.collections then Some(now) else None
    case DeleteBSOs(c, _, now) => if c == cid && cid in st.collections then Some(now) else None
    case DeleteCollection(c, _) => if c == cid && cid in st.collections then Some(0) else None
    case _ => None
  }

  /** The stamp the last such operation gave it: that of a put, post, commit or delete by id, its creation, or 0. */
  function LastMoved(st: Store, es: seq<Effect>, cid: int): Option<int> {
    if es == [] then None
    else
      var n := |es| - 1;
      var last := Moved(ApplyAll(st, es[..n]), es[n], cid);
      if last.Some? then last else LastMoved(st, es[..n], cid)
  }

  lemma MovedOne(st: Store, e: Effect, cid: int)
    ensures CollectionStamp(Apply(st, e), cid) == if Moved(st, e, cid).Some? then Moved(st, e, cid).value else CollectionStamp(st, cid)
  {}

  lemma {:induction false} StampIsLastMoved(st: Store, es: seq<Effect>, cid: int)
    ensures CollectionStamp(ApplyAll(st, es), cid) == if LastMoved(st, es, cid).Some? then LastMoved(st, es, cid).value else CollectionStamp(st, cid)
  {
    if es != [] {
      var n := |es| - 1;
      StampIsLastMoved(st, es[..n], cid);
      MovedOne(ApplyAll(st, es[..n]), es[n], cid);
    }
  }

  /**
    After any run info/collections reports a collection, also one made in the run, with
    the stamp the last put, post, commit or delete by id gave it, else that of its
    creation, else the one from before the run, and leaves it out when that is 0: never
    stamped, or deleted whole with nothing since.
   */
  lemma InfoAfterRun(sv: Server, cfg: Config, steps: seq<Step>, name: string, tm: Times, arrange: Arrange)
    requires Inv(sv) && ValidRun(sv, cfg, steps) && !Run(sv, cfg, steps).stopped && name in Run(sv, cfg, steps).store.names
    ensures var s2 := Run(sv, cfg, steps);
            var cid := s2.store.names[name];
            var last := LastMoved(sv.store, Log(sv, cfg, steps), cid);
            var stamp := if last.Some? then last.value else CollectionStamp(sv.store, cid);
            var stamps := Answer(s2, cfg, INFO, tm, arrange).body;
            && stamps.Info? && (name in stamps.stamps <==> stamp != 0) && (stamp != 0 ==> stamps.stamps[name] == stamp)
  {
    var s2 := Run(sv, cfg, steps);
    var cid := s2.store.names[name];
    RunKeeps(sv, cfg, steps);
    RunAppliesLog(sv, cfg, steps);
    StampIsLastMoved(sv.store, Log(sv, cfg, steps), cid);
    InfoAnswers(s2, cfg, tm, arrange);
    NamesAreRows(s2.store, name, CollectionStamp(s2.store, cid));
    if name in Answer(s2, cfg, INFO, tm, arrange).body.stamps {
      NamesAreRows(s2.store, name, Answer(s2, cfg, INFO, tm, arrange).body.stamps[name]);
    }
  }

  /** Of a collection that was there before, told by the last mark on it. */
  lemma InfoByLastMark(sv: Server, cfg: Config, steps: seq<Step>, name: string, tm: Times, arrange: Arrange)
    requires Inv(sv) && ValidRun(sv, cfg, steps) && !Run(sv, cfg, steps).stopped && !sv.stopped && name in sv.store.names
    ensures var s2, cid := Run(sv, cfg, steps), sv.store.names[name];
            var before, after := Answer(sv, cfg, INFO, tm, arrange).body, Answer(s2, cfg, INFO, tm, arrange).body;
            && before.Info? && after.Info?
            && match LastMark(Log(sv, cfg, steps), cid)
               case Untouched => (name in after.stamps <==> name in before.stamps) && (name in before.stamps ==> after.stamps[name] == before.stamps[name])
               case Touched => name in after.stamps && StampLimit(sv) < after.stamps[name]
               case Reset => name !in after.stamps
  {
    var s2, cid, log := Run(sv, cfg, steps), sv.store.names[name], Log(sv, cfg, steps);
    RunKeeps(sv, cfg, steps);
    RunAppliesLog(sv, cfg, steps);
    NamesStay(sv.store, log, name);
    StampAfter(sv.store, log, cid, StampLimit(sv));
    InfoOf(sv, cfg, name, tm, arrange);
    InfoOf(s2, cfg, name, tm, arrange);
  }

  lemma InfoOf(sv: Server, cfg: Config, name: string, tm: Times, arrange: Arrange)
    requires Inv(sv) && !sv.stopped && name in sv.store.names
    ensures var stamp, body := CollectionStamp(sv.store, sv.store.names[name]), Answer(sv, cfg, INFO, tm, arrange).body;
            body.Info? && (name in body.stamps <==> stamp != 0) && (stamp != 0 ==> body.stamps[name] == stamp)
  {
    InfoAfterRun(sv, cfg, [], name, tm, arrange);
  }

  // -------------------------------------------------------------- the storage stamp

  /** The stamp an operation gives the storage, if it gives it one. */
  function MovedStorage(e: Effect): Option<int> {
    if e.PostBSOs? || e.DeleteBSOs? || e.DeleteCollection? then Some(e.now) else None
  }

  function LastStorage(es: seq<Effect>): Option<int> {
    if es == [] then None
    else if MovedStorage(es[|es| - 1]).Some? then MovedStorage(es[|es| - 1]) else LastStorage(es[..|es| - 1])
  }

  lemma {:induction false} StorageIsLast(st: Store, es: seq<Effect>)
    ensures ApplyAll(st, es).storage == if LastStorage(es).Some? then LastStorage(es).value else st.storage
  {
    if es != [] {
      var n := |es| - 1;
      StorageIsLast(st, es[..n]);
      StorageMoved(ApplyAll(st, es[..n]), es[n]);
    }
  }

  lemma StorageMoved(st: Store, e: Effect)
    ensures Apply(st, e).storage == if MovedStorage(e).Some? then MovedStorage(e).value else st.storage
  {}

  /** After any run the header is the stamp of the last put, post, commit or delete, except delete-everything. */
  lemma InfoHeaderAfterRun(sv: Server, cfg: Config, steps: seq<Step>, tm: Times, arrange: Arrange)
    requires Inv(sv) && ValidRun(sv, cfg, steps) && !Run(sv, cfg, steps).stopped
    ensures var last := LastStorage(Log(sv, cfg, steps));
            Answer(Run(sv, cfg, steps), cfg, INFO, tm, arrange).lastModified == Some(if last.Some? then last.value else sv.store.storage)
  {
    RunKeeps(sv, cfg, steps);
    RunAppliesLog(sv, cfg, steps);
    StorageIsLast(sv.store, Log(sv, cfg, steps));
    InfoAnswers(Run(sv, cfg, steps), cfg, tm, arrange);
  }

  // ------------------------------------------------------------------- the text

  /** Where the first of these characters is; the length when there is none. */
  function Until(text: string, stops: set<char>): (i: nat)
    ensures i <= |text| && (i < |text| ==> text[i] in stops)
    ensures forall j :: 0 <= j < i ==> text[j] !in stops
  {
    if text == [] || text[0] in stops then 0 else 1 + Until(text[1..], stops)
  }

  type Pair = (string, string)

  /** `"name":` at the front, and what follows it. */
  function ReadName(text: string): (r: Option<(string, string)>)
    ensures r.Some? ==> |r.value.1| < |text|
  {
    if text == [] || text[0] != '"' then None
    else
      var i := Until(text[1..], {'"'});
      var rest := text[1..][i..];
      if |rest| < 2 || rest[1] != ':' then None else Some((text[1..][..i], rest[2..]))
  }

  /** One `"name":value`, the comma or brace after it, and what follows. */
  function ReadPair(text: string): (r: Option<(Pair, char, string)>)
    ensures r.Some? ==> |r.value.2| < |text|
  {
    match ReadName(text)
    case None => None
    case Some((name, rest)) =>
      var i := Until(rest, {',', '}'});
      if i == |rest| then None else Some(((name, rest[..i]), rest[i], rest[i + 1..]))
  }

  /** The names and values of an object without its opening brace. */
  function ReadPairs(text: string): Option<seq<Pair>>
    decreases |text|
  {
    match ReadPair(text)
    case None => None
    case Some((p, c, rest)) =>
      if c == '}' then (if rest == [] then Some([p]) else None)
      else
        match ReadPairs(rest)
        case None => None
        case Some(more) => Some([p] + more)
  }

  function ReadInfo(text: string): Option<seq<Pair>> {
    if text == "{}" then Some([]) else if text == [] || text[0] != '{' then None else ReadPairs(text[1..])
  }

  predicate Free(text: string, stops: set<char>) {
    forall i :: 0 <= i < |text| ==> text[i] !in stops
  }

  lemma UntilAt(a: string, c: char, rest: string, stops: set<char>)
    requires Free(a, stops) && c in stops
    ensures Until(a + [c] + rest, stops) == |a|
  {
    var text := a + [c] + rest;
    assert text[|a|] == c;
    forall j | 0 <= j < |a| ensures text[j] !in stops { assert text[j] == a[j]; }
  }

  lemma StampTextFree(stamp: int)
    ensures Free(StampText(stamp), {',', '}'})
  {
    if stamp >= 0 {
      var f := NearestDouble(stamp, 1000);
      HundredthsFree(RoundDiv(100 * f.mant, Pow2(f.shift)));
    }
  }

  lemma HundredthsFree(k: nat)
    ensures Free(Hundredths(k), {',', '}'})
  {
    var whole, tail := Decimal.Digits(k / 100), "." + [Decimal.DigitChar(k % 100 / 10), Decimal.DigitChar(k % 10)];
    assert Hundredths(k) == whole + tail;
    forall i | 0 <= i < |whole| ensures Decimal.IsDigit(whole[i]) {}
  }

  lemma ReadsName(name: string, rest: string)
    requires Free(name, {'"'})
    ensures ReadName("\"" + name + "\":" + rest) == Some((name, rest))
  {
    var text := "\"" + name + "\":" + rest;
    var body := name + ['"'] + (":" + rest);
    assert text[1..] == body;
    UntilAt(name, '"', ":" + rest, {'"'});
    assert body[|name|..] == "\":" + rest && body[..|name|] == name;
    assert ("\":" + rest)[2..] == rest;
  }

  /** The pairs a report should have. */
  function PairsOf(order: seq<string>, stamps: map<string, int>): seq<Pair> {
    Map(n => (n, StampText(if n in stamps then stamps[n] else 0)), order)
  }

  ghost predicate PlainNames(order: seq<string>) {
    forall i :: 0 <= i < |order| ==> Free(order[i], {'"'})
  }

  lemma ReadsOne(name: string, value: string, c: char, rest: string)
    requires Free(name, {'"'}) && Free(value, {',', '}'}) && c in {',', '}'}
    ensures var text := "\"" + name + "\":" + value + [c] + rest;
            ReadName(text) == Some((name, value + [c] + rest)) && Until(value + [c] + rest, {',', '}'}) == |value|
  {
    assert "\"" + name + "\":" + value + [c] + rest == "\"" + name + "\":" + (value + [c] + rest);
    ReadsName(name, value + [c] + rest);
    UntilAt(value, c, rest, {',', '}'});
  }

  function PairText(p: Pair): string {
    "\"" + p.0 + "\":" + p.1
  }

  /** The members of an object with its closing brace. */
  function PairsText(ps: seq<Pair>): string {
    if ps == [] then "}" else PairText(ps[0]) + if |ps| == 1 then "}" else "," + PairsText(ps[1..])
  }

  predicate PlainPair(p: Pair) {
    Free(p.0, {'"'}) && Free(p.1, {',', '}'})
  }

  lemma ReadsPair(p: Pair, c: char, rest: string)
    requires PlainPair(p) && c in {',', '}'}
    ensures ReadPair(PairText(p) + ([c] + rest)) == Some((p, c, rest))
  {
    ReadsOne(p.0, p.1, c, rest);
    PairThen(p, c, rest);
    PairFrom("\"" + p.0 + "\":" + p.1 + [c] + rest, p, p.1 + [c] + rest, c, rest);
  }

  lemma PairThen(p: Pair, c: char, rest: string)
    ensures PairText(p) + ([c] + rest) == "\"" + p.0 + "\":" + p.1 + [c] + rest
  {
    Associative(PairText(p), [c], rest);
  }

  lemma PairFrom(text: string, p: Pair, tail: string, c: char, rest: string)
    requires ReadName(text) == Some((p.0, tail)) && tail == p.1 + [c] + rest && Until(tail, {',', '}'}) == |p.1|
    ensures ReadPair(text) == Some((p, c, rest))
  {
    assert tail[..|p.1|] == p.1 && tail[|p.1| + 1..] == rest && tail[|p.1|] == c;
  }

  lemma PairsStep(text: string, p: Pair, rest: string, more: seq<Pair>)
    requires ReadPair(text) == Some((p, ',', rest)) && ReadPairs(rest) == Some(more)
    ensures ReadPairs(text) == Some([p] + more)
  {}

  lemma PairsEnd(text: string, p: Pair)
    requires ReadPair(text) == Some((p, '}', ""))
    ensures ReadPairs(text) == Some([p])
  {}

  lemma PairsTextIs(ps: seq<Pair>)
    requires ps != []
    ensures PairsText(ps) == PairText(ps[0]) + if |ps| == 1 then ['}'] + "" else [','] + PairsText(ps[1..])
  {}

  lemma {:induction false} ReadsPairs(ps: seq<Pair>)
    requires ps != [] && forall i :: 0 <= i < |ps| ==> PlainPair(ps[i])
    ensures ReadPairs(PairsText(ps)) == Some(ps)
  {
    if |ps| == 1 {
      ReadsSingle(ps);
    } else {
      ReadsPairs(ps[1..]);
      FirstPair(ps, PairsText(ps), PairsText(ps[1..]));
      PairsStep(PairsText(ps), ps[0], PairsText(ps[1..]), ps[1..]);
      assert ps == [ps[0]] + ps[1..];
    }
  }

  lemma ReadsSingle(ps: seq<Pair>)
    requires |ps| == 1 && PlainPair(ps[0])
    ensures ReadPairs(PairsText(ps)) == Some(ps)
  {
    PairsTextIs(ps);
    ReadsPair(ps[0], '}', "");
    PairsEnd(PairsText(ps), ps[0]);
    assert ps == [ps[0]];
  }

  lemma FirstPair(ps: seq<Pair>, text: string, rest: string)
    requires |ps| > 1 && PlainPair(ps[0]) && text == PairsText(ps) && rest == PairsText(ps[1..])
    ensures ReadPair(text) == Some((ps[0], ',', rest))
  {
    PairsTextIs(ps);
    ReadsPair(ps[0], ',', rest);
  }

  lemma {:induction false} MembersArePairs(order: seq<string>, stamps: map<string, int>)
    ensures Members(order, stamps) + "}" == PairsText(PairsOf(order, stamps))
  {
    if |order| > 1 {
      MembersArePairs(order[1..], stamps);
      assert PairsOf(order, stamps)[1..] == PairsOf(order[1..], stamps);
      CommaThen(Member(order[0], stamps), Members(order[1..], stamps));
    }
  }

  lemma CommaThen(a: string, b: string)
    ensures a + "," + b + "}" == a + ("," + (b + "}"))
  {}

  lemma PairsPlain(order: seq<string>, stamps: map<string, int>)
    requires PlainNames(order)
    ensures forall i :: 0 <= i < |order| ==> PlainPair(PairsOf(order, stamps)[i])
  {
    forall i | 0 <= i < |order| ensures PlainPair(PairsOf(order, stamps)[i]) {
      StampTextFree(if order[i] in stamps then stamps[order[i]] else 0);
    }
  }

  lemma ReadBraced(text: string, ps: seq<Pair>)
    requires ReadPairs(text) == Some(ps)
    ensures ReadInfo("{" + text) == Some(ps)
  {
    var all := "{" + text;
    assert all[1..] == text;
    assert all != "{}" by { assert text != "}"; }
  }

  /** The text of a report reads back as exactly its names and stamps. */
  lemma InfoTextReads(order: seq<string>, stamps: map<string, int>)
    requires PlainNames(order)
    ensures ReadInfo(InfoText(order, stamps)) == Some(PairsOf(order, stamps))
  {
    var ps := PairsOf(order, stamps);
    if order == [] {
      assert InfoText(order, stamps) == "{}" && ps == [];
    } else {
      PairsPlain(order, stamps);
      ReadsPairs(ps);
      MembersArePairs(order, stamps);
      ReadBraced(PairsText(ps), ps);
      Braced(Members(order, stamps));
    }
  }

  lemma Braced(a: string)
    ensures "{" + a + "}" == "{" + (a + "}")
  {}
}
