/**
  How much one commit can store: n records, each within every limit that applies to it
  alone, up to n times the longest payload that fits, whatever the byte limit says.
 */
module CommitTotals {
  import opened Prelude
  import opened Tables
  import opened Json
  import opened Records
  import opened BatchLines
  import opened Requests
  import opened BatchProtocol
  import opened BatchLimits
  import Decimal

  // ------------------------------------------------------- the length of a line

  lemma {:induction false} EscapeLonger(s: string)
    ensures Utf8Len(EscapeAll(s)) >= Utf8Len(s)
  {
    if s != [] {
      EscapeLonger(s[1..]);
      LengthsAdd(Escape(s[0]), EscapeAll(s[1..]));
      LengthsAdd([s[0]], s[1..]);
      assert s == [s[0]] + s[1..];
      EscapeCharLonger(s[0]);
    }
  }

  lemma EscapeCharLonger(c: char)
    ensures Utf8Len(Escape(c)) >= Utf8Len([c])
  {
    assert [c][..0] == [];
    if Escape(c) != [c] { AsciiLength(Escape(c)); }
  }

  lemma {:induction false} AtLeastChars(s: string)
    ensures Utf8Len(s) >= |s|
  {
    if s != [] { AtLeastChars(s[..|s| - 1]); }
  }

  lemma QuoteLonger(s: string)
    ensures Utf8Len(Quote(s)) >= Utf8Len(s) + 2
  {
    EscapeLonger(s);
    LengthsAdd("\"" + EscapeAll(s), "\"");
    LengthsAdd("\"", EscapeAll(s));
    AsciiLength("\"");
  }

  /** A text member takes at least its key, its value, four quotes and a colon. */
  lemma TextMemberLonger(key: string, value: string)
    requires PlainText(key)
    ensures Utf8Len(PrintMember((key, JString(value)))) >= |key| + Utf8Len(value) + 5
  {
    QuoteLength(key);
    QuoteLonger(value);
    AsciiLength(":");
    LengthsAdd(Quote(key) + ":", Quote(value));
    LengthsAdd(Quote(key), ":");
  }

  lemma {:induction false} FirstTwoMembers(ms: seq<Member>)
    requires |ms| >= 2
    ensures Utf8Len(PrintObject(ms)) >= Utf8Len(PrintMember(ms[0])) + Utf8Len(PrintMember(ms[1])) + 3
  {
    var x, y, rest := PrintMember(ms[0]), PrintMember(ms[1]), PrintMembers(ms[1..]);
    assert PrintObject(ms) == "{" + (x + ("," + rest));
    LengthsAdd("{", x + ("," + rest));
    LengthsAdd(x, "," + rest);
    LengthsAdd(",", rest);
    AsciiLength("{");
    AsciiLength(",");
    FirstMember(ms[1..]);
  }

  lemma FirstMember(ms: seq<Member>)
    requires ms != []
    ensures Utf8Len(PrintMembers(ms)) >= Utf8Len(PrintMember(ms[0])) + 1
  {
    var rest := if |ms| == 1 then "}" else "," + PrintMembers(ms[1..]);
    LengthsAdd(PrintMember(ms[0]), rest);
    AtLeastChars(rest);
  }

  /** The line of any record with a payload, whatever else it has. */
  lemma LineLonger(input: PutInput)
    requires input.payload.Some?
    ensures Utf8Len(EncodeRecord(input)) >= |input.id| + Utf8Len(input.payload.value) + 22
  {
    var ms := Fields(input);
    assert ms[0] == ("id", JString(input.id)) && ms[1] == ("payload", JString(input.payload.value));
    TextMemberLonger("id", input.id);
    TextMemberLonger("payload", input.payload.value);
    AtLeastChars(input.id);
    FirstTwoMembers(ms);
  }

  // ---------------------------------------------------------- what a commit keeps

  /** The longest payload one record can have and still be committed. */
  function LongestPayload(cfg: Config): nat {
    var room := Min(SCANNER_TOKEN_SIZE - 24, Min(cfg.maxRecordPayloadBytes, cfg.maxTotalBytes));
    if room < 0 then 0 else room
  }

  function Min(a: int, b: int): int {
    if a < b then a else b
  }

  lemma {:induction false} ParsedSmall(raws: seq<RawRecord>, maxPayload: int)
    requires ParseBody(raws, maxPayload).Some?
    ensures forall i :: 0 <= i < |ParseBody(raws, maxPayload).value.inputs| ==> !TooLarge(ParseBody(raws, maxPayload).value.inputs[i], maxPayload)
  {
    if raws != [] { ParsedSmall(raws[..|raws| - 1], maxPayload); }
  }

  lemma {:induction false} FilteredFrom(inputs: seq<PutInput>, maxPayload: int)
    requires forall i :: 0 <= i < |inputs| ==> !TooLarge(inputs[i], maxPayload)
    ensures forall i :: 0 <= i < |Filtered(inputs)| ==> !TooLarge(Filtered(inputs)[i], maxPayload) && BSOIdOk(Filtered(inputs)[i].id)
  {
    if inputs != [] {
      var n := |inputs| - 1;
      forall i | 0 <= i < n ensures !TooLarge(inputs[..n][i], maxPayload) { assert inputs[..n][i] == inputs[i]; }
      FilteredFrom(inputs[..n], maxPayload);
    }
  }

  /** A record that can be committed: a valid id, within each limit, on a line that fits. */
  predicate Committable(cfg: Config, input: PutInput) {
    && BSOIdOk(input.id) && Fits(EncodeRecord(input))
    && !TooLarge(input, cfg.maxRecordPayloadBytes) && !TooLarge(input, cfg.maxTotalBytes)
  }

  lemma KeptCommittable(raws: seq<RawRecord>, cfg: Config)
    requires Clean(raws, cfg.maxRecordPayloadBytes) && WithinLimits(raws, cfg)
    ensures forall i :: 0 <= i < |Kept(raws, cfg)| ==> Committable(cfg, Kept(raws, cfg)[i])
  {
    var inputs := Inputs(raws, cfg.maxRecordPayloadBytes);
    ParsedSmall(raws, cfg.maxRecordPayloadBytes);
    FilteredFrom(inputs, cfg.maxRecordPayloadBytes);
    PrefixFits(Filtered(inputs));
  }

  lemma PrefixFits(inputs: seq<PutInput>)
    ensures forall i :: 0 <= i < |FittingPrefix(inputs)| ==> FittingPrefix(inputs)[i] == inputs[i] && Fits(EncodeRecord(inputs[i]))
  {
    var lines := Encoded(inputs);
    forall i | 0 <= i < FitCount(lines) ensures Fits(EncodeRecord(inputs[i])) { assert lines[i] == EncodeRecord(inputs[i]); }
  }

  lemma CommittableShort(cfg: Config, input: PutInput)
    requires Committable(cfg, input)
    ensures PayloadBytes(input) <= LongestPayload(cfg)
  {
    if input.payload.Some? { LineLonger(input); }
  }

  lemma {:induction false} TotalAtMost(inputs: seq<PutInput>, longest: nat)
    requires forall i :: 0 <= i < |inputs| ==> PayloadBytes(inputs[i]) <= longest
    ensures TotalBytes(inputs) <= |inputs| * longest
  {
    if inputs != [] {
      var n := |inputs| - 1;
      forall i | 0 <= i < n ensures PayloadBytes(inputs[..n][i]) <= longest { assert inputs[..n][i] == inputs[i]; }
      TotalAtMost(inputs[..n], longest);
      assert |inputs| * longest == n * longest + longest;
    }
  }

  // -------------------------------------------------------------- full batches

  function RawCopies(raw: RawRecord, n: nat): seq<RawRecord> {
    Tabulate(_ => raw, n)
  }

  lemma {:induction false} CopiesClean(raw: RawRecord, input: PutInput, n: nat, maxPayload: int)
    requires ParseRaw(raw) == Ok(input) && !TooLarge(input, maxPayload) && input.ttl.None?
    ensures Clean(RawCopies(raw, n), maxPayload) && Inputs(RawCopies(raw, n), maxPayload) == Copies(input, n)
  {
    if n == 0 {
      assert RawCopies(raw, 0) == [] && Copies(input, 0) == [];
      assert AllToMilliseconds([]) == [];
    } else {
      CopiesClean(raw, input, n - 1, maxPayload);
      SingleClean(raw, input, maxPayload);
      CleanConcat(RawCopies(raw, n - 1), [raw], maxPayload);
      TabulateSnoc(_ => raw, n - 1);
      TabulateSnoc(_ => input, n - 1);
    }
  }

  lemma {:induction false} AllStay(inputs: seq<PutInput>)
    requires forall i :: 0 <= i < |inputs| ==> BatchCheck(inputs[i]).None?
    ensures Filtered(inputs) == inputs
  {
    if inputs != [] {
      var n := |inputs| - 1;
      forall i | 0 <= i < n ensures BatchCheck(inputs[..n][i]).None? { assert inputs[..n][i] == inputs[i]; }
      AllStay(inputs[..n]);
      FilteredSnoc(inputs[..n], inputs[n]);
      assert inputs == inputs[..n] + [inputs[n]];
    }
  }

  /** Copies of a committable record are committed together. */
  lemma CopiesKept(cfg: Config, raw: RawRecord, input: PutInput, n: nat)
    requires ParseRaw(raw) == Ok(input) && input.ttl.None? && BatchCheck(input).None? && Committable(cfg, input) && n <= cfg.maxTotalRecords
    ensures var raws := RawCopies(raw, n);
            Clean(raws, cfg.maxRecordPayloadBytes) && WithinLimits(raws, cfg) && Kept(raws, cfg) == Copies(input, n)
  {
    var copies := Copies(input, n);
    CopiesClean(raw, input, n, cfg.maxRecordPayloadBytes);
    AllStay(copies);
    forall i | 0 <= i < n ensures Fits(Encoded(copies)[i]) && !TooLarge(copies[i], cfg.maxTotalBytes) {
      assert Encoded(copies)[i] == EncodeRecord(copies[i]);
    }
    AllFitPrefix(copies);
  }

  function IndexOnly(): PutInput {
    PutInput("a", None, None, Some(1))
  }

  function RawIndexOnly(): RawRecord {
    Some(map["id" := JString("a"), "sortindex" := JInt(1)])
  }

  lemma IndexOnlyParses()
    ensures ParseRaw(RawIndexOnly()) == Ok(IndexOnly())
  {
    KeysDistinct();
    ParsesFields(RawIndexOnly().value, IndexOnly());
  }

  lemma NumberMemberLength(key: string, n: nat)
    requires PlainText(key)
    ensures Utf8Len(PrintMember((key, JInt(n)))) == |key| + |Decimal.Digits(n)| + 3
  {
    QuoteLength(key);
    AsciiLength(":");
    AsciiLength(Decimal.Digits(n));
    LengthsAdd(Quote(key) + ":", Decimal.Digits(n));
    LengthsAdd(Quote(key), ":");
  }

  lemma NumberedFits(id: string, key: string, n: nat)
    requires PlainText(id) && PlainText(key) && |id| + |key| + |Decimal.Digits(n)| <= 100
    ensures Fits(PrintObject([("id", JString(id)), (key, JInt(n))]))
  {
    MemberLength("id", id);
    NumberMemberLength(key, n);
    ObjectLength(("id", JString(id)), (key, JInt(n)));
  }

  lemma IndexOnlyFits()
    ensures Fits(EncodeRecord(IndexOnly()))
  {
    assert Fields(IndexOnly()) == [("id", JString("a")), ("sortindex", JInt(1))];
    NumberedFits("a", "sortindex", 1);
  }

  lemma IndexOnlyValid(cfg: Config, input: PutInput)
    requires input == IndexOnly()
    ensures BSOIdOk(input.id) && !TooLarge(input, cfg.maxRecordPayloadBytes) && !TooLarge(input, cfg.maxTotalBytes)
    ensures BatchCheck(input).None? && PayloadBytes(input) == 0
  {}

  lemma IndexOnlyCommittable(cfg: Config, input: PutInput)
    requires input == IndexOnly()
    ensures Committable(cfg, input) && BatchCheck(input).None? && PayloadBytes(input) == 0
  {
    IndexOnlyFits();
    IndexOnlyValid(cfg, input);
  }

  lemma LongestCommittable(cfg: Config, longest: nat)
    requires longest == LongestPayload(cfg) && 0 <= cfg.maxRecordPayloadBytes && 0 <= cfg.maxTotalBytes
    ensures Committable(cfg, InputOf("a", Xs(longest))) && BatchCheck(InputOf("a", Xs(longest))).None?
    ensures PayloadBytes(InputOf("a", Xs(longest))) == longest
  {
    XsLength(longest);
    FitsExactly("a", Xs(longest));
  }

  // ---------------------------------------------------------------- main result

  /** Every commit of n records stays within the byte limit. */
  ghost predicate CommitsWithin(cfg: Config, n: nat) {
    forall raws :: Clean(raws, cfg.maxRecordPayloadBytes) && WithinLimits(raws, cfg) && |Kept(raws, cfg)| == n ==>
      TotalBytes(Kept(raws, cfg)) <= cfg.maxTotalBytes
  }

  lemma CommitAtMost(raws: seq<RawRecord>, cfg: Config)
    requires Clean(raws, cfg.maxRecordPayloadBytes) && WithinLimits(raws, cfg)
    ensures TotalBytes(Kept(raws, cfg)) <= |Kept(raws, cfg)| * LongestPayload(cfg)
  {
    KeptCommittable(raws, cfg);
    forall i | 0 <= i < |Kept(raws, cfg)| ensures PayloadBytes(Kept(raws, cfg)[i]) <= LongestPayload(cfg) {
      CommittableShort(cfg, Kept(raws, cfg)[i]);
    }
    TotalAtMost(Kept(raws, cfg), LongestPayload(cfg));
  }

  /** A commit of n records that stores as much as any can. */
  lemma CommitReaches(cfg: Config, n: nat) returns (raws: seq<RawRecord>)
    requires n <= cfg.maxTotalRecords
    ensures Clean(raws, cfg.maxRecordPayloadBytes) && WithinLimits(raws, cfg) && |Kept(raws, cfg)| == n
    ensures TotalBytes(Kept(raws, cfg)) == n * LongestPayload(cfg)
  {
    if cfg.maxRecordPayloadBytes < 0 || cfg.maxTotalBytes < 0 {
      IndexOnlyParses();
      IndexOnlyCommittable(cfg, IndexOnly());
      raws := CopiesReach(cfg, RawIndexOnly(), IndexOnly(), n);
    } else {
      var longest := LongestPayload(cfg);
      RawParses("a", Xs(longest));
      LongestCommittable(cfg, longest);
      raws := CopiesReach(cfg, RawOf("a", Xs(longest)), InputOf("a", Xs(longest)), n);
    }
  }

  lemma CopiesReach(cfg: Config, raw: RawRecord, input: PutInput, n: nat) returns (raws: seq<RawRecord>)
    requires ParseRaw(raw) == Ok(input) && input.ttl.None? && BatchCheck(input).None? && Committable(cfg, input) && n <= cfg.maxTotalRecords
    ensures Clean(raws, cfg.maxRecordPayloadBytes) && WithinLimits(raws, cfg) && |Kept(raws, cfg)| == n
    ensures TotalBytes(Kept(raws, cfg)) == n * PayloadBytes(input)
  {
    raws := RawCopies(raw, n);
    CopiesKept(cfg, raw, input, n);
    CopiesTotal(input, n);
  }

  /**
    Every commit of n records stays within MaxTotalBytes exactly if n is too many to be
    committed, or n times the longest payload that fits is within it.
   */
  lemma CommittedTotalExact(cfg: Config, n: nat)
    ensures CommitsWithin(cfg, n) <==> n > cfg.maxTotalRecords || n * LongestPayload(cfg) <= cfg.maxTotalBytes
  {
    if n <= cfg.maxTotalRecords {
      if n * LongestPayload(cfg) <= cfg.maxTotalBytes {
        forall raws | Clean(raws, cfg.maxRecordPayloadBytes) && WithinLimits(raws, cfg) && |Kept(raws, cfg)| == n
          ensures TotalBytes(Kept(raws, cfg)) <= cfg.maxTotalBytes
        {
          CommitAtMost(raws, cfg);
        }
      } else {
        var raws := CommitReaches(cfg, n);
      }
    }
  }
}
