/**
  The batch column: records filtered and encoded on the way in, split and parsed on
  the way out. The splitter stops, without an error, at the first line that does not
  fit its buffer together with its newline.
 */
module BatchLines {
  import opened Prelude
  import opened Tables
  import opened Json
  import opened Records

  const SCANNER_TOKEN_SIZE: nat := 257 * 1024

  // -------------------------------------------------------------- the scanner

  function FindNewline(text: string): (i: nat)
    ensures i <= |text| && (i < |text| ==> text[i] == '\n') && OneLine(text[..i])
  {
    if text == [] || text[0] == '\n' then 0
    else
      var i := FindNewline(text[1..]);
      assert text[..i + 1] == [text[0]] + text[1..][..i];
      i + 1
  }

  function DropCR(line: string): string {
    if |line| > 0 && line[|line| - 1] == '\r' then line[..|line| - 1] else line
  }

  predicate Space(c: char) {
    || '\t' <= c <= '\r' || c == ' ' || c == '\U{85}' || c == '\U{a0}' || c == '\U{1680}'
    || '\U{2000}' <= c <= '\U{200a}' || LineSeparator(c) || c == '\U{202f}' || c == '\U{205f}' || c == '\U{3000}'
  }

  predicate Blank(line: string) {
    forall i :: 0 <= i < |line| ==> Space(line[i])
  }

  predicate Fits(line: string) {
    Utf8Len(line) + 1 <= SCANNER_TOKEN_SIZE
  }

  function FirstLine(text: string): string {
    text[..FindNewline(text)]
  }

  function AfterLine(text: string): (rest: string)
    ensures text != [] ==> |rest| < |text|
  {
    var i := FindNewline(text);
    if i < |text| then text[i + 1..] else []
  }

  function Token(line: string): seq<string> {
    if Blank(DropCR(line)) then [] else [DropCR(line)]
  }

  /** The non-blank lines up to the first one that does not fit. */
  function Lines(text: string): seq<string>
    decreases |text|
  {
    if text == [] || !Fits(FirstLine(text)) then [] else Token(FirstLine(text)) + Lines(AfterLine(text))
  }

  method ReadNewlineJSON(text: string) returns (raw: seq<string>)
    ensures raw == Lines(text)
  {
    raw := [];
    var rest := text;
    while rest != []
      invariant raw + Lines(rest) == Lines(text)
      decreases |rest|
    {
      LinesStep(raw, rest);
      var line, after := FirstLine(rest), AfterLine(rest);
      if !Fits(line) {
        return;
      }
      raw, rest := raw + Token(line), after;
    }
    LinesStep(raw, rest);
  }

  lemma LinesStep(raw: seq<string>, text: string)
    ensures raw + Lines(text) ==
            if text == [] || !Fits(FirstLine(text)) then raw else raw + Token(FirstLine(text)) + Lines(AfterLine(text))
  {
    if text == [] || !Fits(FirstLine(text)) {
      assert raw + [] == raw;
    } else {
      var a, b := Token(FirstLine(text)), Lines(AfterLine(text));
      assert raw + (a + b) == raw + a + b;
    }
  }

  /** The shape of an encoded record. */
  predicate RecordLine(line: string) {
    OneLine(line) && |line| > 0 && line[0] == '{' && line[|line| - 1] == '}'
  }

  lemma CutLine(line: string, rest: string)
    requires OneLine(line)
    ensures FirstLine(line + "\n" + rest) == line && AfterLine(line + "\n" + rest) == rest
  {
    NewlineAt(line, rest);
    var text := line + "\n" + rest;
    assert text[..|line|] == line && text[|line| + 1..] == rest;
  }

  lemma {:induction false} NewlineAt(line: string, rest: string)
    requires OneLine(line)
    ensures FindNewline(line + "\n" + rest) == |line|
  {
    var text := line + "\n" + rest;
    if line == [] {
      assert text[0] == '\n';
    } else {
      assert text[1..] == line[1..] + "\n" + rest;
      NewlineAt(line[1..], rest);
    }
  }

  lemma RecordToken(line: string)
    requires RecordLine(line)
    ensures Token(line) == [line]
  {
    assert DropCR(line) == line && !Space(line[0]);
  }

  lemma LinesCons(line: string, rest: string)
    requires RecordLine(line)
    ensures Lines(line + "\n" + rest) == if Fits(line) then [line] + Lines(rest) else []
  {
    CutLine(line, rest);
    RecordToken(line);
  }

  lemma EncodedShape(input: PutInput)
    ensures RecordLine(EncodeRecord(input))
  {
    var ms := Fields(input);
    var p := PrintMembers(ms);
    PrintedOneLine(ms);
    OneLineConcat("{", p);
    assert p[|p| - 1] == p[|p| - 1..][0];
  }

  // ---------------------------------------------------------- lists of lines

  /** Lines put together, each ended by a newline. */
  function Join(lines: seq<string>): string {
    if lines == [] then [] else lines[0] + "\n" + Join(lines[1..])
  }

  /** How many lines come before the first that does not fit. */
  function FitCount(lines: seq<string>): (n: nat)
    ensures n <= |lines| && forall i :: 0 <= i < n ==> Fits(lines[i])
    ensures n < |lines| ==> !Fits(lines[n])
  {
    if lines == [] || !Fits(lines[0]) then 0 else 1 + FitCount(lines[1..])
  }

  ghost predicate RecordLines(lines: seq<string>) {
    forall i :: 0 <= i < |lines| ==> RecordLine(lines[i])
  }

  lemma SplitFirst(lines: seq<string>, more: string)
    requires lines != [] && RecordLine(lines[0])
    ensures Lines(Join(lines) + more) == if Fits(lines[0]) then [lines[0]] + Lines(Join(lines[1..]) + more) else []
  {
    var rest := Join(lines[1..]) + more;
    LinesCons(lines[0], rest);
    assert Join(lines) + more == lines[0] + "\n" + rest;
  }

  lemma TakeCons(lines: seq<string>, n: nat)
    requires 0 < n <= |lines|
    ensures lines[..n] == [lines[0]] + lines[1..][..n - 1]
  {}

  /** Splitting gives back the lines, as far as the buffer allows. */
  lemma {:induction false} SplitJoined(lines: seq<string>)
    requires RecordLines(lines)
    ensures Lines(Join(lines)) == lines[..FitCount(lines)]
  {
    assert Join(lines) + [] == Join(lines);
    if lines != [] {
      SplitFirst(lines, []);
      if Fits(lines[0]) {
        assert Join(lines[1..]) + [] == Join(lines[1..]);
        SplitJoined(lines[1..]);
        TakeCons(lines, FitCount(lines));
      }
    }
  }

  /** When every line fits, splitting distributes over whatever is appended. */
  lemma {:induction false} SplitAppended(lines: seq<string>, more: string)
    requires RecordLines(lines) && FitCount(lines) == |lines|
    ensures Lines(Join(lines) + more) == lines + Lines(more)
  {
    if lines == [] {
      assert Join(lines) + more == more;
      assert lines + Lines(more) == Lines(more);
    } else {
      SplitFirst(lines, more);
      SplitAppended(lines[1..], more);
      ConsAppend(lines, Lines(more));
    }
  }

  lemma {:induction false} JoinConcat(a: seq<string>, b: seq<string>)
    ensures Join(a + b) == Join(a) + Join(b)
  {
    if a == [] {
      assert a + b == b;
    } else {
      assert (a + b)[1..] == a[1..] + b;
      JoinConcat(a[1..], b);
      assert a[0] + "\n" + (Join(a[1..]) + Join(b)) == a[0] + "\n" + Join(a[1..]) + Join(b);
    }
  }

  // ------------------------------------------------------------ round trips

  function Encoded(inputs: seq<PutInput>): seq<string> {
    Map(EncodeRecord, inputs)
  }

  /** What the batch column holds for these records: one per line. */
  function EncodeAll(inputs: seq<PutInput>): string {
    Join(Encoded(inputs))
  }

  /** The records before the first one whose line does not fit. */
  function FittingPrefix(inputs: seq<PutInput>): seq<PutInput> {
    inputs[..FitCount(Encoded(inputs))]
  }

  ghost predicate AllFit(inputs: seq<PutInput>) {
    forall i :: 0 <= i < |inputs| ==> Fits(Encoded(inputs)[i])
  }

  function ParseLines(lines: seq<string>): Option<seq<PutInput>> {
    if lines == [] then Some([])
    else
      match (ParseLines(lines[..|lines| - 1]), ParseLine(lines[|lines| - 1]))
      case (Some(inputs), Ok(input)) => Some(inputs + [input])
      case _ => None
  }

  ghost predicate AllEncodable(inputs: seq<PutInput>) {
    forall i :: 0 <= i < |inputs| ==> Encodable(inputs[i])
  }

  lemma EncodedConcat(a: seq<PutInput>, b: seq<PutInput>)
    ensures Encoded(a + b) == Encoded(a) + Encoded(b)
  {
    MapConcat(EncodeRecord, a, b);
  }

  lemma EncodeAllConcat(a: seq<PutInput>, b: seq<PutInput>)
    ensures EncodeAll(a + b) == EncodeAll(a) + EncodeAll(b)
  {
    EncodedConcat(a, b);
    JoinConcat(Encoded(a), Encoded(b));
  }

  lemma ParseOneMore(lines: seq<string>, line: string)
    requires ParseLines(lines).Some? && ParseLine(line).Ok?
    ensures ParseLines(lines + [line]) == Some(ParseLines(lines).value + [ParseLine(line).value])
  {
    assert (lines + [line])[..|lines|] == lines;
  }

  lemma EncodedSnoc(inputs: seq<PutInput>)
    requires inputs != []
    ensures Encoded(inputs) == Encoded(inputs[..|inputs| - 1]) + [EncodeRecord(inputs[|inputs| - 1])]
    ensures inputs == inputs[..|inputs| - 1] + [inputs[|inputs| - 1]]
  {
    var last := inputs[|inputs| - 1];
    assert inputs == inputs[..|inputs| - 1] + [last];
    MapConcat(EncodeRecord, inputs[..|inputs| - 1], [last]);
    EncodedOne(last);
  }

  lemma EncodedOne(input: PutInput)
    ensures Encoded([input]) == [EncodeRecord(input)]
  {}

  lemma {:induction false} ParseEncoded(inputs: seq<PutInput>)
    requires AllEncodable(inputs)
    ensures ParseLines(Encoded(inputs)) == Some(inputs)
  {
    if inputs != [] {
      var n := |inputs| - 1;
      ParseEncoded(inputs[..n]);
      RecordRoundTrip(inputs[n]);
      EncodedSnoc(inputs);
      ParseOneMore(Encoded(inputs[..n]), EncodeRecord(inputs[n]));
    }
  }

  /**
    The column gives back the records in order up to the first that does not fit, so
    it gives back all of them exactly when every encoded line fits the scanner.
   */
  lemma ColumnRoundTrip(inputs: seq<PutInput>)
    requires AllEncodable(inputs)
    ensures ParseLines(Lines(EncodeAll(inputs))) == Some(FittingPrefix(inputs))
    ensures |Lines(EncodeAll(inputs))| == |FittingPrefix(inputs)|
    ensures ParseLines(Lines(EncodeAll(inputs))) == Some(inputs) <==> AllFit(inputs)
  {
    ColumnPrefix(inputs, FitCount(Encoded(inputs)));
    PrefixIsAll(inputs);
  }

  lemma ColumnPrefix(inputs: seq<PutInput>, n: nat)
    requires AllEncodable(inputs) && n == FitCount(Encoded(inputs))
    ensures Lines(EncodeAll(inputs)) == Encoded(inputs)[..n] && ParseLines(Encoded(inputs)[..n]) == Some(inputs[..n])
  {
    EncodedShapes(inputs);
    SplitJoined(Encoded(inputs));
    EncodedTake(inputs, n);
    ParseEncoded(inputs[..n]);
  }

  lemma PrefixIsAll(inputs: seq<PutInput>)
    ensures FittingPrefix(inputs) == inputs <==> AllFit(inputs)
  {
    var n := FitCount(Encoded(inputs));
    assert n == |inputs| ==> inputs[..n] == inputs;
  }

  lemma EncodedShapes(inputs: seq<PutInput>)
    ensures RecordLines(Encoded(inputs))
  {
    forall i | 0 <= i < |inputs| ensures RecordLine(Encoded(inputs)[i]) { EncodedShape(inputs[i]); }
  }

  lemma EncodedTake(inputs: seq<PutInput>, n: nat)
    requires n <= |inputs|
    ensures Encoded(inputs[..n]) == Encoded(inputs)[..n]
  {
    MapTake(EncodeRecord, inputs, n);
  }

  // ------------------------------------------------------------ the filter

  datatype BatchFailure = BadId(id: string) | BadSortIndex(id: string) | BadTTL(id: string)

  /** Why a record is kept out of a batch; when both numbers are bad the TTL is named. */
  function BatchCheck(input: PutInput): Option<(string, BatchFailure)> {
    if !BSOIdOk(input.id) then Some(("na", BadId(input.id)))
    else if input.ttl.Some? && !TTLOk(input.ttl.value) then Some((input.id, BadTTL(input.id)))
    else if input.sortIndex.Some? && !SortIndexOk(input.sortIndex.value) then Some((input.id, BadSortIndex(input.id)))
    else None
  }

  function Filtered(inputs: seq<PutInput>): seq<PutInput> {
    if inputs == [] then []
    else
      var n := |inputs| - 1;
      Filtered(inputs[..n]) + if BatchCheck(inputs[n]).None? then [inputs[n]] else []
  }

  function AddFailure(failures: map<string, seq<BatchFailure>>, f: (string, BatchFailure)): map<string, seq<BatchFailure>> {
    failures[f.0 := (if f.0 in failures then failures[f.0] else []) + [f.1]]
  }

  function Failures(inputs: seq<PutInput>): map<string, seq<BatchFailure>> {
    if inputs == [] then map[]
    else
      var n := |inputs| - 1;
      match BatchCheck(inputs[n])
      case None => Failures(inputs[..n])
      case Some(f) => AddFailure(Failures(inputs[..n]), f)
  }

  /** A record with a bad id is reported as "na"; with two bad numbers the TTL is the reason. */
  lemma FailureReasons(input: PutInput)
    ensures !BSOIdOk(input.id) ==> Filtered([input]) == [] && Failures([input]) == map["na" := [BadId(input.id)]]
    ensures BSOIdOk(input.id) && input.ttl.Some? && input.ttl.value < 0 ==>
              Filtered([input]) == [] && Failures([input]) == map[input.id := [BadTTL(input.id)]]
    ensures BSOIdOk(input.id) && (input.ttl.Some? ==> input.ttl.value >= 0) && input.sortIndex.Some? && !SortIndexOk(input.sortIndex.value) ==>
              Filtered([input]) == [] && Failures([input]) == map[input.id := [BadSortIndex(input.id)]]
  {
    assert [input][..0] == [] && Failures([]) == map[];
    var check := BatchCheck(input);
    if check.Some? { FirstFailure(check.value); }
  }

  lemma FirstFailure(f: (string, BatchFailure))
    ensures AddFailure(map[], f) == map[f.0 := [f.1]]
  {
    assert [] + [f.1] == [f.1];
  }

  method FilterBatch(inputs: seq<PutInput>)
    returns (filtered: seq<PutInput>, failures: map<string, seq<BatchFailure>>)
    ensures filtered == Filtered(inputs) && failures == Failures(inputs)
  {
    filtered, failures := [], map[];
    for i := 0 to |inputs|
      invariant filtered == Filtered(inputs[..i]) && failures == Failures(inputs[..i])
    {
      assert inputs[..i + 1][..i] == inputs[..i];
      var input := inputs[i];
      var failure: Option<(string, BatchFailure)> := None;
      if !BSOIdOk(input.id) {
        failure := Some(("na", BadId(input.id)));
      } else {
        if input.sortIndex.Some? && !SortIndexOk(input.sortIndex.value) {
          failure := Some((input.id, BadSortIndex(input.id)));
        }
        if input.ttl.Some? && !TTLOk(input.ttl.value) {
          failure := Some((input.id, BadTTL(input.id)));
        }
      }
      assert failure == BatchCheck(input);
      if failure.Some? {
        failures := AddFailure(failures, failure.value);
      } else {
        filtered := filtered + [input];
      }
    }
    assert inputs[..|inputs|] == inputs;
  }

  method EncodeBatch(inputs: seq<PutInput>) returns (data: string)
    ensures data == EncodeAll(inputs)
  {
    data := "";
    for i := 0 to |inputs|
      invariant data == EncodeAll(inputs[..i])
    {
      EncodeOneMore(inputs, i);
      data := data + (EncodeRecord(inputs[i]) + "\n");
    }
    assert inputs[..|inputs|] == inputs;
  }

  lemma EncodeOneMore(inputs: seq<PutInput>, i: nat)
    requires i < |inputs|
    ensures EncodeAll(inputs[..i + 1]) == EncodeAll(inputs[..i]) + (EncodeRecord(inputs[i]) + "\n")
  {
    var line := EncodeRecord(inputs[i]);
    EncodedSnoc(inputs[..i + 1]);
    assert inputs[..i + 1][..i] == inputs[..i];
    JoinConcat(Encoded(inputs[..i]), [line]);
    JoinOne(line);
  }

  lemma JoinOne(line: string)
    ensures Join([line]) == line + "\n"
  {
    assert line + "\n" + [] == line + "\n";
  }

  lemma {:induction false} FilteredConcat(a: seq<PutInput>, b: seq<PutInput>)
    ensures Filtered(a + b) == Filtered(a) + Filtered(b)
  {
    if b == [] {
      assert a + b == a;
    } else {
      var n := |b| - 1;
      assert (a + b)[..|a + b| - 1] == a + b[..n] && (a + b)[|a + b| - 1] == b[n];
      FilteredConcat(a, b[..n]);
    }
  }

  lemma {:induction false} FilteredKeeps(inputs: seq<PutInput>)
    requires AllEncodable(inputs)
    ensures AllEncodable(Filtered(inputs))
  {
    if inputs != [] {
      FilteredKeeps(inputs[..|inputs| - 1]);
    }
  }

  lemma DroppedIsRefused(input: PutInput)
    requires BatchCheck(input).Some?
    ensures PutCheck(input).Some?
  {}

  /** What the filter drops is what the database would refuse anyway. */
  lemma {:induction false} FilterIsHarmless(bsos: map<Key, Bso>, cid: int, inputs: seq<PutInput>, now: int)
    ensures PutRows(bsos, cid, Filtered(inputs), now) == PutRows(bsos, cid, inputs, now)
  {
    if inputs != [] {
      var n, kept := |inputs| - 1, Filtered(inputs);
      FilterIsHarmless(bsos, cid, inputs[..n], now);
      var before := PutRows(bsos, cid, inputs[..n], now);
      if BatchCheck(inputs[n]).None? {
        assert kept == Filtered(inputs[..n]) + [inputs[n]];
        assert kept[..|kept| - 1] == Filtered(inputs[..n]);
      } else {
        assert kept == Filtered(inputs[..n]) + [] == Filtered(inputs[..n]);
        DroppedIsRefused(inputs[n]);
        assert PutRow(before, cid, inputs[n], now) == before;
      }
    }
  }
}
