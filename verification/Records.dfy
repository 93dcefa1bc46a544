/**
  From request bodies to records, with the refusals of decoding, and from records to
  lines of the batch table and back.
 */
module Records {
  import opened Prelude
  import opened Tables
  import opened Json

  // --------------------------------------------------------- parsing a record

  datatype ParseError = NotAnObject | UnknownField | BadField(id: string, field: string)

  predicate Int64(n: int) {
    -0x8000_0000_0000_0000 <= n < 0x8000_0000_0000_0000
  }

  /** Later members override earlier ones, as in a Go map. */
  function ToMap(ms: seq<Member>): map<string, Json> {
    if ms == [] then map[]
    else ToMap(ms[..|ms| - 1])[ms[|ms| - 1].0 := ms[|ms| - 1].1]
  }

  const ALLOWED_KEYS: set<string> := {"id", "payload", "ttl", "sortindex", "modified"}

  function ParseId(m: map<string, Json>): Result<string, ParseError> {
    if "id" !in m then Ok("")
    else if m["id"].JString? then Ok(m["id"].s)
    else Err(BadField("", "id"))
  }

  /** `null` leaves the payload empty but present. */
  function ParsePayload(m: map<string, Json>, id: string): Result<Option<string>, ParseError> {
    if "payload" !in m then Ok(None)
    else match m["payload"]
      case JString(s) => Ok(Some(s))
      case JNull => Ok(Some(""))
      case _ => Err(BadField(id, "payload"))
  }

  /** `null` means a hundred years, in seconds. */
  function ParseTTL(m: map<string, Json>, id: string): Result<Option<int>, ParseError> {
    if "ttl" !in m then Ok(None)
    else match m["ttl"]
      case JInt(n) => if Int64(n) then Ok(Some(n)) else Err(BadField(id, "ttl"))
      case JNull => Ok(Some(100 * 365 * 24 * 60 * 60))
      case _ => Err(BadField(id, "ttl"))
  }

  function ParseSortIndex(m: map<string, Json>, id: string): Result<Option<int>, ParseError> {
    if "sortindex" !in m then Ok(None)
    else match m["sortindex"]
      case JInt(n) => if Int64(n) then Ok(Some(n)) else Err(BadField(id, "sortindex"))
      case JNull => Ok(Some(0))
      case _ => Err(BadField(id, "sortindex"))
  }

  /** A member called "-" is reported like a value that is not an object. */
  function ParseIntoBSO(m: map<string, Json>): Result<PutInput, ParseError> {
    if "-" in m then Err(NotAnObject)
    else if !(m.Keys <= ALLOWED_KEYS) then Err(UnknownField)
    else
      match ParseId(m)
      case Err(e) => Err(e)
      case Ok(id) =>
        match (ParsePayload(m, id), ParseTTL(m, id), ParseSortIndex(m, id))
        case (Err(e), _, _) => Err(e)
        case (_, Err(e), _) => Err(e)
        case (_, _, Err(e)) => Err(e)
        case (Ok(payload), Ok(ttl), Ok(sortIndex)) => Ok(PutInput(id, payload, ttl, sortIndex))
  }

  function ParseLine(line: string): Result<PutInput, ParseError> {
    match ReadObject(line)
    case None => Err(NotAnObject)
    case Some(ms) => ParseIntoBSO(ToMap(ms))
  }

  // --------------------------------------------------------- decoding a body

  /** A body is a list of JSON values; `null` counts as an object without members, and `None` is any other value that is not an object. */
  type RawRecord = Option<map<string, Json>>

  datatype DecodeFailure = PayloadTooLarge | Unparsable(error: ParseError)

  datatype Decoded = Decoded(inputs: seq<PutInput>, failed: map<string, DecodeFailure>)

  function ParseRaw(raw: RawRecord): Result<PutInput, ParseError> {
    if raw.None? then Err(NotAnObject) else ParseIntoBSO(raw.value)
  }

  function ErrorId(e: ParseError): string {
    match e
    case BadField(id, _) => id
    case _ => ""
  }

  predicate TooLarge(input: PutInput, maxPayload: int) {
    input.payload.Some? && Utf8Len(input.payload.value) > maxPayload
  }

  /** The parsable records in order, and the refused ones by id. No result when some value is not an object. */
  function ParseBody(raws: seq<RawRecord>, maxPayload: int): Option<Decoded> {
    if raws == [] then Some(Decoded([], map[]))
    else
      match ParseBody(raws[..|raws| - 1], maxPayload)
      case None => None
      case Some(d) =>
        match ParseRaw(raws[|raws| - 1])
        case Ok(input) =>
          if TooLarge(input, maxPayload) then Some(d.(failed := d.failed[input.id := PayloadTooLarge]))
          else Some(d.(inputs := d.inputs + [input]))
        case Err(NotAnObject) => None
        case Err(e) => Some(d.(failed := d.failed[ErrorId(e) := Unparsable(e)]))
  }

  /** Clients send seconds, the database keeps milliseconds. */
  function ToMilliseconds(input: PutInput): PutInput {
    if input.ttl.None? then input else input.(ttl := Some(Wrap64(input.ttl.value * 1000)))
  }

  function AllToMilliseconds(inputs: seq<PutInput>): seq<PutInput> {
    seq(|inputs|, i requires 0 <= i < |inputs| => ToMilliseconds(inputs[i]))
  }

  function DecodeBody(raws: seq<RawRecord>, maxPayload: int): Option<Decoded> {
    match ParseBody(raws, maxPayload)
    case None => None
    case Some(d) => Some(d.(inputs := AllToMilliseconds(d.inputs)))
  }

  /** The decoding loop: stop at the first non-object, collect the rest, then scale every TTL once. */
  method RequestToPostBSOInput(raws: seq<RawRecord>, maxPayload: int) returns (r: Option<Decoded>)
    ensures r == DecodeBody(raws, maxPayload)
  {
    var inputs: seq<PutInput> := [];
    var failed: map<string, DecodeFailure> := map[];
    for i := 0 to |raws|
      invariant ParseBody(raws[..i], maxPayload) == Some(Decoded(inputs, failed))
    {
      assert raws[..i + 1][..i] == raws[..i];
      match ParseRaw(raws[i]) {
        case Ok(input) =>
          if input.payload.Some? && Utf8Len(input.payload.value) > maxPayload {
            failed := failed[input.id := PayloadTooLarge];
          } else {
            inputs := inputs + [input];
          }
        case Err(NotAnObject) =>
          BadBody(raws, i + 1, maxPayload);
          return None;
        case Err(e) =>
          failed := failed[ErrorId(e) := Unparsable(e)];
      }
    }
    assert raws[..|raws|] == raws;
    ghost var parsed := inputs;
    for i := 0 to |inputs|
      invariant |inputs| == |parsed|
      invariant forall j :: 0 <= j < i ==> inputs[j] == ToMilliseconds(parsed[j])
      invariant forall j :: i <= j < |inputs| ==> inputs[j] == parsed[j]
    {
      if inputs[i].ttl.Some? {
        inputs := inputs[i := inputs[i].(ttl := Some(Wrap64(inputs[i].ttl.value * 1000)))];
      }
    }
    assert inputs == AllToMilliseconds(parsed);
    r := Some(Decoded(inputs, failed));
  }

  lemma {:induction false} BadBody(raws: seq<RawRecord>, n: nat, maxPayload: int)
    requires n <= |raws| && ParseBody(raws[..n], maxPayload).None?
    ensures ParseBody(raws, maxPayload).None?
    decreases |raws| - n
  {
    if n < |raws| {
      assert raws[..n + 1][..n] == raws[..n];
      BadBody(raws, n + 1, maxPayload);
    } else {
      assert raws[..n] == raws;
    }
  }

  /** Decoding two bodies one after the other is decoding them put together. */
  lemma {:induction false} DecodeConcat(a: seq<RawRecord>, b: seq<RawRecord>, maxPayload: int)
    requires ParseBody(a, maxPayload).Some? && ParseBody(b, maxPayload).Some?
    requires ParseBody(a, maxPayload).value.failed == map[] && ParseBody(b, maxPayload).value.failed == map[]
    ensures ParseBody(a + b, maxPayload) ==
            Some(Decoded(ParseBody(a, maxPayload).value.inputs + ParseBody(b, maxPayload).value.inputs, map[]))
  {
    if b == [] {
      assert a + b == a;
      assert ParseBody(a, maxPayload).value.inputs + [] == ParseBody(a, maxPayload).value.inputs;
    } else {
      var b' := b[..|b| - 1];
      FailuresGrow(b, maxPayload);
      DecodeConcat(a, b', maxPayload);
      assert (a + b)[..|a + b| - 1] == a + b' && (a + b)[|a + b| - 1] == b[|b| - 1];
      var da, db, input := ParseBody(a, maxPayload).value, ParseBody(b', maxPayload).value, ParseRaw(b[|b| - 1]).value;
      assert da.inputs + (db.inputs + [input]) == da.inputs + db.inputs + [input];
    }
  }

  /** A body without refusals has none in its beginning, and a readable last record. */
  lemma FailuresGrow(b: seq<RawRecord>, maxPayload: int)
    requires b != [] && ParseBody(b, maxPayload).Some? && ParseBody(b, maxPayload).value.failed == map[]
    ensures ParseBody(b[..|b| - 1], maxPayload).Some? && ParseBody(b[..|b| - 1], maxPayload).value.failed == map[]
    ensures ParseRaw(b[|b| - 1]).Ok? && !TooLarge(ParseRaw(b[|b| - 1]).value, maxPayload)
  {
    var p, q := ParseBody(b[..|b| - 1], maxPayload).value.failed, ParseBody(b, maxPayload).value.failed;
    var last := ParseRaw(b[|b| - 1]);
    assert forall id :: id in p ==> id in q;
    assert forall e :: last == Err(e) ==> ErrorId(e) in q;
    assert forall input :: last == Ok(input) && TooLarge(input, maxPayload) ==> input.id in q;
  }

  // ------------------------------------------------------- lines of a batch

  /** Numbers that fit Go's int. */
  predicate Encodable(input: PutInput) {
    (input.ttl.Some? ==> Int64(input.ttl.value)) && (input.sortIndex.Some? ==> Int64(input.sortIndex.value))
  }

  function OptionalField(key: string, v: Option<Json>): seq<Member> {
    if v.Some? then [(key, v.value)] else []
  }

  function TextOf(s: Option<string>): Option<Json> {
    if s.Some? then Some(JString(s.value)) else None
  }

  function NumberOf(n: Option<int>): Option<Json> {
    if n.Some? then Some(JInt(n.value)) else None
  }

  function Fields(input: PutInput): (ms: seq<Member>)
    ensures ms != [] && forall i :: 0 <= i < |ms| ==> Plain(ms[i].1)
  {
    [("id", JString(input.id))]
    + OptionalField("payload", TextOf(input.payload))
    + OptionalField("ttl", NumberOf(input.ttl))
    + OptionalField("sortindex", NumberOf(input.sortIndex))
  }

  function EncodeRecord(input: PutInput): string {
    PrintObject(Fields(input))
  }

  lemma ToMapAppend(ms: seq<Member>, m: Member)
    ensures ToMap(ms + [m]) == ToMap(ms)[m.0 := m.1]
  {
    assert (ms + [m])[..|ms|] == ms;
  }

  function Lookup(m: map<string, Json>, key: string): Option<Json> {
    if key in m then Some(m[key]) else None
  }

  /** Appending an optional member changes the look-up of its key and of no other. */
  lemma LookupAppend(ms: seq<Member>, key: string, v: Option<Json>, other: string)
    requires key !in ToMap(ms)
    ensures Lookup(ToMap(ms + OptionalField(key, v)), other) == if other == key then v else Lookup(ToMap(ms), other)
    ensures ToMap(ms + OptionalField(key, v)).Keys <= ToMap(ms).Keys + {key}
  {
    if v.Some? { ToMapAppend(ms, (key, v.value)); } else { assert ms + [] == ms; }
  }

  lemma FourKeys(a: string, b: string, c: string, d: string, v: Json, w: Option<Json>, x: Option<Json>, y: Option<Json>)
    requires a != b && a != c && a != d && b != c && b != d && c != d
    ensures var m := ToMap([(a, v)] + OptionalField(b, w) + OptionalField(c, x) + OptionalField(d, y));
            && m.Keys <= {a, b, c, d}
            && Lookup(m, a) == Some(v) && Lookup(m, b) == w && Lookup(m, c) == x && Lookup(m, d) == y
  {
    var one := [(a, v)];
    assert one == [] + [one[0]];
    ToMapAppend([], one[0]);
    LookupAppend(one, b, w, a); LookupAppend(one, b, w, b); LookupAppend(one, b, w, c); LookupAppend(one, b, w, d);
    var two := one + OptionalField(b, w);
    LookupAppend(two, c, x, a); LookupAppend(two, c, x, b); LookupAppend(two, c, x, c); LookupAppend(two, c, x, d);
    var three := two + OptionalField(c, x);
    LookupAppend(three, d, y, a); LookupAppend(three, d, y, b); LookupAppend(three, d, y, c); LookupAppend(three, d, y, d);
  }

  lemma KeysDistinct()
    ensures "id" != "payload" && "id" != "ttl" && "id" != "sortindex"
    ensures "payload" != "ttl" && "payload" != "sortindex" && "ttl" != "sortindex"
    ensures {"id", "payload", "ttl", "sortindex"} <= ALLOWED_KEYS && "-" !in ALLOWED_KEYS
  {
    assert |"id"| == 2 && |"payload"| == 7 && |"ttl"| == 3 && |"sortindex"| == 9 && |"modified"| == 8 && |"-"| == 1;
  }

  lemma ParsesFields(m: map<string, Json>, input: PutInput)
    requires Encodable(input) && m.Keys <= ALLOWED_KEYS && "-" !in m
    requires Lookup(m, "id") == Some(JString(input.id)) && Lookup(m, "payload") == TextOf(input.payload)
    requires Lookup(m, "ttl") == NumberOf(input.ttl) && Lookup(m, "sortindex") == NumberOf(input.sortIndex)
    ensures ParseIntoBSO(m) == Ok(input)
  {}

  /** A stored record reads back as it was, TTL and all. */
  lemma RecordRoundTrip(input: PutInput)
    requires Encodable(input)
    ensures ParseLine(EncodeRecord(input)) == Ok(input)
  {
    var ms := Fields(input);
    var line := EncodeRecord(input);
    ReadPrintedMembers(ms);
    assert line[1..] == PrintMembers(ms);
    assert line != "{}" by { assert PrintMembers(ms)[0] == '"'; }
    KeysDistinct();
    FourKeys("id", "payload", "ttl", "sortindex", JString(input.id), TextOf(input.payload), NumberOf(input.ttl), NumberOf(input.sortIndex));
    ParsesFields(ToMap(ms), input);
  }
}
