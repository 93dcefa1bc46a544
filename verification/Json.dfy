/**
  Flat JSON objects, as the batch table stores them: one record per line, members in
  a fixed order, no spaces. Printing follows Go's encoder, which escapes quotes,
  backslashes, control characters, `<`, `>`, `&` and the two Unicode line separators.
 */
module Json {
  import opened Prelude
  import opened Decimal

  /** A member value; `Other` stands for what a record never holds: booleans, fractions, arrays, objects. */
  datatype Json = JString(s: string) | JInt(n: int) | JNull | JOther

  type Member = (string, Json)

  // ---------------------------------------------------------------- strings

  function HexDigit(n: nat): char
    requires n < 16
  {
    if n < 10 then '0' + n as char else 'a' + (n - 10) as char
  }

  function HexValue(c: char): Option<nat> {
    if '0' <= c <= '9' then Some((c - '0') as nat)
    else if 'a' <= c <= 'f' then Some((c - 'a') as nat + 10)
    else if 'A' <= c <= 'F' then Some((c - 'A') as nat + 10)
    else None
  }

  predicate LineSeparator(c: char) {
    c == '\U{2028}' || c == '\U{2029}'
  }

  predicate NeedsHex(c: char) {
    c < ' ' || c == '<' || c == '>' || c == '&'
  }

  function Escape(c: char): string {
    if c == '"' then "\\\""
    else if c == '\\' then "\\\\"
    else if c == '\n' then "\\n"
    else if c == '\r' then "\\r"
    else if c == '\t' then "\\t"
    else if NeedsHex(c) then ['\\', 'u', '0', '0', HexDigit(c as nat / 16), HexDigit(c as nat % 16)]
    else if LineSeparator(c) then ['\\', 'u', '2', '0', '2', HexDigit(c as nat % 16)]
    else [c]
  }

  function EscapeAll(s: string): string {
    if s == [] then [] else Escape(s[0]) + EscapeAll(s[1..])
  }

  function Quote(s: string): string {
    "\"" + EscapeAll(s) + "\""
  }

  function HexQuad(s: string): Option<nat>
    requires |s| == 4
  {
    match (HexValue(s[0]), HexValue(s[1]), HexValue(s[2]), HexValue(s[3]))
    case (Some(a), Some(b), Some(c), Some(d)) => Some(4096 * a + 256 * b + 16 * c + d)
    case _ => None
  }

  /** One character of a string literal and what follows it. Surrogate escapes are not read. */
  function ReadChar(s: string): (r: Option<(char, string)>)
    requires |s| > 0
    ensures r.Some? ==> |r.value.1| < |s|
  {
    if s[0] < ' ' then None
    else if s[0] != '\\' then Some((s[0], s[1..]))
    else if |s| < 2 then None
    else if s[1] == '"' || s[1] == '\\' || s[1] == '/' then Some((s[1], s[2..]))
    else if s[1] == 'n' then Some(('\n', s[2..]))
    else if s[1] == 'r' then Some(('\r', s[2..]))
    else if s[1] == 't' then Some(('\t', s[2..]))
    else if s[1] == 'b' then Some(('\U{8}', s[2..]))
    else if s[1] == 'f' then Some(('\U{c}', s[2..]))
    else if s[1] == 'u' && |s| >= 6 then
      match HexQuad(s[2..6])
      case Some(n) => if n < 0xD800 || 0xDFFF < n < 0x10000 then Some((n as char, s[6..])) else None
      case None => None
    else None
  }

  /** A string literal after its opening quote, and what follows its closing quote. */
  function ReadString(s: string): (r: Option<(string, string)>)
    ensures r.Some? ==> |r.value.1| < |s|
    decreases |s|
  {
    if s == [] then None
    else if s[0] == '"' then Some(([], s[1..]))
    else
      match ReadChar(s)
      case None => None
      case Some((c, rest)) =>
        match ReadString(rest)
        case None => None
        case Some((t, rest')) => Some(([c] + t, rest'))
  }

  lemma ReadEscaped(c: char, t: string)
    ensures (Escape(c) + t)[0] != '"'
    ensures ReadChar(Escape(c) + t) == Some((c, t))
  {
    var s := Escape(c) + t;
    if |Escape(c)| == 6 {
      assert s[2..6] == Escape(c)[2..6] && s[6..] == t;
      HexRoundTrip(c);
    } else if |Escape(c)| == 2 {
      assert s[2..] == t;
    } else {
      assert s[1..] == t;
    }
  }

  lemma HexRoundTrip(c: char)
    requires |Escape(c)| == 6
    ensures HexQuad(Escape(c)[2..6]) == Some(c as nat)
  {
    var e := Escape(c);
    var q := e[2..6];
    assert q[0] == e[2] && q[1] == e[3] && q[2] == e[4] && q[3] == e[5];
  }

  lemma ReadOneMore(c: char, tail: string)
    requires ReadString(tail).Some?
    ensures ReadString(Escape(c) + tail) == Some(([c] + ReadString(tail).value.0, ReadString(tail).value.1))
  {
    ReadEscaped(c, tail);
  }

  lemma EscapeFirst(s: string, rest: string)
    requires s != []
    ensures EscapeAll(s) + "\"" + rest == Escape(s[0]) + (EscapeAll(s[1..]) + "\"" + rest)
  {}

  lemma {:induction false} ReadQuoted(s: string, rest: string)
    ensures ReadString(EscapeAll(s) + "\"" + rest) == Some((s, rest))
  {
    if s == [] {
      var text := EscapeAll(s) + "\"" + rest;
      assert text[0] == '"' && text[1..] == rest;
    } else {
      var tail := EscapeAll(s[1..]) + "\"" + rest;
      ReadQuoted(s[1..], rest);
      EscapeFirst(s, rest);
      ReadOneMore(s[0], tail);
      assert [s[0]] + s[1..] == s;
    }
  }

  // ---------------------------------------------------------------- numbers

  function LeadingDigits(s: string): (n: nat)
    ensures n <= |s| && AllDigits(s[..n]) && (n < |s| ==> !IsDigit(s[n]))
  {
    if s == [] || !IsDigit(s[0]) then 0
    else
      var n := LeadingDigits(s[1..]);
      assert s[..n + 1] == [s[0]] + s[1..][..n];
      n + 1
  }

  /** An integer at the front of s, and what follows it. */
  function ReadInt(s: string): (r: Option<(int, string)>)
    ensures r.Some? ==> |r.value.1| < |s|
  {
    var sign := if |s| > 0 && s[0] == '-' then 1 else 0;
    var n := LeadingDigits(s[sign..]);
    if n == 0 then None
    else
      var v: int := Value(s[sign..][..n]);
      Some((if sign == 1 then -v else v, s[sign..][n..]))
  }

  lemma ReadPrinted(n: int, rest: string)
    requires rest == [] || !IsDigit(rest[0])
    ensures ReadInt(Itoa(n) + rest) == Some((n, rest))
  {
    var s := Itoa(n) + rest;
    var digits := Digits(if n < 0 then -n else n);
    var sign := if n < 0 then 1 else 0;
    assert s[0] == Itoa(n)[0];
    assert s[sign..] == digits + rest;
    SpanDigits(digits, rest);
    assert (digits + rest)[..|digits|] == digits && (digits + rest)[|digits|..] == rest;
    DigitsValue(if n < 0 then -n else n);
  }

  lemma {:induction false} SpanDigits(digits: string, rest: string)
    requires AllDigits(digits) && (rest == [] || !IsDigit(rest[0]))
    ensures LeadingDigits(digits + rest) == |digits|
  {
    if digits == [] {
      assert digits + rest == rest;
    } else {
      assert (digits + rest)[1..] == digits[1..] + rest;
      SpanDigits(digits[1..], rest);
    }
  }

  // ---------------------------------------------------------------- objects

  function PrintValue(v: Json): string {
    match v
    case JString(s) => Quote(s)
    case JInt(n) => Itoa(n)
    case _ => "null"
  }

  function ReadValue(s: string): (r: Option<(Json, string)>)
    ensures r.Some? ==> |r.value.1| < |s|
  {
    if s == [] then None
    else if s[0] == '"' then
      match ReadString(s[1..])
      case Some((t, rest)) => Some((JString(t), rest))
      case None => None
    else if "null" <= s then Some((JNull, s[4..]))
    else
      match ReadInt(s)
      case Some((n, rest)) => Some((JInt(n), rest))
      case None => None
  }

  function PrintMember(m: Member): string {
    Quote(m.0) + ":" + PrintValue(m.1)
  }

  /** Members separated by commas, with the closing brace. */
  function PrintMembers(ms: seq<Member>): (s: string)
    requires ms != []
    ensures |s| > 0
  {
    PrintMember(ms[0]) + if |ms| == 1 then "}" else "," + PrintMembers(ms[1..])
  }

  function PrintObject(ms: seq<Member>): string
    requires ms != []
  {
    "{" + PrintMembers(ms)
  }

  /** `"key":` at the front of s, and what follows it. */
  function ReadKey(s: string): (r: Option<(string, string)>)
    ensures r.Some? ==> |r.value.1| < |s|
  {
    if s == [] || s[0] != '"' then None
    else
      match ReadString(s[1..])
      case None => None
      case Some((key, rest)) => if rest == [] || rest[0] != ':' then None else Some((key, rest[1..]))
  }

  function ReadMember(s: string): (r: Option<(Member, string)>)
    ensures r.Some? ==> |r.value.1| < |s|
  {
    match ReadKey(s)
    case None => None
    case Some((key, rest)) =>
      match ReadValue(rest)
      case None => None
      case Some((v, rest')) => Some(((key, v), rest'))
  }

  function ReadMembers(s: string): Option<seq<Member>>
    decreases |s|
  {
    match ReadMember(s)
    case None => None
    case Some((m, rest)) =>
      if rest == "}" then Some([m])
      else if rest == [] || rest[0] != ',' then None
      else
        match ReadMembers(rest[1..])
        case None => None
        case Some(ms) => Some([m] + ms)
  }

  function ReadObject(s: string): Option<seq<Member>> {
    if s == "{}" then Some([])
    else if s == [] || s[0] != '{' then None
    else ReadMembers(s[1..])
  }

  predicate Plain(v: Json) {
    v.JString? || v.JInt?
  }

  lemma ReadPrintedValue(v: Json, rest: string)
    requires Plain(v) && rest != [] && !IsDigit(rest[0])
    ensures ReadValue(PrintValue(v) + rest) == Some((v, rest))
  {
    match v
    case JString(t) =>
      var s := Quote(t) + rest;
      assert s[1..] == EscapeAll(t) + "\"" + rest;
      ReadQuoted(t, rest);
    case JInt(n) =>
      ReadPrinted(n, rest);
      NotNull(n, rest);
  }

  lemma NotNull(n: int, rest: string)
    ensures var s := Itoa(n) + rest; s[0] != '"' && !("null" <= s)
  {
    var s := Itoa(n) + rest;
    assert s[0] == Itoa(n)[0] && s[0] != "null"[0];
  }

  lemma ReadPrintedKey(key: string, rest: string)
    ensures ReadKey(Quote(key) + ":" + rest) == Some((key, rest))
  {
    var tail := ":" + rest;
    var s := Quote(key) + ":" + rest;
    assert s[1..] == EscapeAll(key) + "\"" + tail;
    ReadQuoted(key, tail);
    assert tail[1..] == rest;
  }

  lemma ReadPrintedMember(m: Member, rest: string)
    requires Plain(m.1) && rest != [] && !IsDigit(rest[0])
    ensures ReadMember(PrintMember(m) + rest) == Some((m, rest))
  {
    var tail := PrintValue(m.1) + rest;
    ReadPrintedKey(m.0, tail);
    assert PrintMember(m) + rest == Quote(m.0) + ":" + tail;
    ReadPrintedValue(m.1, rest);
  }

  /** Printed objects read back as they were. */
  lemma {:induction false} ReadPrintedMembers(ms: seq<Member>)
    requires ms != [] && forall i :: 0 <= i < |ms| ==> Plain(ms[i].1)
    ensures ReadMembers(PrintMembers(ms)) == Some(ms)
    decreases |ms|
  {
    assert ms == [ms[0]] + ms[1..];
    if |ms| == 1 {
      ReadPrintedMember(ms[0], "}");
      assert ms == [ms[0]];
    } else {
      var rest := "," + PrintMembers(ms[1..]);
      ReadPrintedMember(ms[0], rest);
      assert rest[1..] == PrintMembers(ms[1..]) && rest[0] == ',';
      ReadPrintedMembers(ms[1..]);
    }
  }

  // ------------------------------------------------------------ no newlines

  predicate OneLine(s: string) {
    forall i :: 0 <= i < |s| ==> s[i] != '\n'
  }

  lemma {:induction false} EscapedOneLine(s: string)
    ensures OneLine(EscapeAll(s))
  {
    if s != [] {
      EscapedOneLine(s[1..]);
      assert OneLine(Escape(s[0]));
    }
  }

  lemma ValueOneLine(v: Json)
    ensures OneLine(PrintValue(v))
  {
    if v.JString? { EscapedOneLine(v.s); }
  }

  lemma MemberOneLine(m: Member)
    ensures OneLine(PrintMember(m))
  {
    EscapedOneLine(m.0);
    ValueOneLine(m.1);
    OneLineConcat(Quote(m.0), ":");
    OneLineConcat(Quote(m.0) + ":", PrintValue(m.1));
  }

  lemma OneLineConcat(a: string, b: string)
    requires OneLine(a) && OneLine(b)
    ensures OneLine(a + b)
  {}

  lemma {:induction false} PrintedOneLine(ms: seq<Member>)
    requires ms != []
    ensures OneLine(PrintMembers(ms)) && "}" == PrintMembers(ms)[|PrintMembers(ms)| - 1..]
    decreases |ms|
  {
    MemberOneLine(ms[0]);
    var rest := if |ms| == 1 then "}" else "," + PrintMembers(ms[1..]);
    if |ms| > 1 {
      PrintedOneLine(ms[1..]);
      OneLineConcat(",", PrintMembers(ms[1..]));
    }
    OneLineConcat(PrintMember(ms[0]), rest);
  }
}
