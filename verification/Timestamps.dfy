/**
  The clock and the timestamp text format.

  Stamps are whole milliseconds rounded up to the next multiple of ten. On the wire
  they are seconds with two decimals, printed from and read back through a binary
  double. A positive double is modelled as `mant / 2^shift` and every operation
  rounds its exact result to the nearest double, ties to even (section 4.3.1 of
  IEEE 754-2008).
 */
module Timestamps {
  import opened Prelude
  import opened Decimal

  const MS: nat := 1_000_000            // nanoseconds in a millisecond
  const MAX_TIMESTAMP: nat := 4070822400000

  /** The stamp for an instant given in nanoseconds since the epoch. */
  function Now(instant: nat): (stamp: nat)
    ensures stamp % 10 == 0
    ensures stamp * MS > instant && stamp * MS <= instant + 10 * MS
  {
    var ms := instant / MS;
    ms + 10 - ms % 10
  }

  lemma NowMonotone(a: nat, b: nat)
    requires a <= b
    ensures Now(a) <= Now(b)
  {
    assert a / MS <= b / MS;
  }

  /** Ten milliseconds apart is enough for distinct stamps. */
  lemma NowSeparates(a: nat, b: nat)
    requires a + 10 * MS <= b
    ensures Now(a) + 10 <= Now(b)
  {
    assert a / MS + 10 <= b / MS;
  }

  // ---------------------------------------------------------------- doubles

  function Pow2(n: nat): (p: nat)
    ensures p > 0
  {
    if n == 0 then 1 else 2 * Pow2(n - 1)
  }

  const P52: nat := 0x10_0000_0000_0000
  const P53: nat := 0x20_0000_0000_0000
  const P62: nat := 0x4000_0000_0000_0000

  /** n / d rounded to the nearest integer, ties to even. */
  function RoundDiv(n: nat, d: nat): nat
    requires d > 0
  {
    var q, r := n / d, n % d;
    if 2 * r < d || (2 * r == d && q % 2 == 0) then q else q + 1
  }

  /** `mant / 2^shift`. */
  datatype Double = Double(mant: nat, shift: nat)

  /** The least scaling that makes n / d a 53-bit number. */
  function Shift(n: nat, d: nat): (s: nat)
    requires n > 0 && d > 0
    ensures n * Pow2(s) >= P52 * d
    ensures s > 0 ==> n * Pow2(s) < P53 * d
    decreases P53 * d - n
  {
    if n >= P52 * d then 0
    else
      var s := Shift(2 * n, d);
      assert (2 * n) * Pow2(s) == n * Pow2(s + 1);
      s + 1
  }

  /** The double nearest to n / d, for values below 2^53. */
  function NearestDouble(n: nat, d: nat): Double
    requires d > 0
  {
    if n == 0 then Double(0, 0) else Double(RoundDiv(n * Pow2(Shift(n, d)), d), Shift(n, d))
  }

  /** `fmt.Sprintf("%.2f", float64(modified)/1000)`. */
  function ModifiedToString(modified: nat): (text: string) {
    var f := NearestDouble(modified, 1000);
    Hundredths(RoundDiv(100 * f.mant, Pow2(f.shift)))
  }

  /** The two-decimal text of k / 100. */
  function Hundredths(k: nat): (text: string) {
    Digits(k / 100) + "." + [DigitChar(k % 100 / 10), DigitChar(k % 10)]
  }

  /** Plain decimals only: digits, then optionally a point and more digits. */
  function ParseDecimal(text: string): (r: Option<(nat, nat)>)
    ensures r.Some? ==> r.value.1 > 0
  {
    var dot := FindDot(text);
    var whole, frac := text[..dot], if dot < |text| then text[dot + 1..] else "";
    if AllDigits(whole) && AllDigits(frac) && |whole| + |frac| > 0
    then Some((Value(whole + frac), Pow10(|frac|)))
    else None
  }

  function FindDot(text: string): (i: nat)
    ensures i <= |text| && (i < |text| ==> text[i] == '.')
    ensures forall j :: 0 <= j < i ==> text[j] != '.'
  {
    if text == [] || text[0] == '.' then 0 else 1 + FindDot(text[1..])
  }

  /** f * 1000 rounded to a double, then truncated toward zero. */
  function TimesThousand(f: Double): nat {
    Truncate(NearestDouble(1000 * f.mant, Pow2(f.shift)))
  }

  function Truncate(f: Double): nat {
    FloorDiv(f.mant, Pow2(f.shift))
  }

  function FloorDiv(n: nat, d: nat): nat
    requires d > 0
  {
    n / d
  }

  /** Seconds as text to milliseconds: parse to a double, times 1000, truncate. */
  function ConvertTimestamp(text: string): Option<nat> {
    var parsed := ParseDecimal(text);
    if parsed.None? then None
    else Some(TimesThousand(NearestDouble(parsed.value.0, parsed.value.1)))
  }

  /** With a minus sign: truncation is toward zero. */
  function ConvertSigned(text: string): Option<int> {
    match ConvertTimestamp(text)
    case Some(m) => Some(m)
    case None =>
      if |text| == 0 || text[0] != '-' then None
      else
        match ConvertTimestamp(text[1..])
        case Some(m) => Some(-(m as int))
        case None => None
  }

  /** A minus sign in front of a number negates it. */
  lemma MinusReads(text: string, m: nat)
    requires ConvertTimestamp(text) == Some(m)
    ensures ConvertSigned("-" + text) == Some(-(m as int))
  {
    var signed := "-" + text;
    assert signed[1..] == text && !IsDigit(signed[0]);
    MinusIsNoDigit(signed, FindDot(signed));
  }

  lemma MinusIsNoDigit(signed: string, dot: nat)
    requires |signed| > 0 && signed[0] == '-' && dot == FindDot(signed)
    ensures ParseDecimal(signed) == None
  {
    assert signed[..dot][0] == '-';
  }

  // ------------------------------------------------------- rounding lemmas

  lemma {:induction false} ShiftIs(n: nat, d: nat, s: nat)
    requires n > 0 && d > 0
    requires P52 * d <= n * Pow2(s) < P53 * d
    ensures Shift(n, d) == s
    decreases s
  {
    if s > 0 {
      Halve(n, d, s);
      ShiftIs(2 * n, d, s - 1);
    }
  }

  lemma Halve(n: nat, d: nat, s: nat)
    requires s > 0 && n * Pow2(s) < P53 * d
    ensures n * Pow2(s) == (2 * n) * Pow2(s - 1) && n < P52 * d
  {
    var p := Pow2(s - 1);
    assert n * (2 * p) == 2 * (n * p);
    Pow2AtLeast(n, s - 1);
  }

  lemma Pow2AtLeast(n: nat, s: nat)
    ensures n * Pow2(s) >= n
  {}

  lemma {:induction false} Pow2Sum(a: nat, b: nat)
    ensures Pow2(a + b) == Pow2(a) * Pow2(b)
  {
    if a > 0 { Pow2Sum(a - 1, b); }
  }

  /** Rounding finds q when the remainder is less than half the divisor. */
  lemma RoundDivNear(q: nat, d: nat, e: int)
    requires d > 0 && q * d + e >= 0 && -(d as int) < 2 * e < d
    ensures RoundDiv(q * d + e, d) == q
  {
    DivUnique(q * d + e, d, if e >= 0 then q else q - 1, if e >= 0 then e else e + d);
  }

  lemma DivUnique(n: int, d: nat, q: int, r: int)
    requires d > 0 && n == q * d + r && 0 <= r < d
    ensures n / d == q && n % d == r
  {
    var t := n / d - q;
    assert n == (n / d) * d + n % d;
    assert t * d == r - n % d by { assert (n / d) * d == q * d + t * d; }
    if t >= 1 { MulAtLeast(t, d); }
    if t <= -1 { assert (-t) * d == -(t * d); MulAtLeast(-t, d); }
  }

  lemma MulAtLeast(t: nat, d: nat)
    requires t >= 1
    ensures t * d >= d
  {}

  /** A division with remainder, all scaled. */
  lemma ScaledDivision(q: nat, d: nat, r: nat, c: nat)
    requires r < d && c > 0
    ensures (q * d + r) * c == q * (d * c) + r * c && r * c < d * c
  {
    assert (q * d) * c == q * (d * c);
    MulOrder(r, d, c);
  }

  lemma RoundDivScale(n: nat, d: nat, c: nat)
    requires d > 0 && c > 0
    ensures d * c > 0
    ensures RoundDiv(n * c, d * c) == RoundDiv(n, d)
  {
    var q, r := n / d, n % d;
    ScaledDivision(q, d, r, c);
    DivUnique(n * c, d * c, q, r * c);
    assert 2 * (r * c) == (2 * r) * c;
    MulOrder(2 * r, d, c);
    MulOrder(d, 2 * r, c);
  }

  lemma MulOrder(a: nat, b: nat, c: nat)
    requires c > 0
    ensures a * c < b * c <==> a < b
  {
    if a < b { assert (b - a) * c > 0; } else { assert (a - b) * c >= 0; }
  }

  // ------------------------------------------------ the round trip, exactly

  /**
    A stamp below 2^43 seconds survives the trip through text unless its double
    falls in the lower part of its binade and was rounded down too far.
   */
  predicate Exact(m: nat)
    requires m > 0
  {
    var s := Shift(m, 1000);
    m * Pow2(s) >= P62 || !(25 < (m / 10 * Pow2(s)) % 100 < 50)
  }

  /** The double of k / 100 and how far it is from k / 100. */
  lemma PrintedDouble(m: nat) returns (f: nat, s: nat, unit: nat, err: int)
    requires 0 < m < 0x80000000000 * 1000 && m % 10 == 0
    ensures NearestDouble(m, 1000) == NearestDouble(m / 10, 100) == Double(f, s)
    ensures s == Shift(m, 1000) && s >= 10 && unit == Pow2(s - 10) && Pow2(s) == 1024 * unit
    ensures P52 <= f <= P53
    ensures 100 * f == m / 10 * Pow2(s) + err && -50 <= err <= 50
    ensures err < -25 <==> 25 < (m / 10 * Pow2(s)) % 100 < 50
  {
    var k := m / 10;
    s := Shift(m, 1000);
    SmallShift(m);
    unit := Pow2(s - 10);
    Pow2Sum(10, s - 10);
    assert Pow2(10) == 1024;
    var x := k * Pow2(s);
    Regroup(m, k, Pow2(s), unit);
    ShiftIs(k, 100, s);
    RoundDivScale(x, 100, 10);
    f, err := RoundedHundredths(x);
  }

  lemma Regroup(m: nat, k: nat, p: nat, unit: nat)
    requires m == 10 * k && p == 1024 * unit
    ensures m * p == 10 * (k * p) && (k * p) % 4 == 0
  {
    assert k * p == 4 * (k * 256 * unit);
  }

  lemma RoundedHundredths(x: nat) returns (f: nat, err: int)
    requires x % 4 == 0 && P52 * 100 <= x < P53 * 100
    ensures f == RoundDiv(x, 100) && P52 <= f <= P53
    ensures 100 * f == x + err && -50 <= err <= 50
    ensures err < -25 <==> 25 < x % 100 < 50
  {
    f := RoundDiv(x, 100);
    err := 100 * f - x;
  }

  lemma SmallShift(m: nat)
    requires 0 < m < 0x80000000000 * 1000
    ensures Shift(m, 1000) >= 10
  {
    var s := Shift(m, 1000);
    if s < 10 {
      Pow2AtMost512(s);
      MulOrder(512, Pow2(s), m);
      assert false;
    }
  }

  lemma Pow2AtMost512(s: nat)
    requires s < 10
    ensures Pow2(s) <= 512
  {
    Pow2Sum(s, 9 - s);
    assert Pow2(9) == 512;
    Pow2AtLeast(Pow2(s), 9 - s);
  }

  lemma PrintsHundredths(m: nat)
    requires m < 0x80000000000 * 1000 && m % 10 == 0
    ensures ModifiedToString(m) == Hundredths(m / 10)
  {
    if m > 0 {
      var f, s, unit, err := PrintedDouble(m);
      RoundDivNear(m / 10, Pow2(s), err);
    }
  }

  lemma ParsesHundredths(k: nat)
    ensures ParseDecimal(Hundredths(k)) == Some((k, 100))
  {
    var whole, r := Digits(k / 100), k % 100;
    var frac := [DigitChar(r / 10), DigitChar(r % 10)];
    assert r % 10 == k % 10;
    ParsesPoint(whole, frac);
    DigitsValue(k / 100);
    ValueAppend(whole, frac);
    TwoDigits(r);
  }

  lemma ParsesPoint(whole: string, frac: string)
    requires AllDigits(whole) && AllDigits(frac) && |whole| > 0
    ensures ParseDecimal(whole + "." + frac) == Some((Value(whole + frac), Pow10(|frac|)))
  {
    var text := whole + "." + frac;
    DotAfter(whole, frac);
    assert text[..|whole|] == whole && text[|whole| + 1..] == frac;
  }

  lemma DotAfter(whole: string, frac: string)
    requires AllDigits(whole)
    ensures FindDot(whole + "." + frac) == |whole|
  {
    var text := whole + "." + frac;
    assert text[|whole|] == '.';
    forall j | 0 <= j < |whole| ensures text[j] != '.' { assert text[j] == whole[j] && IsDigit(whole[j]); }
  }

  lemma TwoDigits(r: nat)
    requires r < 100
    ensures Value([DigitChar(r / 10), DigitChar(r % 10)]) == r && Pow10(2) == 100
  {
    var tens, s := [DigitChar(r / 10)], [DigitChar(r / 10), DigitChar(r % 10)];
    assert s[..1] == tens && tens[..0] == [];
    assert Value(tens) == r / 10;
  }

  /** The product of a stamp in the upper part of its binade is exact. */
  lemma ProductUpper(m: nat, f: nat, s: nat, unit: nat, err: int)
    requires s >= 10 && unit == Pow2(s - 10) && Pow2(s) == 1024 * unit && P52 <= f <= P53
    requires 1000 * f == 1024 * (m * unit) + 10 * err && -50 <= err <= 50
    requires 1024 * (m * unit) > P62
    ensures TimesThousand(Double(f, s)) == m
  {
    var n := 1000 * f;
    assert n >= P62;
    ScaleBounds(n, 1024, unit);
    ShiftIs(n, Pow2(s), s - 10);
    RoundDivScale(n, 1024, unit);
    RoundDivNear(m * unit, 1024, 10 * err);
    DivUnique(m * unit, unit, m, 0);
  }

  /** In the lower part it is exact unless the double was too small, and then it is one short. */
  lemma ProductLower(m: nat, f: nat, s: nat, unit: nat, err: int)
    requires s >= 10 && unit == Pow2(s - 10) && Pow2(s) == 1024 * unit && P52 <= f <= P53
    requires m > 0 && 1000 * f == 1024 * (m * unit) + 10 * err && -50 <= err <= 50
    requires 1024 * (m * unit) < P62
    ensures TimesThousand(Double(f, s)) == if err < -25 then m - 1 else m
  {
    var n, half := 1000 * f, 2 * unit;
    var q := m * half;
    assert Pow2(s - 9) == half;
    assert q == 2 * (m * unit);
    RoundedLower(n, q, err);
    FloorLower(m, half, q);
    ScaledLower(n, f, s, half);
  }

  /** In the lower part of its binade the product is rounded to a multiple of 512. */
  lemma ScaledLower(n: nat, f: nat, s: nat, half: nat)
    requires s >= 10 && half > 0 && Pow2(s - 9) == half && Pow2(s) == 512 * half && n == 1000 * f
    requires P52 * 512 <= n < P53 * 512
    ensures TimesThousand(Double(f, s)) == FloorDiv(RoundDiv(n, 512), half)
  {
    ScaleBounds(n, 512, half);
    ShiftIs(n, Pow2(s), s - 9);
    RoundDivScale(n, 512, half);
  }

  lemma RoundedLower(n: nat, q: nat, err: int)
    requires n == 512 * q + 10 * err && -50 <= err <= 50 && q > 0
    ensures RoundDiv(n, 512) == if err < -25 then q - 1 else if err > 25 then q + 1 else q
  {
    if err < -25 {
      RoundDivNear(q - 1, 512, 10 * err + 512);
    } else if err > 25 {
      RoundDivNear(q + 1, 512, 10 * err - 512);
    } else {
      RoundDivNear(q, 512, 10 * err);
    }
  }

  lemma FloorLower(m: nat, half: nat, q: nat)
    requires m > 0 && half >= 2 && q == m * half
    ensures q > 0 && FloorDiv(q - 1, half) == m - 1 && FloorDiv(q, half) == FloorDiv(q + 1, half) == m
  {
    assert q == (m - 1) * half + half;
    DivUnique(q - 1, half, m - 1, half - 1);
    DivUnique(q, half, m, 0);
    DivUnique(q + 1, half, m, 1);
  }

  lemma ScaleBounds(n: nat, c: nat, unit: nat)
    requires unit > 0 && P52 * c <= n < P53 * c
    ensures P52 * (c * unit) <= n * unit < P53 * (c * unit)
  {
    MulOrder(n, P53 * c, unit);
    MulOrder(n, P52 * c, unit);
    assert P52 * (c * unit) == (P52 * c) * unit;
    assert P53 * (c * unit) == (P53 * c) * unit;
  }

  /**
    Every stamp, printed and read back: exactly itself when `Exact`, and one
    millisecond short otherwise.
   */
  lemma RoundTrip(m: nat)
    requires 0 < m < 0x80000000000 * 1000 && m % 10 == 0
    ensures ConvertTimestamp(ModifiedToString(m)) == Some(if Exact(m) then m else m - 1)
  {
    PrintsHundredths(m);
    ParsesHundredths(m / 10);
    var f, s, unit, err := PrintedDouble(m);
    Thousands(m, m / 10, Pow2(s), unit, f, err);
    if 1024 * (m * unit) >= P62 {
      NotPowerOfTwo(m * unit, m / 10 * unit);
      ProductUpper(m, f, s, unit, err);
    } else {
      ProductLower(m, f, s, unit, err);
    }
  }

  lemma Thousands(m: nat, k: nat, p: nat, unit: nat, f: nat, err: int)
    requires m == 10 * k && p == 1024 * unit && 100 * f == k * p + err
    ensures 1000 * f == 1024 * (m * unit) + 10 * err
    ensures m * p == 1024 * (m * unit) && m * unit == 10 * (k * unit)
  {}

  lemma NotPowerOfTwo(x: nat, y: nat)
    requires x == 10 * y
    ensures 1024 * x != P62
  {}

  function Distance(a: int, b: int): nat {
    if a < b then b - a else a - b
  }

  /** No integer is nearer to n / d than the rounded quotient, and of two equally near it is the even one. */
  lemma RoundDivIsNearest(n: nat, d: nat, z: int)
    requires d > 0
    ensures Distance(RoundDiv(n, d) * d, n) <= Distance(z * d, n)
    ensures z != RoundDiv(n, d) && Distance(RoundDiv(n, d) * d, n) == Distance(z * d, n) ==> RoundDiv(n, d) % 2 == 0
  {
    var q, r := n / d, n % d;
    assert n == q * d + r && 0 <= r < d;
    assert (q + 1) * d == q * d + d;
    if z <= q {
      Multiples(z, q, d);
    } else {
      Multiples(q + 1, z, d);
    }
  }

  /** Multiples of d grow by at least d with each step. */
  lemma Multiples(a: int, b: int, d: nat)
    requires d > 0 && a <= b
    ensures a * d <= b * d && (a < b ==> a * d + d <= b * d)
  {
    assert b * d - a * d == (b - a) * d;
    if a < b { MulAtLeast(b - a, d); }
  }

  /** A stamp a client can echo back: never stamped, or exact in text. */
  predicate Echoes(stamp: nat) {
    stamp == 0 || (stamp < 0x80000000000 * 1000 && stamp % 10 == 0 && Exact(stamp))
  }

  lemma EchoedStamp(stamp: nat)
    requires Echoes(stamp)
    ensures ConvertTimestamp(ModifiedToString(stamp)) == Some(stamp)
  {
    if stamp == 0 {
      PrintsHundredths(0);
      ParsesHundredths(0);
    } else {
      RoundTrip(stamp);
    }
  }

  /**
    All stamps from November 2004 to January 2038 echo, and all from September 2039
    until after MAX_TIMESTAMP. Between the two, those with the stated residue do not.
   */
  lemma EchoWindows(m: nat)
    requires m % 10 == 0
    ensures 0x100_0000_0000 <= m < 0x8000_0000 * 1000 ==> Echoes(m)
    ensures 0x200_0000_0000 <= m < 0x1_0000_0000 * 1000 ==> Echoes(m)
    ensures 0x8000_0000 * 1000 <= m < 0x200_0000_0000 ==>
              (Echoes(m) <==> !(25 < m / 10 * 0x20_0000 % 100 < 50))
    ensures MAX_TIMESTAMP < 0x1_0000_0000 * 1000
  {
    Pow2Values();
    if 0x100_0000_0000 <= m < 0x8000_0000 * 1000 {
      ShiftIs(m, 1000, 22);
    } else if 0x8000_0000 * 1000 <= m < 0x1_0000_0000 * 1000 {
      ShiftIs(m, 1000, 21);
    }
  }

  lemma Pow2Values()
    ensures Pow2(21) == 0x20_0000 && Pow2(22) == 0x40_0000
  {
    assert Pow2(7) == 128;
    Pow2Sum(7, 7);
    Pow2Sum(14, 7);
  }

  /** The stamps of 2038 and 2039 with that residue come back one millisecond short. */
  lemma LostMillisecond(m: nat)
    requires 0x8000_0000 * 1000 <= m < 0x200_0000_0000 && m % 10 == 0
    requires 25 < m / 10 * 0x20_0000 % 100 < 50
    ensures ConvertTimestamp(ModifiedToString(m)) == Some(m - 1)
  {
    EchoWindows(m);
    RoundTrip(m);
  }

  /** One of them: 3:14:08.14 on 19 January 2038. */
  lemma LostExample(m: nat)
    requires m == 2147483648140
    ensures ConvertTimestamp(ModifiedToString(m)) == Some(m - 1)
  {
    Residue(m);
    LostMillisecond(m);
  }

  lemma Residue(m: nat)
    requires m == 2147483648140
    ensures m / 10 * 0x20_0000 % 100 == 28
  {}

  /** The text is 13 bytes exactly for stamps of 13 digits. */
  lemma TextLength(m: nat)
    requires m < 0x80000000000 * 1000 && m % 10 == 0
    ensures |ModifiedToString(m)| == 13 <==> 1_000_000_000_000 <= m < 10_000_000_000_000
  {
    PrintsHundredths(m);
    var whole := m / 10 / 100;
    DigitsLength(whole, 9);
    DigitsLength(whole, 10);
    Pow10Values();
  }

  lemma Pow10Values()
    ensures Pow10(9) == 1_000_000_000 && Pow10(10) == 10_000_000_000
  {
    assert Pow10(3) == 1000;
    assert Pow10(6) == 1000 * Pow10(3);
    assert Pow10(9) == 1000 * Pow10(6);
  }
}
