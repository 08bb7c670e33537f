/** Printing and parsing timestamps as RFC 3339 section 5.6 date-times. */
module Rfc3339 {
  import opened Time
  import opened Calendar

  type Byte = x: int | 0 <= x < 256

  const ZERO: int := '0' as int
  const DASH: int := '-' as int
  const PLUS: int := '+' as int
  const COLON: int := ':' as int
  const DOT: int := '.' as int
  const COMMA: int := ',' as int
  const SPACE: int := ' ' as int
  const UPPER_T: int := 'T' as int
  const LOWER_T: int := 't' as int
  const UPPER_Z: int := 'Z' as int
  const LOWER_Z: int := 'z' as int

  datatype FieldName = Month | Day | Hour | Minute | Second | Offset

  datatype InvalidTimestamp = Malformed | FieldOutOfRange(field: FieldName) | OutOfRange

  datatype Result<+T> = Ok(value: T) | Err(error: InvalidTimestamp) {
    predicate IsFailure() { Err? }
    function PropagateFailure<U>(): Result<U>
      requires Err?
    { Err(error) }
    function Extract(): T
      requires Ok?
    { value }
  }

  datatype Outcome = Pass | Fail(error: InvalidTimestamp) {
    predicate IsFailure() { Fail? }
    function PropagateFailure<U>(): Result<U>
      requires Fail?
    { Err(error) }
  }

  function Need(condition: bool, error: InvalidTimestamp): Outcome {
    if condition then Pass else Fail(error)
  }

  predicate IsDigit(b: Byte) { ZERO <= b <= ZERO + 9 }

  predicate ByteAt(b: seq<Byte>, i: nat, x: int) { i < |b| && b[i] == x }

  // -------------------------------------------------------------------------
  // The parser: what it computes, stage by stage
  // -------------------------------------------------------------------------

  /** The number written in the `len` digits from `from`. */
  function DigitsAt(b: seq<Byte>, from: nat, len: nat): (r: Result<nat>)
    requires from + len <= |b|
  {
    if len == 0 then Ok(0)
    else
      var front :- DigitsAt(b, from, len - 1);
      if IsDigit(b[from + len - 1]) then Ok(front * 10 + (b[from + len - 1] - ZERO)) else Err(Malformed)
  }

  function Field(b: seq<Byte>, from: nat, len: nat): Result<nat> {
    if from + len <= |b| then DigitsAt(b, from, len) else Err(Malformed)
  }

  datatype Fields = Fields(year: nat, month: nat, day: nat, hour: nat, minute: nat, second: nat)

  predicate IsSeparator(x: int) { x == UPPER_T || x == LOWER_T || x == SPACE }

  function ParseFields(b: seq<Byte>): Result<Fields> {
    var _ :- if |b| >= 20 then Ok(()) else Err(Malformed);
    var year :- Field(b, 0, 4);
    :- Need(ByteAt(b, 4, DASH), Malformed);
    var month :- Field(b, 5, 2);
    :- Need(ByteAt(b, 7, DASH), Malformed);
    var day :- Field(b, 8, 2);
    :- Need(10 < |b| && IsSeparator(b[10]), Malformed);
    var hour :- Field(b, 11, 2);
    :- Need(ByteAt(b, 13, COLON), Malformed);
    var minute :- Field(b, 14, 2);
    :- Need(ByteAt(b, 16, COLON), Malformed);
    var second :- Field(b, 17, 2);
    Ok(Fields(year, month, day, hour, minute, second))
  }

  /** The first position from `i` on that is not a digit. */
  function DigitsEnd(b: seq<Byte>, i: nat): (end: nat)
    requires i <= |b|
    ensures i <= end <= |b|
    ensures forall j :: i <= j < end ==> IsDigit(b[j])
    ensures end < |b| ==> !IsDigit(b[end])
    decreases |b| - i
  {
    if i < |b| && IsDigit(b[i]) then DigitsEnd(b, i + 1) else i
  }

  function Pow10(k: nat): (r: nat)
    ensures r > 0
  {
    if k == 0 then 1 else 10 * Pow10(k - 1)
  }

  predicate AllDigits(ds: seq<Byte>) { forall d <- ds :: IsDigit(d) }

  lemma {:induction false} DigitTimes(d: Byte, p: nat)
    requires IsDigit(d)
    ensures 0 <= (d - ZERO) * p <= 9 * p
  {
  }

  /** The fraction `0.ds` in units of `10^-places`, truncated. */
  function FractionValue(ds: seq<Byte>, places: nat): (n: nat)
    requires AllDigits(ds)
    ensures n < Pow10(places)
    decreases places
  {
    if ds == [] || places == 0 then 0
    else
      DigitTimes(ds[0], Pow10(places - 1));
      (ds[0] - ZERO) * Pow10(places - 1) + FractionValue(ds[1..], places - 1)
  }

  /** Position after the optional fraction, and the nanoseconds it says. */
  function ParseFraction(b: seq<Byte>): Result<(nat, SubsecondNanos)> {
    NinePlaces();
    if ByteAt(b, 19, DOT) || ByteAt(b, 19, COMMA) then
      var end := DigitsEnd(b, 20);
      if end == 20 then Err(Malformed) else Ok((end, FractionValue(b[20..end], 9)))
    else Ok((19, 0))
  }

  lemma {:induction false} NinePlaces()
    ensures Pow10(8) == 100_000_000 && Pow10(9) == NANOS_PER_SECOND
  {
    assert Pow10(3) == 1000;
    assert Pow10(6) == 1_000_000;
  }

  /** Position after the zone, and the offset in seconds east of UTC. */
  function ParseZone(b: seq<Byte>, i: nat): Result<(nat, int)> {
    if ByteAt(b, i, UPPER_Z) || ByteAt(b, i, LOWER_Z) then Ok((i + 1, 0))
    else if ByteAt(b, i, PLUS) || ByteAt(b, i, DASH) then
      var oh :- Field(b, i + 1, 2);
      :- Need(ByteAt(b, i + 3, COLON), Malformed);
      var om :- Field(b, i + 4, 2);
      :- Need(oh <= 23 && om <= 59, FieldOutOfRange(Offset));
      var magnitude := oh * 3_600 + om * 60;
      Ok((i + 6, if b[i] == DASH then -magnitude else magnitude))
    else Err(Malformed)
  }

  /** Range checks and the conversion to seconds, in the order the parser makes them. */
  function Resolve(f: Fields, nanos: SubsecondNanos, offset: int): Result<Timestamp> {
    var _ :- if 1 <= f.month <= 12 then Ok(()) else Err(FieldOutOfRange(Month));
    :- Need(1 <= f.day <= DaysInMonth(f.year, f.month), FieldOutOfRange(Day));
    :- Need(f.hour <= 23, FieldOutOfRange(Hour));
    :- Need(f.minute <= 59, FieldOutOfRange(Minute));
    :- Need(f.second <= 60, FieldOutOfRange(Second));
    var second := if f.second < 59 then f.second else 59;
    var days := DaysFromCivil(Civil(f.year, f.month, f.day));
    match CheckedI64(days * 86_400)
    case None => Err(OutOfRange)
    case Some(s) =>
      match CheckedI64(s + f.hour * 3_600 + f.minute * 60 + second)
      case None => Err(OutOfRange)
      case Some(local) =>
        match CheckedI64(local - offset)
        case None => Err(OutOfRange)
        case Some(secs) => Ok(Timestamp(secs, nanos))
  }

  function Parse(b: seq<Byte>): Result<Timestamp> {
    var f :- ParseFields(b);
    var fraction :- ParseFraction(b);
    var zone :- ParseZone(b, fraction.0);
    :- Need(zone.0 == |b|, Malformed);
    Resolve(f, fraction.1, zone.1)
  }

  // -------------------------------------------------------------------------
  // The parser as it runs: one pass with an index
  // -------------------------------------------------------------------------

  method ReadDigits(b: seq<Byte>, from: nat, len: nat) returns (r: Result<nat>)
    ensures r == Field(b, from, len)
  {
    if from + len > |b| { return Err(Malformed); }
    var acc: nat := 0;
    var k := 0;
    while k < len
      invariant 0 <= k <= len
      invariant DigitsAt(b, from, k) == Ok(acc)
    {
      if !IsDigit(b[from + k]) {
        DigitsFailTogether(b, from, k + 1, len);
        return Err(Malformed);
      }
      acc := acc * 10 + (b[from + k] - ZERO);
      k := k + 1;
    }
    return Ok(acc);
  }

  lemma {:induction false} DigitsFailTogether(b: seq<Byte>, from: nat, k: nat, len: nat)
    requires k <= len && from + len <= |b| && DigitsAt(b, from, k) == Err(Malformed)
    ensures DigitsAt(b, from, len) == Err(Malformed)
    decreases len - k
  {
    if k < len { DigitsFailTogether(b, from, k + 1, len); }
  }

  method ReadFraction(b: seq<Byte>) returns (r: Result<(nat, SubsecondNanos)>)
    ensures r == ParseFraction(b)
  {
    if !ByteAt(b, 19, DOT) && !ByteAt(b, 19, COMMA) { return Ok((19, 0)); }
    var start := 20;
    var i := start;
    while i < |b| && IsDigit(b[i])
      invariant start <= i <= |b|
      invariant DigitsEnd(b, start) == DigitsEnd(b, i)
    {
      i := i + 1;
    }
    if i == start { return Err(Malformed); }
    var nanos := SumDigits(b[start..i]);
    return Ok((i, nanos));
  }

  method SumDigits(ds: seq<Byte>) returns (nanos: SubsecondNanos)
    requires AllDigits(ds)
    ensures nanos == FractionValue(ds, 9)
  {
    NinePlaces();
    var sum, scale, k := 0, 100_000_000, 0;
    while k < |ds| && k < 9
      invariant 0 <= k <= |ds| && k <= 9
      invariant scale == if k < 9 then Pow10(8 - k) else 0
      invariant sum + FractionValue(ds[k..], 9 - k) == FractionValue(ds, 9)
    {
      assert ds[k..][1..] == ds[k + 1..];
      sum := sum + (ds[k] - ZERO) * scale;
      scale := scale / 10;
      k := k + 1;
    }
    nanos := sum;
  }

  method ReadZone(b: seq<Byte>, i: nat) returns (r: Result<(nat, int)>)
    ensures r == ParseZone(b, i)
  {
    if ByteAt(b, i, UPPER_Z) || ByteAt(b, i, LOWER_Z) { return Ok((i + 1, 0)); }
    if !ByteAt(b, i, PLUS) && !ByteAt(b, i, DASH) { return Err(Malformed); }
    var oh := ReadDigits(b, i + 1, 2);
    if oh.Err? { return Err(oh.error); }
    if !ByteAt(b, i + 3, COLON) { return Err(Malformed); }
    var om := ReadDigits(b, i + 4, 2);
    if om.Err? { return Err(om.error); }
    if oh.value > 23 || om.value > 59 { return Err(FieldOutOfRange(Offset)); }
    var magnitude: int := oh.value * 3_600 + om.value * 60;
    return Ok((i + 6, if b[i] == DASH then -magnitude else magnitude));
  }

  method ReadFields(b: seq<Byte>) returns (r: Result<Fields>)
    ensures r == ParseFields(b)
  {
    if |b| < 20 { return Err(Malformed); }
    var year := ReadDigits(b, 0, 4);
    if year.Err? { return Err(year.error); }
    if !ByteAt(b, 4, DASH) { return Err(Malformed); }
    var month := ReadDigits(b, 5, 2);
    if month.Err? { return Err(month.error); }
    if !ByteAt(b, 7, DASH) { return Err(Malformed); }
    var day := ReadDigits(b, 8, 2);
    if day.Err? { return Err(day.error); }
    if !IsSeparator(b[10]) { return Err(Malformed); }
    var hour := ReadDigits(b, 11, 2);
    if hour.Err? { return Err(hour.error); }
    if !ByteAt(b, 13, COLON) { return Err(Malformed); }
    var minute := ReadDigits(b, 14, 2);
    if minute.Err? { return Err(minute.error); }
    if !ByteAt(b, 16, COLON) { return Err(Malformed); }
    var second := ReadDigits(b, 17, 2);
    if second.Err? { return Err(second.error); }
    return Ok(Fields(year.value, month.value, day.value, hour.value, minute.value, second.value));
  }

  method ParseRfc3339(b: seq<Byte>) returns (r: Result<Timestamp>)
    ensures r == Parse(b)
  {
    var f := ReadFields(b);
    if f.Err? { return Err(f.error); }
    var fraction := ReadFraction(b);
    if fraction.Err? { return Err(fraction.error); }
    var zone := ReadZone(b, fraction.value.0);
    if zone.Err? { return Err(zone.error); }
    if zone.value.0 != |b| { return Err(Malformed); }
    r := Resolve(f.value, fraction.value.1, zone.value.1);
  }

  // -------------------------------------------------------------------------
  // The grammar: what a date-time text looks like and what it means
  // -------------------------------------------------------------------------

  datatype Zone = Utc(letter: Byte) | Numeric(west: bool, hours: nat, minutes: nat)

  datatype Fraction = Absent | Present(mark: Byte, digits: seq<Byte>)

  datatype DateTimeText = DateTimeText(fields: Fields, separator: Byte, fraction: Fraction, zone: Zone)

  /** Digit counts and letters are right; the values may still be out of range. */
  ghost predicate WellShaped(x: DateTimeText) {
    && x.fields.year < 10_000 && x.fields.month < 100 && x.fields.day < 100
    && x.fields.hour < 100 && x.fields.minute < 100 && x.fields.second < 100
    && IsSeparator(x.separator)
    && (x.fraction.Present? ==>
          (x.fraction.mark == DOT || x.fraction.mark == COMMA)
          && x.fraction.digits != [] && AllDigits(x.fraction.digits))
    && (match x.zone
        case Utc(z) => z == UPPER_Z || z == LOWER_Z
        case Numeric(_, h, m) => h < 100 && m < 100)
  }

  function Two(n: nat): seq<Byte>
    requires n < 100
  { [ZERO + n / 10, ZERO + n % 10] }

  function Four(n: nat): seq<Byte>
    requires n < 10_000
  { [ZERO + n / 1000, ZERO + n / 100 % 10, ZERO + n / 10 % 10, ZERO + n % 10] }

  predicate Printable(f: Fields) {
    f.year < 10_000 && f.month < 100 && f.day < 100 && f.hour < 100 && f.minute < 100 && f.second < 100
  }

  function FieldsText(f: Fields, separator: Byte): (s: seq<Byte>)
    requires Printable(f)
    ensures |s| == 19
  {
    Four(f.year) + [DASH] + Two(f.month) + [DASH] + Two(f.day) + [separator]
    + Two(f.hour) + [COLON] + Two(f.minute) + [COLON] + Two(f.second)
  }

  function FractionText(f: Fraction): seq<Byte> {
    if f.Absent? then [] else [f.mark] + f.digits
  }

  function ZoneText(z: Zone): seq<Byte>
    requires z.Numeric? ==> z.hours < 100 && z.minutes < 100
  {
    match z
    case Utc(letter) => [letter]
    case Numeric(west, h, m) => [if west then DASH else PLUS] + Two(h) + [COLON] + Two(m)
  }

  ghost function Text(x: DateTimeText): seq<Byte>
    requires WellShaped(x)
  {
    FieldsText(x.fields, x.separator) + FractionText(x.fraction) + ZoneText(x.zone)
  }

  ghost function OffsetOf(z: Zone): int {
    match z
    case Utc(_) => 0
    case Numeric(west, h, m) => if west then -(h * 3_600 + m * 60) else h * 3_600 + m * 60
  }

  ghost function NanosOf(f: Fraction): SubsecondNanos
    requires f.Present? ==> AllDigits(f.digits)
  {
    NinePlaces();
    if f.Absent? then 0 else FractionValue(f.digits, 9)
  }

  /** What a well-shaped text denotes, independently of how it is scanned. */
  ghost function Meaning(x: DateTimeText): Result<Timestamp>
    requires WellShaped(x)
  {
    if x.zone.Numeric? && !(x.zone.hours <= 23 && x.zone.minutes <= 59) then Err(FieldOutOfRange(Offset))
    else Resolve(x.fields, NanosOf(x.fraction), OffsetOf(x.zone))
  }

  lemma {:induction false} FieldsTextBytes(f: Fields, sep: Byte)
    requires Printable(f)
    ensures var s := FieldsText(f, sep);
      && s[0..4] == Four(f.year) && s[5..7] == Two(f.month) && s[8..10] == Two(f.day)
      && s[11..13] == Two(f.hour) && s[14..16] == Two(f.minute) && s[17..19] == Two(f.second)
      && s[4] == DASH && s[7] == DASH && s[10] == sep && s[13] == COLON && s[16] == COLON
  {
  }

  lemma {:induction false} TwoDigits(b: seq<Byte>, from: nat, n: nat)
    requires n < 100 && from + 2 <= |b| && b[from..from + 2] == Two(n)
    ensures Field(b, from, 2) == Ok(n)
  {
    var w := b[from..from + 2];
    assert b[from] == w[0] && b[from + 1] == w[1];
    assert DigitsAt(b, from, 0) == Ok(0);
    assert DigitsAt(b, from, 1) == Ok(n / 10);
  }

  lemma {:induction false} FourDigits(b: seq<Byte>, from: nat, n: nat)
    requires n < 10_000 && from + 4 <= |b| && b[from..from + 4] == Four(n)
    ensures Field(b, from, 4) == Ok(n)
  {
    var w := b[from..from + 4];
    assert b[from] == w[0] && b[from + 1] == w[1] && b[from + 2] == w[2] && b[from + 3] == w[3];
    assert DigitsAt(b, from, 0) == Ok(0);
    assert DigitsAt(b, from, 1) == Ok(n / 1000);
    assert DigitsAt(b, from, 2) == Ok(n / 100);
    assert DigitsAt(b, from, 3) == Ok(n / 10);
  }

  lemma {:induction false} WindowOfPrefix(head: seq<Byte>, rest: seq<Byte>, i: nat, j: nat)
    requires i <= j <= |head|
    ensures (head + rest)[i..j] == head[i..j]
  {
  }

  lemma {:induction false} ParsesFields(f: Fields, sep: Byte, rest: seq<Byte>)
    requires Printable(f) && IsSeparator(sep) && rest != []
    ensures ParseFields(FieldsText(f, sep) + rest) == Ok(f)
  {
    var head := FieldsText(f, sep);
    var b := head + rest;
    FieldsTextBytes(f, sep);
    WindowOfPrefix(head, rest, 0, 4);
    WindowOfPrefix(head, rest, 5, 7);
    WindowOfPrefix(head, rest, 8, 10);
    WindowOfPrefix(head, rest, 11, 13);
    WindowOfPrefix(head, rest, 14, 16);
    WindowOfPrefix(head, rest, 17, 19);
    FourDigits(b, 0, f.year);
    TwoDigits(b, 5, f.month);
    TwoDigits(b, 8, f.day);
    TwoDigits(b, 11, f.hour);
    TwoDigits(b, 14, f.minute);
    TwoDigits(b, 17, f.second);
    hide FieldsText, Field, Two, Four;
    assert ByteAt(b, 4, DASH) && ByteAt(b, 7, DASH) && b[10] == sep && ByteAt(b, 13, COLON) && ByteAt(b, 16, COLON);
  }

  lemma {:induction false} DigitsEndAt(b: seq<Byte>, i: nat, end: nat)
    requires i <= end <= |b|
    requires forall j :: i <= j < end ==> IsDigit(b[j])
    requires end < |b| ==> !IsDigit(b[end])
    ensures DigitsEnd(b, i) == end
    decreases end - i
  {
    if i < end { DigitsEndAt(b, i + 1, end); }
  }

  lemma {:induction false} ParsesFraction(head: seq<Byte>, f: Fraction, zone: seq<Byte>)
    requires |head| == 19 && zone != [] && !IsDigit(zone[0]) && zone[0] != DOT && zone[0] != COMMA
    requires f.Present? ==> (f.mark == DOT || f.mark == COMMA) && f.digits != [] && AllDigits(f.digits)
    ensures ParseFraction(head + FractionText(f) + zone) == Ok((19 + |FractionText(f)|, NanosOf(f)))
  {
    var b := head + FractionText(f) + zone;
    if f.Absent? {
      assert b[19] == zone[0];
    } else {
      var end := 20 + |f.digits|;
      assert b[19] == f.mark;
      assert b[20..end] == f.digits;
      forall j | 20 <= j < end ensures IsDigit(b[j]) { assert b[j] == f.digits[j - 20]; }
      assert b[end] == zone[0];
      DigitsEndAt(b, 20, end);
    }
  }

  lemma {:induction false} ParsesZone(front: seq<Byte>, z: Zone)
    requires match z case Utc(l) => l == UPPER_Z || l == LOWER_Z case Numeric(_, h, m) => h < 100 && m < 100
    ensures ParseZone(front + ZoneText(z), |front|)
         == if z.Numeric? && !(z.hours <= 23 && z.minutes <= 59) then Err(FieldOutOfRange(Offset))
            else Ok((|front + ZoneText(z)|, OffsetOf(z)))
  {
    var b, i, t := front + ZoneText(z), |front|, ZoneText(z);
    assert b[i] == t[0];
    if z.Numeric? {
      ParsesNumericZone(front, z);
      hide Two, Field;
    }
  }

  lemma {:induction false} ParsesNumericZone(front: seq<Byte>, z: Zone)
    requires z.Numeric? && z.hours < 100 && z.minutes < 100
    ensures var b, i := front + ZoneText(z), |front|;
      && |b| == i + 6 && b[i] == (if z.west then DASH else PLUS) && b[i + 3] == COLON
      && Field(b, i + 1, 2) == Ok(z.hours) && Field(b, i + 4, 2) == Ok(z.minutes)
  {
    var b, i, t := front + ZoneText(z), |front|, ZoneText(z);
    assert t[1..3] == Two(z.hours) && t[4..6] == Two(z.minutes) && t[3] == COLON;
    assert b[i + 1..i + 3] == t[1..3];
    assert b[i + 4..i + 6] == t[4..6];
    TwoDigits(b, i + 1, z.hours);
    TwoDigits(b, i + 4, z.minutes);
  }

  /** Every well-shaped text parses to exactly what it denotes, error for error. */
  lemma {:induction false} ParseIsMeaning(x: DateTimeText)
    requires WellShaped(x)
    ensures Parse(Text(x)) == Meaning(x)
  {
    var head, frac, zone := FieldsText(x.fields, x.separator), FractionText(x.fraction), ZoneText(x.zone);
    ZoneStart(x.zone);
    assert Text(x) == head + (frac + zone);
    ParsesFields(x.fields, x.separator, frac + zone);
    ParsesFraction(head, x.fraction, zone);
    ParsesZone(head + frac, x.zone);
    hide ParseFields, ParseFraction, ParseZone, FieldsText, Resolve, NanosOf;
  }

  lemma {:induction false} ZoneStart(z: Zone)
    requires match z case Utc(l) => l == UPPER_Z || l == LOWER_Z case Numeric(_, h, m) => h < 100 && m < 100
    ensures var t := ZoneText(z); t != [] && !IsDigit(t[0]) && t[0] != DOT && t[0] != COMMA
  {
  }

  // -------------------------------------------------------------------------
  // Nothing else parses
  // -------------------------------------------------------------------------

  lemma {:induction false} DigitsAreTwo(b: seq<Byte>, from: nat)
    requires from + 2 <= |b| && DigitsAt(b, from, 2).Ok?
    ensures DigitsAt(b, from, 2).value < 100 && b[from..from + 2] == Two(DigitsAt(b, from, 2).value)
  {
    assert DigitsAt(b, from, 0) == Ok(0);
    assert DigitsAt(b, from, 1) == Ok(b[from] - ZERO);
  }

  lemma {:induction false} DigitsAreFour(b: seq<Byte>, from: nat)
    requires from + 4 <= |b| && DigitsAt(b, from, 4).Ok?
    ensures DigitsAt(b, from, 4).value < 10_000 && b[from..from + 4] == Four(DigitsAt(b, from, 4).value)
  {
    var d4 := DigitsAt(b, from, 4).value;
    var d3 := DigitsAt(b, from, 3).value;
    var d2 := DigitsAt(b, from, 2).value;
    assert DigitsAt(b, from, 1).Ok?;
    assert DigitsAt(b, from, 0) == Ok(0);
    assert DigitsAt(b, from, 1) == Ok(b[from] - ZERO);
    assert d4 / 10 == d3 && d3 / 10 == d2 && d2 / 10 == b[from] - ZERO;
    assert d4 / 100 == d3 / 10 && d4 / 1000 == d2 / 10;
    assert b[from..from + 4] == [b[from], b[from + 1], b[from + 2], b[from + 3]];
  }

  lemma {:induction false} HeadWasWritten(b: seq<Byte>)
    requires ParseFields(b).Ok?
    ensures Printable(ParseFields(b).value) && IsSeparator(b[10])
    ensures b[..19] == FieldsText(ParseFields(b).value, b[10])
  {
    var f := ParseFields(b).value;
    DigitsAreFour(b, 0);
    DigitsAreTwo(b, 5);
    DigitsAreTwo(b, 8);
    DigitsAreTwo(b, 11);
    DigitsAreTwo(b, 14);
    DigitsAreTwo(b, 17);
    hide ParseFields, Two, Four, DigitsAt;
    var head := b[..19];
    assert head == b[0..4] + [b[4]] + b[5..7] + [b[7]] + b[8..10] + [b[10]]
                 + b[11..13] + [b[13]] + b[14..16] + [b[16]] + b[17..19];
  }

  ghost function FractionRead(b: seq<Byte>): Fraction
    requires |b| >= 20
  {
    if ByteAt(b, 19, DOT) || ByteAt(b, 19, COMMA) then Present(b[19], b[20..DigitsEnd(b, 20)]) else Absent
  }

  ghost function ZoneRead(b: seq<Byte>, i: nat): Zone
    requires ParseZone(b, i).Ok?
  {
    if b[i] == PLUS || b[i] == DASH
    then Numeric(b[i] == DASH, DigitsAt(b, i + 1, 2).value, DigitsAt(b, i + 4, 2).value)
    else Utc(b[i])
  }

  lemma {:induction false} ZoneWasWritten(b: seq<Byte>, i: nat)
    requires ParseZone(b, i).Ok? && ParseZone(b, i).value.0 == |b|
    ensures i < |b|
    ensures var z := ZoneRead(b, i);
      (match z case Utc(l) => l == UPPER_Z || l == LOWER_Z case Numeric(_, h, m) => h < 100 && m < 100)
      && b[i..] == ZoneText(z)
  {
    if b[i] == PLUS || b[i] == DASH {
      DigitsAreTwo(b, i + 1);
      DigitsAreTwo(b, i + 4);
      assert b[i..] == [b[i]] + b[i + 1..i + 3] + [b[i + 3]] + b[i + 4..i + 6];
    }
  }

  lemma {:induction false} FractionWasWritten(b: seq<Byte>)
    requires |b| >= 20 && ParseFraction(b).Ok?
    ensures var i := ParseFraction(b).value.0;
      19 <= i <= |b| && b[19..i] == FractionText(FractionRead(b))
    ensures var f := FractionRead(b);
      f.Present? ==> (f.mark == DOT || f.mark == COMMA) && f.digits != [] && AllDigits(f.digits)
  {
    hide FractionValue, Pow10;
    if FractionRead(b).Present? {
      var end := DigitsEnd(b, 20);
      assert b[19..end] == [b[19]] + b[20..end];
    }
  }

  ghost function TextRead(b: seq<Byte>): DateTimeText
    requires Parse(b).Ok?
  {
    DateTimeText(ParseFields(b).value, b[10], FractionRead(b), ZoneRead(b, ParseFraction(b).value.0))
  }

  lemma {:induction false} TextReadIsText(b: seq<Byte>)
    requires Parse(b).Ok?
    ensures WellShaped(TextRead(b)) && b == Text(TextRead(b))
  {
    var i := ParseFraction(b).value.0;
    HeadWasWritten(b);
    FractionWasWritten(b);
    ZoneWasWritten(b, i);
    assert b == b[..19] + b[19..i] + b[i..];
    hide ParseFields, ParseFraction, ParseZone, FieldsText, FractionText, ZoneText, FractionRead, ZoneRead, Resolve;
  }

  /** A text that parses is a well-shaped one, and its meaning is what was parsed. */
  lemma {:induction false} ParsedTextIsWellShaped(b: seq<Byte>)
    requires Parse(b).Ok?
    ensures exists x :: WellShaped(x) && b == Text(x) && Meaning(x) == Parse(b)
  {
    TextReadIsText(b);
    var x := TextRead(b);
    hide Parse, Text, TextRead, Meaning;
    ParseIsMeaning(x);
  }

  // -------------------------------------------------------------------------
  // What a parsed instant is
  // -------------------------------------------------------------------------

  /** The range checks, as one condition on the fields. */
  ghost predicate InRange(f: Fields) {
    Civil(f.year, f.month, f.day).Valid() && f.hour <= 23 && f.minute <= 59 && f.second <= 60
  }

  ghost function LocalSeconds(f: Fields): int {
    DaysFromCivil(Civil(f.year, f.month, f.day)) * 86_400 + f.hour * 3_600 + f.minute * 60
    + (if f.second < 59 then f.second else 59)
  }

  lemma {:induction false} YearsStayInRange(c: Civil)
    requires c.Valid() && 0 <= c.year < 10_000
    ensures -719_528 <= DaysFromCivil(c) <= 2_932_896
  {
    var first, last := Civil(0, 1, 1), Civil(9999, 12, 31);
    assert DaysFromCivil(first) == -719_528 && DaysFromCivil(last) == 2_932_896;
    DayNumbersAreOrdered(c, first);
    DayNumbersAreOrdered(last, c);
    hide DaysFromCivil, DaysInMonth;
  }

  /** With a four-digit year and a zone offset under a day, the seconds never overflow. */
  lemma {:induction false} ResolveIsExact(f: Fields, nanos: SubsecondNanos, offset: int)
    requires f.year < 10_000 && -86_400 < offset < 86_400
    ensures Resolve(f, nanos, offset).Ok? <==> InRange(f)
    ensures InRange(f) ==> I64_MIN <= LocalSeconds(f) - offset <= I64_MAX
    ensures InRange(f) ==> Resolve(f, nanos, offset) == Ok(Timestamp(LocalSeconds(f) - offset, nanos))
    ensures Resolve(f, nanos, offset) != Err(OutOfRange)
  {
    if InRange(f) { YearsStayInRange(Civil(f.year, f.month, f.day)); }
    hide DaysFromCivil, DaysInMonth;
  }

  ghost predicate OffsetInRange(z: Zone) { z.Numeric? ==> z.hours <= 23 && z.minutes <= 59 }

  /** The parser accepts exactly the well-shaped texts whose fields are in range. */
  lemma {:induction false} AcceptsExactly(x: DateTimeText)
    requires WellShaped(x)
    ensures Parse(Text(x)).Ok? <==> InRange(x.fields) && OffsetInRange(x.zone)
    ensures Parse(Text(x)).Ok? ==> Parse(Text(x)).value.secs == LocalSeconds(x.fields) - OffsetOf(x.zone)
    ensures Parse(Text(x)).Ok? ==> Parse(Text(x)).value.nanos == NanosOf(x.fraction)
    ensures Parse(Text(x)) != Err(OutOfRange)
  {
    hide Parse, Resolve, InRange, NanosOf, LocalSeconds, Text;
    ParseIsMeaning(x);
    if OffsetInRange(x.zone) {
      OffsetUnderADay(x.zone);
      ResolveIsExact(x.fields, NanosOf(x.fraction), OffsetOf(x.zone));
    }
  }

  lemma {:induction false} OffsetUnderADay(z: Zone)
    requires OffsetInRange(z)
    ensures -86_400 < OffsetOf(z) < 86_400
  {
  }

  /** Texts that name one instant parse to one timestamp, whatever zone, separator,
      fraction mark or spelling of `Z` they use. */
  lemma {:induction false} SameInstantParsesEqual(x: DateTimeText, y: DateTimeText)
    requires WellShaped(x) && InRange(x.fields) && OffsetInRange(x.zone)
    requires WellShaped(y) && InRange(y.fields) && OffsetInRange(y.zone)
    requires LocalSeconds(x.fields) - OffsetOf(x.zone) == LocalSeconds(y.fields) - OffsetOf(y.zone)
    requires NanosOf(x.fraction) == NanosOf(y.fraction)
    ensures Parse(Text(x)) == Parse(Text(y)) && Parse(Text(x)).Ok?
  {
    hide InRange, NanosOf, LocalSeconds, Parse, Text;
    AcceptsExactly(x);
    AcceptsExactly(y);
  }

  lemma {:induction false} DigitAppended(ds: seq<Byte>, d: Byte, places: nat)
    requires AllDigits(ds) && IsDigit(d)
    ensures AllDigits(ds + [d])
    ensures FractionValue(ds + [d], places)
         == FractionValue(ds, places) + (if |ds| < places then (d - ZERO) * Pow10(places - 1 - |ds|) else 0)
    decreases places
  {
    assert AllDigits(ds + [d]);
    if places > 0 {
      if ds == [] {
        assert (ds + [d])[1..] == [];
      } else {
        assert (ds + [d])[1..] == ds[1..] + [d];
        assert (ds + [d])[0] == ds[0];
        DigitAppended(ds[1..], d, places - 1);
      }
    }
  }

  /** A trailing zero in the fraction changes nothing. */
  lemma {:induction false} TrailingZero(mark: Byte, ds: seq<Byte>)
    requires AllDigits(ds)
    ensures AllDigits(ds + [ZERO]) && NanosOf(Present(mark, ds + [ZERO])) == NanosOf(Present(mark, ds))
  {
    DigitAppended(ds, ZERO, 9);
  }

  // -------------------------------------------------------------------------
  // Printing
  // -------------------------------------------------------------------------

  /** `n` in exactly `width` digits. */
  function Padded(n: nat, width: nat): (s: seq<Byte>)
    ensures |s| == width && AllDigits(s)
  {
    if width == 0 then [] else Padded(n / 10, width - 1) + [ZERO + n % 10]
  }

  lemma {:induction false} PowStep(k: nat)
    ensures Pow10(k + 1) == 10 * Pow10(k)
  {
  }

  lemma {:induction false} PaddedFraction(n: nat, width: nat)
    requires width <= 9 && n < Pow10(width)
    ensures FractionValue(Padded(n, width), 9) == n * Pow10(9 - width)
  {
    if width == 0 {
      assert n == 0;
    } else {
      PowStep(width - 1);
      PowStep(9 - width);
      DigitAppended(Padded(n / 10, width - 1), ZERO + n % 10, 9);
      hide Pow10;
      PaddedFraction(n / 10, width - 1);
      TensAndOnes(n, Pow10(9 - width));
    }
  }

  lemma {:induction false} TensAndOnes(n: nat, p: nat)
    ensures n / 10 * (10 * p) + n % 10 * p == n * p
  {
    var t, o := n / 10, n % 10;
    assert n * p == (10 * t + o) * p;
    assert (10 * t + o) * p == 10 * t * p + o * p;
    assert t * (10 * p) == 10 * t * p;
  }

  function Decimal(n: nat): (s: seq<Byte>)
    ensures |s| > 0 && AllDigits(s)
  {
    if n < 10 then [ZERO + n] else Decimal(n / 10) + [ZERO + n % 10]
  }

  /** A year outside 0..=9999 gets a sign, which no RFC 3339 date-time has. */
  function YearText(y: int): seq<Byte> {
    if 0 <= y <= 9999 then Four(y)
    else if y > 0 then [PLUS] + Decimal(y) else [DASH] + Decimal(-y)
  }

  function NanosText(n: SubsecondNanos): seq<Byte> {
    if n == 0 then []
    else if n % 1_000_000 == 0 then [DOT] + Padded(n / 1_000_000, 3)
    else if n % 1_000 == 0 then [DOT] + Padded(n / 1_000, 6)
    else [DOT] + Padded(n, 9)
  }

  function Print(t: Timestamp): seq<Byte> {
    CivilTimeNamesTheSecond(t);
    hide CivilFromDays, DaysFromCivil;
    var c := ToCivilUtc(t);
    YearText(c.date.year) + [DASH] + Two(c.date.month) + [DASH] + Two(c.date.day) + [UPPER_T]
    + Two(c.hour) + [COLON] + Two(c.minute) + [COLON] + Two(c.second)
    + NanosText(t.nanos) + [UPPER_Z]
  }

  ghost function PrintedFraction(n: SubsecondNanos): Fraction {
    if n == 0 then Absent else Present(DOT, NanosText(n)[1..])
  }

  lemma {:induction false} PrintedFractionIsExact(n: SubsecondNanos)
    ensures var f := PrintedFraction(n);
      (f.Present? ==> f.mark == DOT && f.digits != [] && AllDigits(f.digits))
      && FractionText(f) == NanosText(n) && NanosOf(f) == n
  {
    hide Pow10, Padded, FractionValue;
    PowersForPrinting();
    if n == 0 {
    } else if n % 1_000_000 == 0 {
      PrintedPlaces(n, n / 1_000_000, 3);
    } else if n % 1_000 == 0 {
      PrintedPlaces(n, n / 1_000, 6);
    } else {
      PrintedPlaces(n, n, 9);
    }
  }

  lemma {:induction false} PowersForPrinting()
    ensures Pow10(0) == 1 && Pow10(3) == 1_000 && Pow10(6) == 1_000_000 && Pow10(9) == NANOS_PER_SECOND
  {
    NinePlaces();
  }

  lemma {:induction false} PrintedPlaces(n: SubsecondNanos, shown: nat, width: nat)
    requires 0 < width <= 9 && shown < Pow10(width) && shown * Pow10(9 - width) == n && Pow10(9) == NANOS_PER_SECOND
    requires NanosText(n) == [DOT] + Padded(shown, width) && n != 0
    ensures var f := PrintedFraction(n);
      f.Present? && f.mark == DOT && f.digits != [] && AllDigits(f.digits)
      && FractionText(f) == NanosText(n) && NanosOf(f) == n
  {
    PaddedFraction(shown, width);
    hide Pow10, Padded, FractionValue;
    assert NanosText(n)[1..] == Padded(shown, width);
  }

  ghost function CivilFields(c: CivilTime): Fields
    requires c.Valid() && c.date.year >= 0
  {
    Fields(c.date.year, c.date.month, c.date.day, c.hour, c.minute, c.second)
  }

  ghost predicate PrintableYear(t: Timestamp) {
    0 <= ToCivilUtc(t).date.year <= 9999
  }

  /** The printed form, read as a date-time text. */
  ghost function PrintedText(t: Timestamp): DateTimeText
    requires PrintableYear(t)
  {
    CivilTimeNamesTheSecond(t);
    DateTimeText(CivilFields(ToCivilUtc(t)), UPPER_T, PrintedFraction(t.nanos), Utc(UPPER_Z))
  }

  lemma {:induction false} PrintIsText(t: Timestamp)
    requires PrintableYear(t)
    ensures WellShaped(PrintedText(t)) && Print(t) == Text(PrintedText(t))
  {
    hide CivilFromDays, DaysFromCivil, NanosText, PrintedFraction;
    CivilTimeNamesTheSecond(t);
    PrintedFractionIsExact(t.nanos);
  }

  lemma {:induction false} CivilFieldsAreInRange(c: CivilTime)
    requires c.Valid() && 0 <= c.date.year <= 9999
    ensures InRange(CivilFields(c))
    ensures LocalSeconds(CivilFields(c)) == DaysFromCivil(c.date) * 86_400 + c.SecondOfDay()
  {
    hide DaysFromCivil, DaysInMonth;
    assert Civil(c.date.year, c.date.month, c.date.day) == c.date;
  }

  /** Inside the years RFC 3339 can spell, printing loses nothing. */
  lemma {:induction false} PrintedFormParsesBack(t: Timestamp)
    requires PrintableYear(t)
    ensures Parse(Print(t)) == Ok(t)
  {
    hide CivilFromDays, DaysFromCivil, Parse, Text, Print, InRange, LocalSeconds, NanosOf;
    PrintIsText(t);
    PrintedFractionIsExact(t.nanos);
    CivilTimeNamesTheSecond(t);
    CivilFieldsAreInRange(ToCivilUtc(t));
    AcceptsExactly(PrintedText(t));
  }

  lemma {:induction false} SignIsNoDigit(b: seq<Byte>)
    requires b != [] && !IsDigit(b[0])
    ensures Parse(b) == Err(Malformed)
  {
    if |b| >= 20 {
      assert DigitsAt(b, 0, 1) == Err(Malformed);
      DigitsFailTogether(b, 0, 1, 4);
    }
    hide ParseZone, ParseFraction, Resolve;
  }

  lemma {:induction false} PrintedSign(t: Timestamp)
    requires !PrintableYear(t)
    ensures Print(t) != [] && !IsDigit(Print(t)[0])
  {
    hide CivilFromDays, DaysFromCivil, NanosText, Decimal;
    assert YearText(ToCivilUtc(t).date.year) != [];
  }

  /** A timestamp survives printing and parsing exactly when its UTC year has four digits;
      any other prints as something the parser refuses. */
  lemma {:induction false} PrintParseRoundTrip(t: Timestamp)
    ensures Parse(Print(t)) == if PrintableYear(t) then Ok(t) else Err(Malformed)
  {
    hide Parse, Print, PrintableYear;
    if PrintableYear(t) {
      PrintedFormParsesBack(t);
    } else {
      PrintedSign(t);
      SignIsNoDigit(Print(t));
    }
  }

  /** Midnight opening the year 0, one minute east of UTC: `0000-01-01T00:00:00+00:01`. */
  const LEAVING := DateTimeText(Fields(0, 1, 1, 0, 0, 0), UPPER_T, Absent, Numeric(false, 0, 1))

  /** Parsing what was parsed and printed again is not always possible: an offset can carry
      the instant out of the years the text form has. */
  lemma {:induction false} OffsetCanLeaveTheYears()
    ensures WellShaped(LEAVING) && Parse(Text(LEAVING)).Ok?
    ensures Parse(Print(Parse(Text(LEAVING)).value)) == Err(Malformed)
  {
    LeavingSeconds();
    LeavingYear();
    hide Parse, Print, Text, InRange, LocalSeconds, PrintableYear;
    AcceptsExactly(LEAVING);
    PrintParseRoundTrip(Parse(Text(LEAVING)).value);
  }

  lemma {:induction false} LeavingSeconds()
    ensures InRange(LEAVING.fields) && LocalSeconds(LEAVING.fields) == -719_528 * 86_400
  {
  }

  lemma {:induction false} LeavingYear()
    ensures forall t: Timestamp :: t.secs == -719_528 * 86_400 - 60 ==> !PrintableYear(t)
  {
    LastDayBeforeYearZero();
    hide CivilFromDays;
    forall t: Timestamp | t.secs == -719_528 * 86_400 - 60 ensures !PrintableYear(t) {
      assert t.secs / 86_400 == -719_529;
    }
  }

  lemma {:induction false} LastDayBeforeYearZero()
    ensures CivilFromDays(-719_529) == Civil(-1, 12, 31)
  {
  }

  /** Any instant written with its local fields at any zone offset parses to that instant. */
  lemma {:induction false} AnyOffsetSpellsTheInstant(t: Timestamp, local: Timestamp, separator: Byte, zone: Zone)
    requires zone.Numeric? && zone.hours <= 23 && zone.minutes <= 59 && IsSeparator(separator)
    requires local == Timestamp(local.secs, t.nanos) && local.secs == t.secs + OffsetOf(zone)
    requires PrintableYear(local)
    ensures var x := PrintedText(local).(separator := separator, zone := zone);
      WellShaped(x) && Parse(Text(x)) == Ok(t)
  {
    hide CivilFromDays, DaysFromCivil, Parse, Text, InRange, LocalSeconds, NanosOf;
    var x := PrintedText(local).(separator := separator, zone := zone);
    PrintIsText(local);
    PrintedFractionIsExact(t.nanos);
    CivilTimeNamesTheSecond(local);
    CivilFieldsAreInRange(ToCivilUtc(local));
    AcceptsExactly(x);
  }
}
