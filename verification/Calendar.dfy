/** Civil dates in the proleptic Gregorian calendar, and the day count behind every timestamp. */
module Calendar {
  import opened Time

  datatype Civil = Civil(year: int, month: int, day: int) {
    predicate Valid() {
      1 <= month <= 12 && 1 <= day <= DaysInMonth(year, month)
    }

    predicate Before(other: Civil) {
      year < other.year
      || (year == other.year && (month < other.month || (month == other.month && day < other.day)))
    }

    /** The day after this one, by the calendar alone: the reference the arithmetic must follow. */
    function Next(): Civil {
      if day < DaysInMonth(year, month) then Civil(year, month, day + 1)
      else if month < 12 then Civil(year, month + 1, 1)
      else Civil(year + 1, 1, 1)
    }
  }

  /** Division of machine integers: rounds toward zero. */
  function TruncDiv(a: int, b: int): int
    requires b > 0
  {
    if a >= 0 then a / b else -((-a) / b)
  }

  function TruncMod(a: int, b: int): int
    requires b > 0
  {
    a - TruncDiv(a, b) * b
  }

  predicate IsLeap(y: int) {
    (TruncMod(y, 4) == 0 && TruncMod(y, 100) != 0) || TruncMod(y, 400) == 0
  }

  function DaysInMonth(y: int, m: int): int {
    if m in {1, 3, 5, 7, 8, 10, 12} then 31
    else if m in {4, 6, 9, 11} then 30
    else if m == 2 then (if IsLeap(y) then 29 else 28)
    else 0
  }

  /** Days since 1970-01-01, counting years from March as Howard Hinnant's algorithm does. */
  function DaysFromCivil(c: Civil): int {
    var y := if c.month <= 2 then c.year - 1 else c.year;
    var era := TruncDiv(if y >= 0 then y else y - 399, 400);
    var yoe := y - era * 400;
    var mp := if c.month > 2 then c.month - 3 else c.month + 9;
    var doy := TruncDiv(153 * mp + 2, 5) + c.day - 1;
    var doe := yoe * 365 + TruncDiv(yoe, 4) - TruncDiv(yoe, 100) + doy;
    era * 146_097 + doe - 719_468
  }

  function CivilFromDays(days: int): Civil {
    var z := days + 719_468;
    var era := TruncDiv(if z >= 0 then z else z - 146_096, 146_097);
    CivilOfEra(era, z - era * 146_097)
  }

  /** The civil date of a day of a 400-year era. */
  function CivilOfEra(era: int, doe: int): Civil {
    var yoe := TruncDiv(doe - TruncDiv(doe, 1_460) + TruncDiv(doe, 36_524) - TruncDiv(doe, 146_096), 365);
    var y := yoe + era * 400;
    var doy := doe - (365 * yoe + TruncDiv(yoe, 4) - TruncDiv(yoe, 100));
    var mp := TruncDiv(5 * doy + 2, 153);
    var d := doy - TruncDiv(153 * mp + 2, 5) + 1;
    var m := if mp < 10 then mp + 3 else mp - 9;
    Civil(if m <= 2 then y + 1 else y, m, d)
  }

  // -------------------------------------------------------------------------
  // Years that start in March: era, year of era, day of year
  // -------------------------------------------------------------------------

  /** Whether the year of era that starts in March ends with a 29 February. */
  ghost predicate LeapEnd(yoe: int) {
    Divides(4, yoe + 1) && (!Divides(100, yoe + 1) || Divides(400, yoe + 1))
  }

  ghost predicate Divides(d: int, x: int)
    requires d > 0
  {
    x % d == 0
  }

  ghost predicate DayOfYear(yoe: int, doy: int) {
    0 <= doy <= 364 || (doy == 365 && LeapEnd(yoe))
  }

  ghost function DayOfEra(yoe: int, doy: int): int {
    365 * yoe + yoe / 4 - yoe / 100 + doy
  }

  ghost function YearOfEra(doe: int): int {
    (doe - doe / 1_460 + doe / 36_524 - doe / 146_096) / 365
  }

  /** Year of era as centuries, four-year groups and single years. */
  lemma {:induction false} SplitYearOfEra(yoe: int) returns (a: int, b: int, r: int)
    requires 0 <= yoe < 400
    ensures 0 <= a <= 3 && 0 <= b <= 24 && 0 <= r <= 3
    ensures yoe == 100 * a + 4 * b + r
    ensures yoe / 4 == 25 * a + b && yoe / 100 == a
    ensures LeapEnd(yoe) <==> r == 3 && (b != 24 || a == 3)
  {
    a, b, r := yoe / 100, (yoe % 100) / 4, yoe % 4;
  }

  /** The divisions by 1460, 36524 and 146096 undo the leap days exactly. */
  lemma {:induction false} YearOfEraIsExact(yoe: int, doy: int)
    requires 0 <= yoe < 400 && DayOfYear(yoe, doy)
    ensures 0 <= DayOfEra(yoe, doy) <= 146_096
    ensures YearOfEra(DayOfEra(yoe, doy)) == yoe
  {
    var a, b, r := SplitYearOfEra(yoe);
    var doe := DayOfEra(yoe, doy);
    assert doe == 36_524 * a + 1_461 * b + 365 * r + doy;
    CountersOf(a, b, r, doy, doe);
  }

  lemma {:induction false} CountersOf(a: int, b: int, r: int, doy: int, doe: int)
    requires 0 <= a <= 3 && 0 <= b <= 24 && 0 <= r <= 3
    requires 0 <= doy <= 364 || (doy == 365 && r == 3 && (b != 24 || a == 3))
    requires doe == 36_524 * a + 1_461 * b + 365 * r + doy
    ensures 0 <= doe <= 146_096
    ensures YearOfEra(doe) == 100 * a + 4 * b + r
  {
    var rest := 24 * a + b + 365 * r + doy;
    assert doe == 1_460 * (25 * a + b) + rest;
    var e1 := if rest >= 1_460 then 1 else 0;
    assert doe / 1_460 == 25 * a + b + e1;
    var last := 1_461 * b + 365 * r + doy;
    var e2 := if last >= 36_524 then 1 else 0;
    assert doe / 36_524 == a + e2;
    assert doe / 146_096 == e2;
    assert 0 <= doy - e1 < 365;
  }

  /** Every day of a 400-year era belongs to one day of one year in it. */
  lemma {:induction false} DayOfEraSplits(doe: int) returns (yoe: int, doy: int)
    requires 0 <= doe <= 146_096
    ensures 0 <= yoe < 400 && DayOfYear(yoe, doy) && doe == DayOfEra(yoe, doy)
  {
    var a := if doe == 146_096 then 3 else doe / 36_524;
    var inCentury := doe - 36_524 * a;
    var b := inCentury / 1_461;
    var inFour := inCentury - 1_461 * b;
    var r := if inFour == 1_460 then 3 else inFour / 365;
    yoe, doy := 100 * a + 4 * b + r, inFour - 365 * r;
    var a', b', r' := SplitYearOfEra(yoe);
    assert a' == a && b' == b && r' == r;
  }

  // -------------------------------------------------------------------------
  // Months counted from March
  // -------------------------------------------------------------------------

  ghost function MonthStart(mp: int): int { (153 * mp + 2) / 5 }

  /** How many days the month `mp` months after March has, in a year ending as `leapEnd` says. */
  ghost function MonthLength(mp: int, leapEnd: bool): int {
    if mp == 11 then (if leapEnd then 29 else 28)
    else if mp in {1, 3, 6, 8} then 30 else 31
  }

  lemma {:induction false} MonthOfDay(mp: int, doy: int)
    requires 0 <= mp <= 11
    ensures MonthStart(mp) <= doy < MonthStart(mp) + MonthLength(mp, true) ==> (5 * doy + 2) / 153 == mp
    ensures MonthStart(mp) + MonthLength(mp, false) == (if mp == 11 then 365 else MonthStart(mp + 1))
  {
    if mp == 0 {} else if mp == 1 {} else if mp == 2 {} else if mp == 3 {} else if mp == 4 {}
    else if mp == 5 {} else if mp == 6 {} else if mp == 7 {} else if mp == 8 {} else if mp == 9 {}
    else if mp == 10 {} else {}
  }

  lemma {:induction false} DayHasMonth(doy: int) returns (mp: int)
    requires 0 <= doy <= 365
    ensures mp == (5 * doy + 2) / 153 && 0 <= mp <= 11
    ensures MonthStart(mp) <= doy < MonthStart(mp) + MonthLength(mp, doy == 365)
  {
    mp := (5 * doy + 2) / 153;
    MonthOfDay(mp, doy);
    if mp == 0 {} else if mp == 1 {} else if mp == 2 {} else if mp == 3 {} else if mp == 4 {}
    else if mp == 5 {} else if mp == 6 {} else if mp == 7 {} else if mp == 8 {} else if mp == 9 {}
    else if mp == 10 {} else {}
  }

  // -------------------------------------------------------------------------
  // The whole date as (era, year of era, month, day)
  // -------------------------------------------------------------------------

  datatype Parts = Parts(era: int, yoe: int, mp: int, day: int) {
    ghost predicate Valid() {
      0 <= yoe < 400 && 0 <= mp <= 11 && 1 <= day <= MonthLength(mp, LeapEnd(yoe))
    }

    ghost function DayOfYear(): int { MonthStart(mp) + day - 1 }

    ghost function Days(): int {
      era * 146_097 + DayOfEra(yoe, DayOfYear()) - 719_468
    }

    ghost predicate Before(other: Parts) {
      var y, y' := era * 400 + yoe, other.era * 400 + other.yoe;
      y < y' || (y == y' && (mp < other.mp || (mp == other.mp && day < other.day)))
    }

    ghost function ToCivil(): Civil {
      var m := if mp < 10 then mp + 3 else mp - 9;
      Civil(era * 400 + yoe + (if m <= 2 then 1 else 0), m, day)
    }
  }

  ghost function PartsOf(c: Civil): Parts {
    var y := if c.month <= 2 then c.year - 1 else c.year;
    Parts(y / 400, y % 400, if c.month > 2 then c.month - 3 else c.month + 9, c.day)
  }

  lemma {:induction false} TruncatedEraIsFloor(y: int, size: int)
    requires size > 0
    ensures TruncDiv(if y >= 0 then y else y - (size - 1), size) == y / size
  {
    if y < 0 {
      var q, r := y / size, y % size;
      assert -(y - (size - 1)) == size * (-q) + (size - 1 - r);
      QuotientIs(-(y - (size - 1)), size, -q, size - 1 - r);
    }
  }

  lemma {:induction false} QuotientIs(x: int, d: int, q: int, r: int)
    requires d > 0 && x == d * q + r && 0 <= r < d
    ensures x / d == q
  {
    var q' := x / d;
    assert x == d * q' + x % d;
    if q < q' { MultiplesApart(d, q, q'); }
    if q' < q { MultiplesApart(d, q', q); }
  }

  lemma {:induction false} MultiplesApart(d: int, q: int, q': int)
    requires d > 0 && q < q'
    ensures d * q + d <= d * q'
    decreases q' - q
  {
    if q + 1 < q' { MultiplesApart(d, q, q' - 1); }
    assert d * q' == d * (q' - 1) + d;
  }

  lemma {:induction false} LeapYears(y: int)
    ensures IsLeap(y) <==> Divides(4, y) && (!Divides(100, y) || Divides(400, y))
  {
    TruncModIsZero(y, 4);
    TruncModIsZero(y, 100);
    TruncModIsZero(y, 400);
    CenturiesAreFourYears(y);
    hide TruncMod, Divides;
  }

  lemma {:induction false} CenturiesAreFourYears(y: int)
    ensures Divides(400, y) ==> Divides(100, y)
    ensures Divides(100, y) ==> Divides(4, y)
  {
  }

  lemma {:induction false} TruncModIsZero(y: int, d: int)
    requires d > 0
    ensures TruncMod(y, d) == 0 <==> Divides(d, y)
  {
    if y < 0 {
      var q, r := (-y) / d, (-y) % d;
      assert TruncMod(y, d) == -r;
      if r == 0 {
        QuotientIs(y, d, -q, 0);
      } else {
        QuotientIs(y, d, -q - 1, d - r);
      }
    }
  }

  /** A valid civil date is a valid date of a year starting in March, and back. */
  lemma {:induction false} CivilIsParts(c: Civil)
    requires 1 <= c.month <= 12
    ensures PartsOf(c).ToCivil() == c
    ensures c.Valid() <==> PartsOf(c).Valid()
  {
    if c.month == 2 {
      var p := PartsOf(c);
      LeapEndIsLeap(p.era, p.yoe);
      assert p.era * 400 + p.yoe + 1 == c.year;
      hide IsLeap, LeapEnd;
    }
  }

  lemma {:induction false} PartsAreCivil(p: Parts)
    requires p.Valid()
    ensures p.ToCivil().Valid() && PartsOf(p.ToCivil()) == p
  {
    var c := p.ToCivil();
    var y := p.era * 400 + p.yoe;
    QuotientIs(y, 400, p.era, p.yoe);
    CivilIsParts(c);
  }

  lemma {:induction false} DaysFromCivilIsParts(c: Civil)
    requires c.Valid()
    ensures DaysFromCivil(c) == PartsOf(c).Days()
  {
    var y := if c.month <= 2 then c.year - 1 else c.year;
    TruncatedEraIsFloor(y, 400);
  }

  lemma {:induction false} ValidPartsHaveDayOfYear(p: Parts)
    requires p.Valid()
    ensures DayOfYear(p.yoe, p.DayOfYear())
    ensures (5 * p.DayOfYear() + 2) / 153 == p.mp
  {
    MonthOfDay(p.mp, p.DayOfYear());
    if p.mp < 11 { MonthOfDay(11, 0); StartsIncrease(p.mp + 1, 11); }
  }

  lemma {:induction false} StartsIncrease(mp: int, mp': int)
    requires 0 <= mp <= mp' <= 11
    ensures MonthStart(mp) <= MonthStart(mp')
  {
  }

  /** What is left to compute once the era and the day within it are known. */
  ghost function CivilInEra(era: int, doe: int): Civil {
    var yoe := YearOfEra(doe);
    var doy := doe - (365 * yoe + yoe / 4 - yoe / 100);
    var mp := (5 * doy + 2) / 153;
    var m := if mp < 10 then mp + 3 else mp - 9;
    Civil(yoe + era * 400 + (if m <= 2 then 1 else 0), m, doy - (153 * mp + 2) / 5 + 1)
  }

  lemma {:induction false} CivilFromDaysInEra(era: int, doe: int)
    requires 0 <= doe <= 146_096
    requires 0 <= YearOfEra(doe) && 0 <= doe - (365 * YearOfEra(doe) + YearOfEra(doe) / 4 - YearOfEra(doe) / 100)
    ensures CivilFromDays(era * 146_097 + doe - 719_468) == CivilInEra(era, doe)
  {
    EraOf(era, doe);
    CivilOfEraIs(era, doe);
    hide TruncDiv, CivilOfEra, CivilInEra, YearOfEra;
  }

  lemma {:induction false} CivilOfEraIs(era: int, doe: int)
    requires 0 <= doe <= 146_096
    requires 0 <= YearOfEra(doe) && 0 <= doe - (365 * YearOfEra(doe) + YearOfEra(doe) / 4 - YearOfEra(doe) / 100)
    ensures CivilOfEra(era, doe) == CivilInEra(era, doe)
  {
    var yoe := YearOfEra(doe);
    TruncatedIsFloor(doe, 1_460);
    TruncatedIsFloor(doe, 36_524);
    TruncatedIsFloor(doe, 146_096);
    TruncatedIsFloor(doe - doe / 1_460 + doe / 36_524 - doe / 146_096, 365);
    TruncatedIsFloor(yoe, 4);
    TruncatedIsFloor(yoe, 100);
    var doy := doe - (365 * yoe + yoe / 4 - yoe / 100);
    TruncatedIsFloor(5 * doy + 2, 153);
    TruncatedIsFloor(153 * ((5 * doy + 2) / 153) + 2, 5);
    hide TruncDiv;
  }

  lemma {:induction false} TruncatedIsFloor(a: int, b: int)
    requires a >= 0 && b > 0
    ensures TruncDiv(a, b) == a / b
  {
  }

  lemma {:induction false} CivilFromDaysIsParts(p: Parts)
    requires p.Valid()
    ensures CivilFromDays(p.Days()) == p.ToCivil()
  {
    hide CivilFromDays, YearOfEra, LeapEnd;
    var doy := p.DayOfYear();
    ValidPartsHaveDayOfYear(p);
    YearOfEraIsExact(p.yoe, doy);
    CivilFromDaysInEra(p.era, DayOfEra(p.yoe, doy));
  }

  lemma {:induction false} EraOf(era: int, doe: int)
    requires 0 <= doe <= 146_096
    ensures var z := era * 146_097 + doe;
            TruncDiv(if z >= 0 then z else z - 146_096, 146_097) == era
  {
    var z := era * 146_097 + doe;
    TruncatedEraIsFloor(z, 146_097);
    QuotientIs(z, 146_097, era, doe);
  }

  /** From a valid date to its day and back is the identity. */
  lemma {:induction false} CivilRoundTrip(c: Civil)
    requires c.Valid()
    ensures CivilFromDays(DaysFromCivil(c)) == c
  {
    CivilIsParts(c);
    DaysFromCivilIsParts(c);
    CivilFromDaysIsParts(PartsOf(c));
  }

  /** From any day number to its date and back is the identity, and the date is valid. */
  lemma {:induction false} DaysRoundTrip(days: int)
    ensures CivilFromDays(days).Valid()
    ensures DaysFromCivil(CivilFromDays(days)) == days
  {
    var z := days + 719_468;
    var era, doe := z / 146_097, z % 146_097;
    var yoe, doy := DayOfEraSplits(doe);
    var mp := DayHasMonth(doy);
    var p := Parts(era, yoe, mp, doy - MonthStart(mp) + 1);
    assert p.DayOfYear() == doy;
    assert p.Valid() by {
      if mp == 11 && doy < 365 { MonthOfDay(11, doy); }
    }
    assert p.Days() == days;
    CivilFromDaysIsParts(p);
    PartsAreCivil(p);
    DaysFromCivilIsParts(p.ToCivil());
  }

  // -------------------------------------------------------------------------
  // Order, and the reference definition
  // -------------------------------------------------------------------------

  ghost function YearStart(y: int): int {
    365 * y + y / 4 - y / 100 + y / 400
  }

  lemma {:induction false} DaysFromYearStart(p: Parts)
    requires p.Valid()
    ensures p.Days() == YearStart(p.era * 400 + p.yoe) + p.DayOfYear() - 719_468
  {
    var y := p.era * 400 + p.yoe;
    QuotientIs(y, 400, p.era, p.yoe);
    QuotientIs(y, 100, 4 * p.era + p.yoe / 100, p.yoe % 100);
    QuotientIs(y, 4, 100 * p.era + p.yoe / 4, p.yoe % 4);
  }

  lemma {:induction false} YearLength(y: int)
    ensures YearStart(y + 1) == YearStart(y) + (if IsLeap(y + 1) then 366 else 365)
  {
    LeapYears(y + 1);
    CenturiesAreFourYears(y + 1);
    CenturyStep(y, 4);
    CenturyStep(y, 100);
    CenturyStep(y, 400);
    hide IsLeap, Divides;
  }

  lemma {:induction false} CenturyStep(y: int, d: int)
    requires d > 0
    ensures (y + 1) / d == y / d + (if Divides(d, y + 1) then 1 else 0)
  {
    var q, r := y / d, y % d;
    if r == d - 1 {
      assert y + 1 == d * (q + 1) by { assert d * (q + 1) == d * q + d; }
      QuotientIs(y + 1, d, q + 1, 0);
    } else {
      QuotientIs(y + 1, d, q, r + 1);
    }
  }

  lemma {:induction false} YearsApart(y: int, y': int)
    requires y < y'
    ensures YearStart(y') >= YearStart(y) + (if IsLeap(y + 1) then 366 else 365)
    decreases y' - y
  {
    if y + 1 == y' {
      YearLength(y);
    } else {
      YearsApart(y, y' - 1);
      YearLength(y' - 1);
    }
  }

  /** A day later in the calendar has a larger day number, and only then. */
  lemma {:induction false} DayNumbersAreOrdered(c: Civil, c': Civil)
    requires c.Valid() && c'.Valid()
    ensures c.Before(c') <==> DaysFromCivil(c) < DaysFromCivil(c')
  {
    if c.Before(c') {
      LaterIsLarger(c, c');
    } else if c != c' {
      LaterIsLarger(c', c);
    }
  }

  lemma {:induction false} LaterIsLarger(c: Civil, c': Civil)
    requires c.Valid() && c'.Valid() && c.Before(c')
    ensures DaysFromCivil(c) < DaysFromCivil(c')
  {
    CivilIsParts(c);
    CivilIsParts(c');
    DaysFromCivilIsParts(c);
    DaysFromCivilIsParts(c');
    PartsKeepOrder(c, c');
    hide DaysFromCivil, DaysInMonth, PartsOf, LeapEnd;
    LaterPartsAreLarger(PartsOf(c), PartsOf(c'));
  }

  lemma {:induction false} PartsKeepOrder(c: Civil, c': Civil)
    requires 1 <= c.month <= 12 && 1 <= c'.month <= 12 && c.Before(c')
    ensures PartsOf(c).Before(PartsOf(c'))
  {
  }

  lemma {:induction false} LaterPartsAreLarger(p: Parts, p': Parts)
    requires p.Valid() && p'.Valid() && p.Before(p')
    ensures p.Days() < p'.Days()
  {
    DaysFromYearStart(p);
    DaysFromYearStart(p');
    var y, y' := p.era * 400 + p.yoe, p'.era * 400 + p'.yoe;
    if y < y' {
      WithinTheYear(p);
      WithinTheYear(p');
      YearsApart(y, y');
      hide *;
    } else if p.mp < p'.mp {
      MonthOfDay(p.mp, 0);
      StartsIncrease(p.mp + 1, p'.mp);
    }
  }

  lemma {:induction false} WithinTheYear(p: Parts)
    requires p.Valid()
    ensures 0 <= p.DayOfYear() < if IsLeap(p.era * 400 + p.yoe + 1) then 366 else 365
  {
    ValidPartsHaveDayOfYear(p);
    LeapEndIsLeap(p.era, p.yoe);
    hide LeapEnd, IsLeap;
  }

  lemma {:induction false} LeapEndIsLeap(era: int, yoe: int)
    requires 0 <= yoe < 400
    ensures LeapEnd(yoe) <==> IsLeap(era * 400 + yoe + 1)
  {
    var y := era * 400 + yoe + 1;
    LeapYears(y);
    hide IsLeap, Divides;
    ShiftedModulus(4, era * 100, yoe + 1);
    ShiftedModulus(100, era * 4, yoe + 1);
    ShiftedModulus(400, era, yoe + 1);
  }

  lemma {:induction false} ShiftedModulus(d: int, k: int, x: int)
    requires d > 0
    ensures Divides(d, d * k + x) <==> Divides(d, x)
  {
    var q, r := x / d, x % d;
    assert d * k + x == d * (k + q) + r;
    QuotientIs(d * k + x, d, k + q, r);
  }

  lemma {:induction false} NextIsValid(c: Civil)
    requires c.Valid()
    ensures c.Next().Valid() && c.Before(c.Next())
    ensures forall m: Civil :: m.Valid() && c.Before(m) ==> !m.Before(c.Next())
  {
    hide IsLeap;
  }

  /** The day count is the calendar's own: each next day adds one. */
  lemma {:induction false} DaysCountTheCalendar(c: Civil)
    requires c.Valid()
    ensures c.Next().Valid() && DaysFromCivil(c.Next()) == DaysFromCivil(c) + 1
  {
    hide DaysFromCivil, CivilFromDays, DaysInMonth;
    var n := c.Next();
    NextIsValid(c);
    DayNumbersAreOrdered(c, n);
    var between := DaysFromCivil(c) + 1;
    DaysRoundTrip(between);
    var m := CivilFromDays(between);
    DayNumbersAreOrdered(c, m);
    DayNumbersAreOrdered(m, n);
  }

  lemma {:induction false} EpochIsDayZero()
    ensures DaysFromCivil(Civil(1970, 1, 1)) == 0
  {
  }

  // -------------------------------------------------------------------------
  // The civil time of a timestamp
  // -------------------------------------------------------------------------

  datatype CivilTime = CivilTime(date: Civil, hour: int, minute: int, second: int) {
    predicate Valid() {
      date.Valid() && 0 <= hour <= 23 && 0 <= minute <= 59 && 0 <= second <= 59
    }

    function SecondOfDay(): int { hour * 3_600 + minute * 60 + second }

    predicate Before(other: CivilTime) {
      date.Before(other.date)
      || (date == other.date && (hour < other.hour
          || (hour == other.hour && (minute < other.minute
              || (minute == other.minute && second < other.second)))))
    }
  }

  function ToCivilUtc(t: Timestamp): CivilTime {
    var sod := t.secs % 86_400;
    CivilTime(CivilFromDays(t.secs / 86_400), sod / 3_600, (sod % 3_600) / 60, sod % 60)
  }

  /** The civil fields are in range and name exactly the second they came from. */
  lemma {:induction false} CivilTimeNamesTheSecond(t: Timestamp)
    ensures ToCivilUtc(t).Valid()
    ensures DaysFromCivil(ToCivilUtc(t).date) * 86_400 + ToCivilUtc(t).SecondOfDay() == t.secs
  {
    hide DaysFromCivil, CivilFromDays;
    DaysRoundTrip(t.secs / 86_400);
  }

  /** Reading two civil times field by field orders them as the instants are ordered. */
  lemma {:induction false} CivilOrderIsChronological(t: Timestamp, u: Timestamp)
    ensures ToCivilUtc(t).Before(ToCivilUtc(u)) <==> t.secs < u.secs
    ensures ToCivilUtc(t) == ToCivilUtc(u) <==> t.secs == u.secs
  {
    hide DaysFromCivil, CivilFromDays;
    CivilTimeNamesTheSecond(t);
    CivilTimeNamesTheSecond(u);
    var a, b := ToCivilUtc(t), ToCivilUtc(u);
    DayNumbersAreOrdered(a.date, b.date);
    DayNumbersAreOrdered(b.date, a.date);
    assert a.Before(b) && a.date == b.date ==> a.SecondOfDay() < b.SecondOfDay();
    assert b.Before(a) && a.date == b.date ==> b.SecondOfDay() < a.SecondOfDay();
    DatesAreComparable(a.date, b.date);
    assert a == b || a.Before(b) || b.Before(a);
  }

  lemma {:induction false} DatesAreComparable(c: Civil, c': Civil)
    ensures c == c' || c.Before(c') || c'.Before(c)
  {
  }
}
