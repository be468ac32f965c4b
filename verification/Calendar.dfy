/** The proleptic Gregorian calendar of src/utils/Date.cpp and src/utils/Date.h:
    the closed-form conversions between dates and Julian day numbers, measured
    against the calendar itself (month lengths, leap years, the day after). */
module Calendar {
  import opened CInts

  datatype YearMonthDay = YearMonthDay(year: int, month: int, day: int)

  // ---------- The conversions, as the source computes them ----------

  function JulianDayNumber(year: int, month: int, day: int): int {
    var a := Quot(14 - month, 12);
    var y := year + 4800 - a;
    var m := month + 12 * a - 3;
    day + Quot(153 * m + 2, 5) + y * 365 + Quot(y, 4) - Quot(y, 100) + Quot(y, 400) - 32045
  }

  function ToYearMonthDay(julianDayNumber: int): YearMonthDay {
    var a := julianDayNumber + 32044;
    var b := Quot(4 * a + 3, 146097);
    var c := a - Quot(b * 146097, 4);
    var d := Quot(4 * c + 3, 1461);
    var e := c - Quot(1461 * d, 4);
    var m := Quot(5 * e + 2, 153);
    YearMonthDay(b * 100 + d - 4800 + Quot(m, 10),
                 m + 3 - 12 * Quot(m, 10),
                 e - Quot(153 * m + 2, 5) + 1)
  }

  function WeekDay(julianDayNumber: int): int {
    Rem(julianDayNumber + 1, DAYS_PER_WEEK)
  }

  const DAYS_PER_WEEK: int := 7
  const JULIAN_DAY_OF_1970_01_01: int := 2440588

  function DayNumberOf(d: YearMonthDay): int {
    JulianDayNumber(d.year, d.month, d.day)
  }

  // ---------- The calendar they are measured against ----------

  predicate IsLeapYear(year: int) {
    year % 4 == 0 && (year % 100 != 0 || year % 400 == 0)
  }

  function DaysInMonth(year: int, month: int): int
    requires 1 <= month <= 12
  {
    if month == 2 then (if IsLeapYear(year) then 29 else 28)
    else if month in {4, 6, 9, 11} then 30
    else 31
  }

  predicate ValidDate(d: YearMonthDay) {
    1 <= d.month <= 12 && 1 <= d.day <= DaysInMonth(d.year, d.month)
  }

  function NextDate(d: YearMonthDay): YearMonthDay
    requires ValidDate(d)
  {
    if d.day < DaysInMonth(d.year, d.month) then d.(day := d.day + 1)
    else if d.month < 12 then YearMonthDay(d.year, d.month + 1, 1)
    else YearMonthDay(d.year + 1, 1, 1)
  }

  predicate Before(x: YearMonthDay, y: YearMonthDay) {
    || x.year < y.year
    || (x.year == y.year && x.month < y.month)
    || (x.year == y.year && x.month == y.month && x.day < y.day)
  }

  /** 1 March -4800, where the shifted year count of the formulas starts. */
  const FIRST_DATE: YearMonthDay := YearMonthDay(-4800, 3, 1)
  const FIRST_DAY_NUMBER: int := -32044

  /** The last day number for which `4 * a + 3` still fits an `int`. */
  const LAST_DAY_NUMBER: int := 536838867

  predicate InCalendar(d: YearMonthDay) {
    ValidDate(d) && !Before(d, FIRST_DATE)
  }

  // ---------- Years that start in March ----------

  /** Days before March-based year `y` (0 is the year of FIRST_DATE). */
  function YearStart(y: nat): nat {
    365 * y + y / 4 - y / 100 + y / 400
  }

  function YearLength(y: nat): nat {
    if IsLeapYear(y + 1) then 366 else 365
  }

  /** Days before month `m` of a March-based year (0 is March). */
  function MonthStart(m: nat): nat {
    (153 * m + 2) / 5
  }

  function MarchYear(d: YearMonthDay): int { d.year + 4800 - (if d.month < 3 then 1 else 0) }
  function MarchMonth(d: YearMonthDay): int { if d.month < 3 then d.month + 9 else d.month - 3 }

  /** The year inside its 400-, 100- and 4-year cycles. */
  lemma YearCycles(y: nat)
    returns (q: nat, r: nat, s: nat, k: nat)
    ensures r < 4 && s < 25 && k < 4
    ensures y == 400 * q + 100 * r + 4 * s + k
    ensures YearStart(y) == 146097 * q + 36524 * r + 1461 * s + 365 * k
    ensures YearLength(y) == 366 <==> (k == 3 && (s < 24 || r == 3))
  {
    q, r, s, k := y / 400, y / 100 % 4, y / 4 % 25, y % 4;
    assert y / 100 == 4 * q + r;
    assert y / 4 == 100 * q + 25 * r + s;
    CycleLeapYear(q, r, s, k);
  }

  lemma CycleLeapYear(q: nat, r: nat, s: nat, k: nat)
    requires r < 4 && s < 25 && k < 4
    ensures IsLeapYear(400 * q + 100 * r + 4 * s + k + 1) <==> (k == 3 && (s < 24 || r == 3))
  {
    if k < 3 {
      Residues(100 * q + 25 * r + s, k + 1, 4 * q + r, 0, q, 0);
    } else if s < 24 {
      Residues(100 * q + 25 * r + s + 1, 0, 4 * q + r, 4 * s + 4, q, 100 * r + 4 * s + 4);
    } else if r < 3 {
      Residues(100 * q + 25 * r + 25, 0, 4 * q + r + 1, 0, q, 100 * r + 100);
    } else {
      Residues(100 * q + 100, 0, 4 * q + 4, 0, q + 1, 0);
    }
  }

  lemma Residues(a: int, x: nat, b: int, y: nat, c: int, z: nat)
    requires x < 4 && y < 100 && z < 400
    ensures (4 * a + x) % 4 == x && (100 * b + y) % 100 == y && (400 * c + z) % 400 == z
  {
  }

  lemma YearStartStep(y: nat)
    ensures YearStart(y + 1) == YearStart(y) + YearLength(y)
  {
    assert (y + 1) / 4 == y / 4 + (if (y + 1) % 4 == 0 then 1 else 0);
    assert (y + 1) / 100 == y / 100 + (if (y + 1) % 100 == 0 then 1 else 0);
    assert (y + 1) / 400 == y / 400 + (if (y + 1) % 400 == 0 then 1 else 0);
    assert (y + 1) % 100 == 0 ==> (y + 1) % 4 == 0;
    assert (y + 1) % 400 == 0 ==> (y + 1) % 100 == 0;
  }

  lemma {:induction false} YearStartMonotone(x: nat, y: nat)
    requires x <= y
    ensures YearStart(x) <= YearStart(y)
    decreases y - x
  {
    if x < y {
      YearStartStep(x);
      YearStartMonotone(x + 1, y);
    }
  }

  /** The middle of `ToYearMonthDay`: splitting off the March-based year. */
  lemma SplitYear(y: nat, e: nat)
    requires e < YearLength(y)
    ensures var a := YearStart(y) + e;
            var b := (4 * a + 3) / 146097;
            var c := a - b * 146097 / 4;
            var d := (4 * c + 3) / 1461;
            b == y / 100 && c >= 0 && d == y % 100 && c - 1461 * d / 4 == e
  {
    var q, r, s, k := YearCycles(y);
    var a := YearStart(y) + e;
    var rest := 5844 * s + 1460 * k + 4 * e + 3;
    assert 4 * a + 3 == 146097 * (4 * q + r) + rest - r;
    assert 0 <= rest - r < 146097;
    assert (4 * a + 3) / 146097 == 4 * q + r == y / 100;
    assert (4 * q + r) * 146097 / 4 == 146097 * q + 36524 * r;
    var c := 1461 * s + 365 * k + e;
    assert 4 * c + 3 == 1461 * (4 * s + k) + (4 * e + 3 - k);
    assert (4 * c + 3) / 1461 == 4 * s + k == y % 100;
    assert 1461 * (4 * s + k) / 4 == 1461 * s + 365 * k;
  }

  /** Every day number from FIRST_DAY_NUMBER on lies in exactly one March-based year. */
  lemma YearOfDay(a: nat) returns (y: nat, e: nat)
    ensures a == YearStart(y) + e && e < YearLength(y)
  {
    var b := (4 * a + 3) / 146097;
    var c := a - b * 146097 / 4;
    var d := (4 * c + 3) / 1461;
    var q, r := b / 4, b % 4;
    assert b * 146097 / 4 == 146097 * q + 36524 * r;
    var s, k := d / 4, d % 4;
    assert 1461 * d / 4 == 1461 * s + 365 * k;
    y := 100 * b + d;
    e := c - 1461 * d / 4;
    var q', r', s', k' := YearCycles(y);
    assert s < 25;
    assert q' == q && r' == r && s' == s && k' == k;
  }

  /** The March-based month and day of a day of the year. */
  lemma MonthOfDay(e: nat)
    requires e < 366
    ensures var m := (5 * e + 2) / 153;
            m < 12 && MonthStart(m) <= e && (m < 11 ==> e < MonthStart(m + 1))
  {
  }

  lemma MonthLengths(d: YearMonthDay)
    requires 1 <= d.month <= 12
    requires MarchYear(d) >= 0
    ensures var m := MarchMonth(d);
            0 <= m < 12 &&
            DaysInMonth(d.year, d.month) ==
              (if m < 11 then MonthStart(m + 1) else YearLength(MarchYear(d))) - MonthStart(m)
  {
    LeapYearsRepeat(d.year);
  }

  lemma LeapYearsRepeat(year: int)
    ensures IsLeapYear(year) == IsLeapYear(year + 4800)
  {
    Residues(year / 4 + 1200, year % 4, year / 100 + 48, year % 100, year / 400 + 12, year % 400);
  }

  /** A date is a March-based year and a day of that year. */
  lemma DayNumberByMarchYear(d: YearMonthDay)
    requires InCalendar(d)
    ensures var y, m := MarchYear(d), MarchMonth(d);
            y >= 0 && 0 <= m < 12 &&
            var e := MonthStart(m) + d.day - 1;
            e < YearLength(y) && (5 * e + 2) / 153 == m &&
            DayNumberOf(d) == YearStart(y) + e + FIRST_DAY_NUMBER
  {
    MonthLengths(d);
  }

  // ---------- The two conversions are mutual inverses ----------

  /** What `ToYearMonthDay` makes of day `e` of March-based year `y`. */
  lemma DateOfMarchYear(y: nat, e: nat)
    requires e < YearLength(y)
    ensures var m := (5 * e + 2) / 153;
            ToYearMonthDay(YearStart(y) + e + FIRST_DAY_NUMBER)
            == YearMonthDay(y - 4800 + m / 10, m + 3 - 12 * (m / 10), e - MonthStart(m) + 1)
  {
    hide ToYearMonthDay;
    SplitYear(y, e);
    var a := YearStart(y) + e;
    var b := (4 * a + 3) / 146097;
    DateOfSplit(a, b, a - b * 146097 / 4, y % 100, e);
  }

  lemma DateOfSplit(a: nat, b: nat, c: nat, d: nat, e: nat)
    requires b == (4 * a + 3) / 146097 && c == a - b * 146097 / 4
    requires d == (4 * c + 3) / 1461 && e == c - 1461 * d / 4
    ensures var m := (5 * e + 2) / 153;
            ToYearMonthDay(a + FIRST_DAY_NUMBER)
            == YearMonthDay(b * 100 + d - 4800 + m / 10, m + 3 - 12 * (m / 10), e - MonthStart(m) + 1)
  {
    hide ToYearMonthDay;
    PositiveQuot(4 * a + 3, 146097);
    PositiveQuot(b * 146097, 4);
    PositiveQuot(4 * c + 3, 1461);
    PositiveQuot(1461 * d, 4);
    var m := (5 * e + 2) / 153;
    PositiveQuot(5 * e + 2, 153);
    PositiveQuot(m, 10);
    PositiveQuot(153 * m + 2, 5);
    DateOfQuotients(a, b, b * 146097 / 4, c, d, 1461 * d / 4, e, m);
  }

  lemma DateOfQuotients(a: int, b: int, x: int, c: int, d: int, z: int, e: int, m: int)
    requires Quot(4 * a + 3, 146097) == b && Quot(b * 146097, 4) == x && c == a - x
    requires Quot(4 * c + 3, 1461) == d && Quot(1461 * d, 4) == z && e == c - z
    requires Quot(5 * e + 2, 153) == m
    ensures ToYearMonthDay(a + FIRST_DAY_NUMBER)
            == YearMonthDay(b * 100 + d - 4800 + Quot(m, 10), m + 3 - 12 * Quot(m, 10), e - Quot(153 * m + 2, 5) + 1)
  {
    hide Quot;
  }

  lemma PositiveQuot(n: nat, d: int)
    requires d > 0
    ensures Quot(n, d) == n / d
  {
  }

  /** date -> day number -> date */
  lemma DateRoundTrip(d: YearMonthDay)
    requires InCalendar(d)
    ensures DayNumberOf(d) >= FIRST_DAY_NUMBER
    ensures ToYearMonthDay(DayNumberOf(d)) == d
  {
    DayNumberByMarchYear(d);
    MarchYearDateOf(d, DayNumberOf(d));
  }

  /** Dates with the same March-based year, month and day are the same date. */
  lemma MarchYearDateOf(d: YearMonthDay, julianDayNumber: int)
    requires 1 <= d.month <= 12 && d.day >= 1 && MarchYear(d) >= 0
    requires var e := MonthStart(MarchMonth(d)) + d.day - 1;
             && e < YearLength(MarchYear(d)) && (5 * e + 2) / 153 == MarchMonth(d)
             && julianDayNumber == YearStart(MarchYear(d)) + e + FIRST_DAY_NUMBER
    ensures ToYearMonthDay(julianDayNumber) == d
  {
    hide ToYearMonthDay;
    var y, m := MarchYear(d), MarchMonth(d);
    DateOfMarchYear(y, MonthStart(m) + d.day - 1);
    assert m / 10 == (if d.month < 3 then 1 else 0);
    assert YearMonthDay(y - 4800 + m / 10, m + 3 - 12 * (m / 10), d.day) == d;
  }

  /** day number -> date -> day number; the date is always a real one. */
  lemma DayNumberRoundTrip(julianDayNumber: int)
    requires julianDayNumber >= FIRST_DAY_NUMBER
    ensures InCalendar(ToYearMonthDay(julianDayNumber))
    ensures DayNumberOf(ToYearMonthDay(julianDayNumber)) == julianDayNumber
  {
    var y, e := YearOfDay(julianDayNumber - FIRST_DAY_NUMBER);
    DateOfMarchYear(y, e);
    MarchYearDate(y, e);
  }

  lemma MarchYearDate(y: nat, e: nat)
    requires e < YearLength(y)
    ensures var m := (5 * e + 2) / 153;
            var d := YearMonthDay(y - 4800 + m / 10, m + 3 - 12 * (m / 10), e - MonthStart(m) + 1);
            InCalendar(d) && DayNumberOf(d) == YearStart(y) + e + FIRST_DAY_NUMBER
  {
    MonthOfDay(e);
    var m := (5 * e + 2) / 153;
    var d := YearMonthDay(y - 4800 + m / 10, m + 3 - 12 * (m / 10), e - MonthStart(m) + 1);
    hide JulianDayNumber;
    assert MarchYear(d) == y && MarchMonth(d) == m;
    MonthLengths(d);
    DayNumberByMarchYear(d);
  }

  /** Before FIRST_DAY_NUMBER truncating division goes wrong: no day of the month is
      produced. So `ToYearMonthDay` yields a real date exactly from FIRST_DAY_NUMBER on. */
  lemma ValidExactlyFromFirstDay(julianDayNumber: int)
    ensures ValidDate(ToYearMonthDay(julianDayNumber)) <==> julianDayNumber >= FIRST_DAY_NUMBER
  {
    if julianDayNumber >= FIRST_DAY_NUMBER {
      DayNumberRoundTrip(julianDayNumber);
    } else {
      var a := julianDayNumber + 32044;
      var b := Quot(4 * a + 3, 146097);
      var c := a - Quot(b * 146097, 4);
      assert c < 0;
      var d := Quot(4 * c + 3, 1461);
      var e := c - Quot(1461 * d, 4);
      assert e < 0;
      var m := Quot(5 * e + 2, 153);
      assert e - Quot(153 * m + 2, 5) + 1 <= 0;
    }
  }

  // ---------- Order, succession and the day of the week ----------

  /** The date after `d` has the next day number, across month ends, leap days,
      centuries and years. */
  lemma SuccessorDay(d: YearMonthDay)
    requires InCalendar(d)
    ensures InCalendar(NextDate(d))
    ensures DayNumberOf(NextDate(d)) == DayNumberOf(d) + 1
  {
    hide JulianDayNumber;
    MonthLengths(d);
    DayNumberByMarchYear(d);
    DayNumberByMarchYear(NextDate(d));
    if MarchMonth(d) == 11 {
      YearStartStep(MarchYear(d));
    }
  }

  /** Hence counting day numbers is walking the calendar. */
  lemma CountingIsWalking(d: YearMonthDay, julianDayNumber: int)
    requires julianDayNumber >= FIRST_DAY_NUMBER
    requires d == ToYearMonthDay(julianDayNumber)
    ensures ValidDate(d)
    ensures ToYearMonthDay(julianDayNumber + 1) == NextDate(d)
  {
    hide *;
    DayNumberRoundTrip(julianDayNumber);
    SuccessorDay(d);
    DateRoundTrip(NextDate(d));
  }

  /** `operator<` and `operator==` on Date agree with calendar order. */
  lemma OrderIsCalendarOrder(x: YearMonthDay, y: YearMonthDay)
    requires InCalendar(x) && InCalendar(y)
    ensures DayNumberOf(x) < DayNumberOf(y) <==> Before(x, y)
    ensures DayNumberOf(x) == DayNumberOf(y) <==> x == y
  {
    if Before(x, y) {
      EarlierIsSmaller(x, y);
    } else if Before(y, x) {
      EarlierIsSmaller(y, x);
    }
  }

  lemma EarlierIsSmaller(x: YearMonthDay, y: YearMonthDay)
    requires InCalendar(x) && InCalendar(y) && Before(x, y)
    ensures DayNumberOf(x) < DayNumberOf(y)
  {
    hide JulianDayNumber;
    DayNumberByMarchYear(x);
    DayNumberByMarchYear(y);
    if MarchYear(x) < MarchYear(y) {
      YearStartStep(MarchYear(x));
      YearStartMonotone(MarchYear(x) + 1, MarchYear(y));
    } else {
      MonthLengths(x);
      if MarchMonth(x) < MarchMonth(y) {
        assert MonthStart(MarchMonth(x) + 1) <= MonthStart(MarchMonth(y));
      }
    }
  }

  /** `weekDay` is a day of the week, one further each day, exactly where the C
      remainder is not negative; 1970-01-01 is a Thursday. */
  lemma WeekDays(julianDayNumber: int)
    ensures 0 <= WeekDay(julianDayNumber) < DAYS_PER_WEEK
            <==> (julianDayNumber >= -1 || (julianDayNumber + 1) % 7 == 0)
    ensures julianDayNumber >= -1 ==>
              WeekDay(julianDayNumber + 1) == (WeekDay(julianDayNumber) + 1) % DAYS_PER_WEEK
    ensures WeekDay(JULIAN_DAY_OF_1970_01_01) == 4
    ensures JULIAN_DAY_OF_1970_01_01 == JulianDayNumber(1970, 1, 1)
  {
    EpochDay();
    hide JulianDayNumber;
    RemainderOfSeven(julianDayNumber + 1);
  }

  lemma EpochDay()
    ensures JULIAN_DAY_OF_1970_01_01 == JulianDayNumber(1970, 1, 1)
  {
  }

  lemma RemainderOfSeven(n: int)
    ensures n >= 0 ==> Rem(n, 7) == n % 7
    ensures n < 0 ==> Rem(n, 7) <= 0 && (Rem(n, 7) == 0 <==> n % 7 == 0)
  {
  }

  // ---------- 32-bit overflow ----------

  /** Every value the expressions of `getYearMonthDay` pass through. */
  function DateIntermediates(julianDayNumber: int): seq<int> {
    var a := julianDayNumber + 32044;
    var b := Quot(4 * a + 3, 146097);
    var c := a - Quot(b * 146097, 4);
    var d := Quot(4 * c + 3, 1461);
    var e := c - Quot(1461 * d, 4);
    var m := Quot(5 * e + 2, 153);
    [a, 4 * a, 4 * a + 3, b, b * 146097, Quot(b * 146097, 4), c, 4 * c, 4 * c + 3, d, 1461 * d, Quot(1461 * d, 4),
     e, 5 * e, 5 * e + 2, m, 153 * m, 153 * m + 2, Quot(153 * m + 2, 5),
     e - Quot(153 * m + 2, 5), e - Quot(153 * m + 2, 5) + 1,
     m + 3, Quot(m, 10), 12 * Quot(m, 10), m + 3 - 12 * Quot(m, 10),
     b * 100, b * 100 + d, b * 100 + d - 4800, b * 100 + d - 4800 + Quot(m, 10)]
  }

  /** Every value the expression of `getJulianDayNumber` passes through. */
  function DayNumberIntermediates(d: YearMonthDay): seq<int> {
    var a := Quot(14 - d.month, 12);
    var y := d.year + 4800 - a;
    var m := d.month + 12 * a - 3;
    var t := d.day + Quot(153 * m + 2, 5);
    [14 - d.month, a, d.year + 4800, y, 12 * a, d.month + 12 * a, m, 153 * m, 153 * m + 2, Quot(153 * m + 2, 5), t,
     y * 365, t + y * 365, Quot(y, 4), t + y * 365 + Quot(y, 4), Quot(y, 100), Quot(y, 400),
     t + y * 365 + Quot(y, 4) - Quot(y, 100), t + y * 365 + Quot(y, 4) - Quot(y, 100) + Quot(y, 400),
     t + y * 365 + Quot(y, 4) - Quot(y, 100) + Quot(y, 400) - 32045]
  }

  /** No `int` overflows, in either direction, exactly up to LAST_DAY_NUMBER. */
  lemma NoOverflowExactlyUpToLastDay(julianDayNumber: int)
    requires julianDayNumber >= FIRST_DAY_NUMBER
    ensures (forall v <- DateIntermediates(julianDayNumber) :: InInt32(v))
            <==> julianDayNumber <= LAST_DAY_NUMBER
  {
    var vs := DateIntermediates(julianDayNumber);
    if julianDayNumber > LAST_DAY_NUMBER {
      assert vs[2] in vs && !InInt32(vs[2]);
    } else {
      forall i | 0 <= i < |vs| ensures InInt32(vs[i]) { }
    }
  }

  lemma MarchYearBounded(y: nat)
    requires YearStart(y) <= LAST_DAY_NUMBER - FIRST_DAY_NUMBER
    ensures y <= 1_470_900
  {
  }

  lemma SmallYearsFit(d: YearMonthDay)
    requires 1 <= d.month <= 12 && 1 <= d.day <= 31 && 0 <= MarchYear(d) <= 1_470_900
    ensures forall v <- DayNumberIntermediates(d) :: InInt32(v)
  {
    var us := DayNumberIntermediates(d);
    forall i | 0 <= i < |us| ensures InInt32(us[i]) { }
  }

  /** Nor does computing the day number of a date in that range. */
  lemma NoOverflowBack(d: YearMonthDay)
    requires InCalendar(d) && DayNumberOf(d) <= LAST_DAY_NUMBER
    ensures forall v <- DayNumberIntermediates(d) :: InInt32(v)
  {
    hide JulianDayNumber, YearLength;
    DayNumberByMarchYear(d);
    MarchYearBounded(MarchYear(d));
    SmallYearsFit(d);
  }
}
