/** The proleptic Gregorian calendar, and the calendar arithmetic of an ECMAScript `Date`.

    Two descriptions of the same calendar meet here.  `DayNumber` counts days one year and one
    month at a time, straight from the leap-year rule; `MakeDay` is the closed
    form an engine evaluates and `DateFromDay` how it reads a day back.  The lemmas say they agree in both
    directions. */
module Calendar {

  datatype Date = Date(year: int, month: int, day: int)

  predicate IsLeap(y: int) {
    y % 4 == 0 && (y % 100 != 0 || y % 400 == 0)
  }

  function DaysInYear(y: int): int {
    if IsLeap(y) then 366 else 365
  }

  function DaysInMonth(leap: bool, m: int): int {
    if m == 2 then (if leap then 29 else 28)
    else if m == 4 || m == 6 || m == 9 || m == 11 then 30
    else 31
  }

  predicate RealDate(d: Date) {
    1 <= d.month <= 12 && 1 <= d.day <= DaysInMonth(IsLeap(d.year), d.month)
  }

  // ----- the calendar by counting -----

  /** Days from 1970-01-01 to the first day of year `y`. */
  function YearStart(y: int): int
    decreases if y < 1970 then 1970 - y else y - 1970
  {
    if y == 1970 then 0
    else if y > 1970 then YearStart(y - 1) + DaysInYear(y - 1)
    else YearStart(y + 1) - DaysInYear(y)
  }

  /** Days from the first of January to the first of month `m`. */
  function MonthStart(leap: bool, m: int): int
    requires 1 <= m <= 13
    decreases m
  {
    if m == 1 then 0 else MonthStart(leap, m - 1) + DaysInMonth(leap, m - 1)
  }

  /** Days from 1970-01-01 to a real date. */
  function DayNumber(d: Date): int
    requires RealDate(d)
  {
    YearStart(d.year) + MonthStart(IsLeap(d.year), d.month) + d.day - 1
  }

  predicate DateBefore(a: Date, b: Date) {
    || a.year < b.year
    || (a.year == b.year && (a.month < b.month || (a.month == b.month && a.day < b.day)))
  }

  // ----- the calendar as an engine computes it -----

  function DayFromYear(y: int): int {
    365 * (y - 1970) + (y - 1969) / 4 - (y - 1901) / 100 + (y - 1601) / 400
  }

  /** The day of a year, zero-based month and day of month, each of which may be out of range:
      surplus months roll into years and surplus days into months. */
  function MakeDay(year: int, month: int, day: int): int {
    var y := year + month / 12;
    DayFromYear(y) + MonthStart(IsLeap(y), month % 12 + 1) + day - 1
  }

  /** The last year to have begun by `day`, counting from a year that had. */
  function SearchYearUp(day: int, y: int): (r: int)
    requires YearStart(y) <= day
    ensures YearStart(r) <= day < YearStart(r) + DaysInYear(r)
    decreases day - YearStart(y)
  {
    YearStartStep(y);
    if YearStart(y + 1) <= day then SearchYearUp(day, y + 1) else y
  }

  /** The last year to have begun by `day`, counting down from a year that ended after it. */
  function SearchYearDown(day: int, y: int): (r: int)
    requires day < YearStart(y) + DaysInYear(y)
    ensures YearStart(r) <= day < YearStart(r) + DaysInYear(r)
    decreases YearStart(y) - day
  {
    YearStartStep(y - 1);
    if YearStart(y) <= day then y else SearchYearDown(day, y - 1)
  }

  function YearFromDay(day: int): (y: int)
    ensures YearStart(y) <= day < YearStart(y) + DaysInYear(y)
  {
    if day >= 0 then SearchYearUp(day, 1970) else SearchYearDown(day, 1970)
  }

  /** The last month, counting up from `m`, to have begun by a day counted from the new year. */
  function SearchMonth(leap: bool, dayInYear: int, m: int): (r: int)
    requires 1 <= m <= 12 && MonthStart(leap, m) <= dayInYear < MonthStart(leap, 13)
    ensures 1 <= r <= 12 && 0 <= dayInYear - MonthStart(leap, r) < DaysInMonth(leap, r)
    decreases 12 - m
  {
    if m < 12 && MonthStart(leap, m + 1) <= dayInYear then SearchMonth(leap, dayInYear, m + 1) else m
  }

  function DateFromDay(day: int): (d: Date)
    ensures RealDate(d) && DayNumber(d) == day
  {
    var y := YearFromDay(day);
    MonthsFillYear(y);
    var m := SearchMonth(IsLeap(y), day - YearStart(y), 1);
    Date(y, m, day - YearStart(y) - MonthStart(IsLeap(y), m) + 1)
  }

  // ----- the two agree -----

  lemma YearStartStep(y: int)
    ensures YearStart(y + 1) == YearStart(y) + DaysInYear(y)
  {
  }

  lemma MonthsFillYear(y: int)
    ensures MonthStart(IsLeap(y), 13) == DaysInYear(y)
  {
    var leap := IsLeap(y);
    assert MonthStart(leap, 4) == 59 + 31 + if leap then 1 else 0;
    assert MonthStart(leap, 7) == MonthStart(leap, 4) + 91;
    assert MonthStart(leap, 10) == MonthStart(leap, 7) + 92;
    assert MonthStart(leap, 13) == MonthStart(leap, 10) + 92;
  }

  lemma YearStep(y: int)
    ensures DayFromYear(y + 1) == DayFromYear(y) + DaysInYear(y)
  {
    FourthYears(y);
    HundredthYears(y);
    FourHundredthYears(y);
  }

  lemma FourthYears(y: int)
    ensures (y - 1968) / 4 - (y - 1969) / 4 == if y % 4 == 0 then 1 else 0
    ensures y % 100 == 0 ==> y % 4 == 0
  {
  }

  lemma HundredthYears(y: int)
    ensures (y - 1900) / 100 - (y - 1901) / 100 == if y % 100 == 0 then 1 else 0
    ensures y % 400 == 0 ==> y % 100 == 0
  {
  }

  lemma FourHundredthYears(y: int)
    ensures (y - 1600) / 400 - (y - 1601) / 400 == if y % 400 == 0 then 1 else 0
  {
  }

  lemma {:induction false} YearsAgree(y: int)
    ensures DayFromYear(y) == YearStart(y)
    decreases if y < 1970 then 1970 - y else y - 1970
  {
    if y > 1970 {
      YearsAgree(y - 1);
      YearStep(y - 1);
    } else if y < 1970 {
      YearsAgree(y + 1);
      YearStep(y);
    }
  }

  /** The closed form counts days. */
  lemma MakeDayCounts(d: Date)
    requires RealDate(d)
    ensures MakeDay(d.year, d.month - 1, d.day) == DayNumber(d)
  {
    YearsAgree(d.year);
    assert (d.month - 1) / 12 == 0 && (d.month - 1) % 12 == d.month - 1;
  }

  lemma {:induction false} YearsIncrease(a: int, b: int)
    requires a < b
    ensures YearStart(a) + DaysInYear(a) <= YearStart(b)
    decreases b - a
  {
    assert YearStart(a + 1) == YearStart(a) + DaysInYear(a);
    if a + 1 < b {
      YearsIncrease(a + 1, b);
    }
  }

  lemma {:induction false} MonthsIncrease(leap: bool, a: int, b: int)
    requires 1 <= a < b <= 13
    ensures MonthStart(leap, a) + DaysInMonth(leap, a) <= MonthStart(leap, b)
  {
    if a + 1 < b {
      MonthsIncrease(leap, a, b - 1);
    }
  }

  /** A real date falls inside its own month and year. */
  lemma DayWithinYear(d: Date)
    requires RealDate(d)
    ensures 0 <= MonthStart(IsLeap(d.year), d.month)
    ensures MonthStart(IsLeap(d.year), d.month) + d.day <= DaysInYear(d.year)
  {
    MonthsFillYear(d.year);
    if d.month > 1 {
      MonthsIncrease(IsLeap(d.year), 1, d.month);
    }
    MonthsIncrease(IsLeap(d.year), d.month, 13);
  }

  /** Earlier dates have smaller day numbers. */
  lemma DayNumberIncreases(a: Date, b: Date)
    requires RealDate(a) && RealDate(b) && DateBefore(a, b)
    ensures DayNumber(a) < DayNumber(b)
  {
    if a.year < b.year {
      DayWithinYear(a);
      DayWithinYear(b);
      YearsIncrease(a.year, b.year);
    } else if a.month < b.month {
      MonthsIncrease(IsLeap(a.year), a.month, b.month);
    }
  }

  /** Reading the number of a real date back gives that date: no two dates share a number. */
  lemma DayNumberInverts(d: Date)
    requires RealDate(d)
    ensures DateFromDay(DayNumber(d)) == d
  {
    var back := DateFromDay(DayNumber(d));
    if DateBefore(back, d) {
      DayNumberIncreases(back, d);
    } else if DateBefore(d, back) {
      DayNumberIncreases(d, back);
    }
  }

  /** Thirty days hath September. */
  lemma MonthLengths(leap: bool, m: int)
    requires 1 <= m <= 12
    ensures DaysInMonth(leap, m) == [31, if leap then 29 else 28, 31, 30, 31, 30, 31, 31, 30, 31, 30, 31][m - 1]
  {
  }

  /** Months out of range roll into years, and days roll through months. Zero-based month. */
  lemma FieldsRollOver(year: int, month: int, day: int)
    ensures MakeDay(year, month + 12, day) == MakeDay(year + 1, month, day)
    ensures MakeDay(year, month, day + 1) == MakeDay(year, month, day) + 1
  {
    assert (month + 12) / 12 == month / 12 + 1 && (month + 12) % 12 == month % 12;
  }

  lemma NextMonth(year: int, month: int, day: int)
    requires 0 <= month < 11
    ensures MakeDay(year, month + 1, day) == MakeDay(year, month, day) + DaysInMonth(IsLeap(year), month + 1)
  {
    assert month / 12 == 0 && (month + 1) / 12 == 0 && month % 12 == month && (month + 1) % 12 == month + 1;
  }
}
