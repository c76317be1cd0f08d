/** Proleptic Gregorian calendar dates as `DateOnly` represents them: years
    1 to 9999, a day number counted from 0001-01-01, and the day of the week
    derived from that number. */
module Calendar {

  import opened Wrappers

  const MinYear := 1
  const MaxYear := 9999

  datatype CivilDate = CivilDate(year: int, month: int, day: int)

  predicate IsLeapYear(y: int) {
    y % 4 == 0 && (y % 100 != 0 || y % 400 == 0)
  }

  function DaysInMonth(y: int, m: int): int {
    if m == 2 then (if IsLeapYear(y) then 29 else 28)
    else if m == 4 || m == 6 || m == 9 || m == 11 then 30
    else 31
  }

  function DaysInYear(y: int): int {
    if IsLeapYear(y) then 366 else 365
  }

  predicate IsValid(d: CivilDate) {
    && MinYear <= d.year <= MaxYear
    && 1 <= d.month <= 12
    && 1 <= d.day <= DaysInMonth(d.year, d.month)
  }

  /** A date `DateOnly` can hold. */
  type Date = d: CivilDate | IsValid(d) witness CivilDate(1, 1, 1)

  const MinDate: Date := CivilDate(MinYear, 1, 1)
  const MaxDate: Date := CivilDate(MaxYear, 12, 31)

  /** Days in the years before `y`. */
  function DaysBeforeYear(y: int): int
    requires y >= 1
  {
    var p := y - 1;
    365 * p + p / 4 - p / 100 + p / 400
  }

  /** Days in the months of year `y` before month `m`. */
  function DaysBeforeMonth(y: int, m: int): int
    requires 1 <= m <= 12
  {
    var common :=
      match m
      case 1 => 0
      case 2 => 31
      case 3 => 59
      case 4 => 90
      case 5 => 120
      case 6 => 151
      case 7 => 181
      case 8 => 212
      case 9 => 243
      case 10 => 273
      case 11 => 304
      case _ => 334;
    common + (if m > 2 && IsLeapYear(y) then 1 else 0)
  }

  /** The number of days from 0001-01-01 to `d`, the value `DateOnly.DayNumber`
      holds and compares. */
  function DayNumber(d: Date): int {
    DaysBeforeYear(d.year) + DaysBeforeMonth(d.year, d.month) + d.day - 1
  }

  /** `DateOnly`'s `<=`: it compares day numbers. */
  predicate OnOrBefore(a: Date, b: Date) {
    DayNumber(a) <= DayNumber(b)
  }

  /** Calendar order, field by field. */
  predicate CalendarBefore(a: Date, b: Date) {
    || a.year < b.year
    || (a.year == b.year && a.month < b.month)
    || (a.year == b.year && a.month == b.month && a.day < b.day)
  }

  datatype DayOfWeek = Sunday | Monday | Tuesday | Wednesday | Thursday | Friday | Saturday

  function WeekdayFromIndex(i: int): DayOfWeek
    requires 0 <= i < 7
  {
    match i
    case 0 => Sunday
    case 1 => Monday
    case 2 => Tuesday
    case 3 => Wednesday
    case 4 => Thursday
    case 5 => Friday
    case _ => Saturday
  }

  function WeekdayIndex(w: DayOfWeek): int {
    match w
    case Sunday => 0
    case Monday => 1
    case Tuesday => 2
    case Wednesday => 3
    case Thursday => 4
    case Friday => 5
    case Saturday => 6
  }

  /** `DateOnly.DayOfWeek`: day number 0 (0001-01-01) is a Monday. */
  function DayOfWeekOf(d: Date): DayOfWeek {
    WeekdayFromIndex((DayNumber(d) + 1) % 7)
  }

  /** `DateOnly.AddDays(1)`: `None` where the result would pass 9999-12-31
      (the source throws there). */
  function NextDay(d: Date): (r: Option<Date>)
    ensures r.None? <==> d == MaxDate
  {
    if d.day < DaysInMonth(d.year, d.month) then Some(CivilDate(d.year, d.month, d.day + 1))
    else if d.month < 12 then Some(CivilDate(d.year, d.month + 1, 1))
    else if d.year < MaxYear then Some(CivilDate(d.year + 1, 1, 1))
    else None
  }

  // ---- Lemmas -------------------------------------------------------------

  /** Going from `p` to `p + 1` raises `p / k` exactly when `k` divides `p + 1`
      (for the three divisors of the leap-year rule). */
  lemma DivStep(p: int, k: int)
    requires p >= 0 && (k == 4 || k == 100 || k == 400)
    ensures (p + 1) / k == p / k + (if (p + 1) % k == 0 then 1 else 0)
  {
  }

  lemma DaysBeforeYearStep(y: int)
    requires y >= 1
    ensures DaysBeforeYear(y + 1) == DaysBeforeYear(y) + DaysInYear(y)
  {
    var p := y - 1;
    var c4 := if y % 4 == 0 then 1 else 0;
    var c100 := if y % 100 == 0 then 1 else 0;
    var c400 := if y % 400 == 0 then 1 else 0;
    DivStep(p, 4);
    DivStep(p, 100);
    DivStep(p, 400);
    assert DaysBeforeYear(y + 1) == DaysBeforeYear(y) + 365 + c4 - c100 + c400;
    LeapYearCounts(y);
  }

  lemma LeapYearCounts(y: int)
    ensures (if y % 4 == 0 then 1 else 0) - (if y % 100 == 0 then 1 else 0) + (if y % 400 == 0 then 1 else 0)
            == DaysInYear(y) - 365
  {
    if y % 400 == 0 {
      assert y == 400 * (y / 400);
      assert y == 100 * (4 * (y / 400));
      assert y == 4 * (100 * (y / 400));
    } else if y % 100 == 0 {
      assert y == 100 * (y / 100);
      assert y == 4 * (25 * (y / 100));
    }
  }

  lemma DaysBeforeMonthStep(y: int, m: int)
    requires 1 <= m < 12
    ensures DaysBeforeMonth(y, m + 1) == DaysBeforeMonth(y, m) + DaysInMonth(y, m)
  {
  }

  lemma DaysBeforeYearEnd(y: int)
    ensures DaysBeforeMonth(y, 12) + DaysInMonth(y, 12) == DaysInYear(y)
  {
  }

  lemma MonthOrder(y: int, m1: int, m2: int)
    requires 1 <= m1 < m2 <= 12
    ensures DaysBeforeMonth(y, m1) + DaysInMonth(y, m1) <= DaysBeforeMonth(y, m2)
    decreases m2
  {
    DaysBeforeMonthStep(y, m2 - 1);
    if m1 < m2 - 1 {
      MonthOrder(y, m1, m2 - 1);
    }
  }

  lemma {:induction false} YearOrder(y1: int, y2: int)
    requires 1 <= y1 < y2
    ensures DaysBeforeYear(y1) + DaysInYear(y1) <= DaysBeforeYear(y2)
    decreases y2
  {
    DaysBeforeYearStep(y2 - 1);
    if y1 < y2 - 1 {
      YearOrder(y1, y2 - 1);
    }
  }

  /** A date's day number lies within its year. */
  lemma DayNumberInYear(d: Date)
    ensures DaysBeforeYear(d.year) <= DayNumber(d) < DaysBeforeYear(d.year) + DaysInYear(d.year)
  {
    if d.month < 12 {
      MonthOrder(d.year, d.month, 12);
    }
    DaysBeforeYearEnd(d.year);
  }

  lemma CalendarBeforeNumbers(a: Date, b: Date)
    requires CalendarBefore(a, b)
    ensures DayNumber(a) < DayNumber(b)
  {
    if a.year < b.year {
      DayNumberInYear(a);
      DayNumberInYear(b);
      YearOrder(a.year, b.year);
    } else if a.month < b.month {
      MonthOrder(a.year, a.month, b.month);
    }
  }

  /** `DateOnly`'s day-number order is calendar order, and distinct dates have
      distinct day numbers. */
  lemma DayNumberOrder(a: Date, b: Date)
    ensures DayNumber(a) < DayNumber(b) <==> CalendarBefore(a, b)
    ensures DayNumber(a) == DayNumber(b) <==> a == b
  {
    if CalendarBefore(a, b) {
      CalendarBeforeNumbers(a, b);
    } else if CalendarBefore(b, a) {
      CalendarBeforeNumbers(b, a);
    }
  }

  lemma DayNumberInjective()
    ensures forall a: Date, b: Date :: DayNumber(a) == DayNumber(b) ==> a == b
  {
    forall a: Date, b: Date | DayNumber(a) == DayNumber(b)
      ensures a == b
    {
      DayNumberOrder(a, b);
    }
  }

  /** No date comes after 9999-12-31. */
  lemma MaxDateIsLast(d: Date)
    ensures DayNumber(d) <= DayNumber(MaxDate)
  {
    DayNumberOrder(MaxDate, d);
  }

  /** `NextDay` is `AddDays(1)`: it advances the day number by exactly one. */
  /** The last representable date is a Friday. */
  lemma MaxDateFriday()
    ensures DayOfWeekOf(MaxDate) == Friday
  {
  }

  lemma NextDayNumber(d: Date)
    requires d != MaxDate
    ensures NextDay(d).Some?
    ensures DayNumber(NextDay(d).value) == DayNumber(d) + 1
  {
    if d.day < DaysInMonth(d.year, d.month) {
    } else if d.month < 12 {
      DaysBeforeMonthStep(d.year, d.month);
    } else {
      DaysBeforeYearStep(d.year);
      DaysBeforeYearEnd(d.year);
    }
  }

  /** The day after `d` falls on the next day of the week. */
  lemma NextDayWeekday(d: Date)
    requires d != MaxDate
    ensures WeekdayIndex(DayOfWeekOf(NextDay(d).value)) == (WeekdayIndex(DayOfWeekOf(d)) + 1) % 7
  {
    NextDayNumber(d);
    var e := NextDay(d).value;
    var n := DayNumber(d) + 1;
    assert DayNumber(e) + 1 == n + 1;
    IndexStep(n);
  }

  lemma IndexStep(n: int)
    ensures WeekdayIndex(WeekdayFromIndex((n + 1) % 7)) == (WeekdayIndex(WeekdayFromIndex(n % 7)) + 1) % 7
  {
    WeekdayRoundTrip(n % 7);
    WeekdayRoundTrip((n + 1) % 7);
  }

  lemma WeekdayRoundTrip(i: int)
    requires 0 <= i < 7
    ensures WeekdayIndex(WeekdayFromIndex(i)) == i
  {
  }
}
