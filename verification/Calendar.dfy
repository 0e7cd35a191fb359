/** The proleptic Gregorian calendar of Python's datetime, as day numbers from 0001-01-01. */
module Calendar {

  datatype Date = Date(y: int, m: int, d: int)

  // The days of years 1 to 9999.
  const MAX_DAY := 3652059

  predicate Leap(y: int) {
    y % 4 == 0 && (y % 100 != 0 || y % 400 == 0)
  }

  function DaysIn(y: int, m: int): int {
    if m == 2 then (if Leap(y) then 29 else 28)
    else if m == 4 || m == 6 || m == 9 || m == 11 then 30
    else 31
  }

  lemma MonthLengths(y: int)
    ensures DaysIn(y, 1) == 31 && DaysIn(y, 3) == 31 && DaysIn(y, 5) == 31 && DaysIn(y, 7) == 31 && DaysIn(y, 8) == 31
    ensures DaysIn(y, 10) == 31 && DaysIn(y, 12) == 31
    ensures DaysIn(y, 4) == 30 && DaysIn(y, 6) == 30 && DaysIn(y, 9) == 30 && DaysIn(y, 11) == 30
    ensures DaysIn(y, 2) == if Leap(y) then 29 else 28
  {
    hide Leap;
  }

  predicate Valid(date: Date) {
    date.y >= 1 && 1 <= date.m <= 12 && 1 <= date.d <= DaysIn(date.y, date.m)
  }

  function DaysBeforeYear(y: int): int {
    365 * (y - 1) + (y - 1) / 4 - (y - 1) / 100 + (y - 1) / 400
  }

  function DaysBeforeMonth(y: int, m: int): int
    requires 1 <= m <= 13
    decreases m
  {
    if m == 1 then 0 else DaysBeforeMonth(y, m - 1) + DaysIn(y, m - 1)
  }

  function DayNumber(date: Date): int
    requires Valid(date)
  {
    DaysBeforeYear(date.y) + DaysBeforeMonth(date.y, date.m) + date.d - 1
  }

  function Tomorrow(date: Date): Date {
    if date.d < DaysIn(date.y, date.m) then Date(date.y, date.m, date.d + 1)
    else if date.m < 12 then Date(date.y, date.m + 1, 1)
    else Date(date.y + 1, 1, 1)
  }

  function DateOf(n: nat): Date {
    if n == 0 then Date(1, 1, 1) else Tomorrow(DateOf(n - 1))
  }

  lemma DivStep4(y: int)
    ensures y / 4 == (y - 1) / 4 + (if y % 4 == 0 then 1 else 0)
  {
  }

  lemma DivStep100(y: int)
    ensures y / 100 == (y - 1) / 100 + (if y % 100 == 0 then 1 else 0)
    ensures y % 100 == 0 ==> y % 4 == 0
  {
  }

  lemma DivStep400(y: int)
    ensures y / 400 == (y - 1) / 400 + (if y % 400 == 0 then 1 else 0)
    ensures y % 400 == 0 ==> y % 100 == 0
  {
  }

  lemma YearLength(y: int)
    requires y >= 1
    ensures DaysBeforeYear(y + 1) == DaysBeforeYear(y) + (if Leap(y) then 366 else 365)
  {
    DivStep4(y);
    DivStep100(y);
    DivStep400(y);
  }

  lemma MonthsAddUp(y: int)
    ensures DaysBeforeMonth(y, 1) == 0 && DaysBeforeMonth(y, 2) == 31
    ensures DaysBeforeMonth(y, 13) == if Leap(y) then 366 else 365
  {
    assert DaysBeforeMonth(y, 4) == DaysBeforeMonth(y, 2) + DaysIn(y, 2) + 31;
    assert DaysBeforeMonth(y, 7) == DaysBeforeMonth(y, 4) + 91;
    assert DaysBeforeMonth(y, 10) == DaysBeforeMonth(y, 7) + 92;
    assert DaysBeforeMonth(y, 13) == DaysBeforeMonth(y, 10) + 92;
  }

  lemma MonthStep(y: int, m: int)
    requires 1 <= m <= 12
    ensures DaysBeforeMonth(y, m + 1) == DaysBeforeMonth(y, m) + DaysIn(y, m)
  {
  }

  lemma TomorrowIsNext(date: Date)
    requires Valid(date)
    ensures Valid(Tomorrow(date)) && DayNumber(Tomorrow(date)) == DayNumber(date) + 1
  {
    hide DaysBeforeYear, DaysBeforeMonth, Leap;
    MonthStep(date.y, date.m);
    if date.m == 12 {
      YearLength(date.y);
      MonthsAddUp(date.y);
      MonthsAddUp(date.y + 1);
    }
  }

  lemma {:induction false} DateOfNumber(n: nat)
    ensures Valid(DateOf(n)) && DayNumber(DateOf(n)) == n
  {
    if n == 0 {
    } else {
      DateOfNumber(n - 1);
      TomorrowIsNext(DateOf(n - 1));
    }
  }

  // ---- calendar order is day-number order ----

  predicate Before(a: Date, b: Date) {
    a.y < b.y || (a.y == b.y && (a.m < b.m || (a.m == b.m && a.d < b.d)))
  }

  lemma {:induction false} MonthsGrow(y: int, m: int, m': int)
    requires 1 <= m < m' <= 13
    ensures DaysBeforeMonth(y, m) + DaysIn(y, m) <= DaysBeforeMonth(y, m')
    decreases m'
  {
    if m + 1 < m' {
      MonthsGrow(y, m, m' - 1);
    }
  }

  lemma {:induction false} YearsGrow(y: int, y': int)
    requires 1 <= y < y'
    ensures DaysBeforeYear(y) + (if Leap(y) then 366 else 365) <= DaysBeforeYear(y')
    decreases y'
  {
    YearLength(y' - 1);
    if y + 1 < y' {
      YearsGrow(y, y' - 1);
    }
  }

  lemma WithinYear(date: Date)
    requires Valid(date)
    ensures DaysBeforeYear(date.y) <= DayNumber(date) < DaysBeforeYear(date.y) + (if Leap(date.y) then 366 else 365)
  {
    MonthsAddUp(date.y);
    MonthsGrow(date.y, date.m, 13);
    if date.m > 1 {
      MonthsGrow(date.y, 1, date.m);
    }
  }

  lemma BeforeIsLess(a: Date, b: Date)
    requires Valid(a) && Valid(b) && Before(a, b)
    ensures DayNumber(a) < DayNumber(b)
  {
    WithinYear(a);
    WithinYear(b);
    if a.y < b.y {
      YearsGrow(a.y, b.y);
    } else if a.m < b.m {
      MonthsGrow(a.y, a.m, b.m);
    }
  }

  /** Dates compare field by field exactly as their day numbers compare, so a day number names
      one date. */
  lemma BeforeIffLess(a: Date, b: Date)
    requires Valid(a) && Valid(b)
    ensures Before(a, b) <==> DayNumber(a) < DayNumber(b)
    ensures a == b <==> DayNumber(a) == DayNumber(b)
  {
    if Before(a, b) {
      BeforeIsLess(a, b);
    } else if Before(b, a) {
      BeforeIsLess(b, a);
    }
  }

  lemma FourDigitYears(date: Date)
    requires Valid(date)
    ensures date.y <= 9999 <==> DayNumber(date) < MAX_DAY
  {
    WithinYear(date);
    assert DaysBeforeYear(10000) == MAX_DAY;
    if date.y < 10000 {
      YearsGrow(date.y, 10000);
    } else if date.y > 10000 {
      YearsGrow(10000, date.y);
    }
  }
}
