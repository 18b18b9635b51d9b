/** Calendar dates in the proleptic Gregorian calendar, as pandas and Python's
    `datetime` see them: a date is a day count, and the day of month, the month
    and the weekday are derived from it. */
module Calendar {

  /** A date: the number of days elapsed since 0001-01-01 (Python's
      `date.toordinal()` minus one). Adding one is moving to the next calendar day. */
  type Date = nat

  /** A civil (year, month, day) triple; months and days count from 1. */
  datatype Civil = Civil(year: int, month: int, day: int)

  predicate IsLeapYear(y: int) {
    y % 4 == 0 && (y % 100 != 0 || y % 400 == 0)
  }

  function DaysInYear(y: int): nat {
    if IsLeapYear(y) then 366 else 365
  }

  function DaysInMonth(y: int, m: int): nat
    requires 1 <= m <= 12
  {
    if m == 2 then (if IsLeapYear(y) then 29 else 28)
    else if m == 4 || m == 6 || m == 9 || m == 11 then 30
    else 31
  }

  predicate ValidCivil(c: Civil) {
    1 <= c.year && 1 <= c.month <= 12 && 1 <= c.day <= DaysInMonth(c.year, c.month)
  }

  /** Days of year `y` before the first day of month `m` (`m == 13` gives the whole year). */
  function DaysBeforeMonth(y: int, m: int): nat
    requires 1 <= m <= 13
  {
    var leap := if IsLeapYear(y) then 1 else 0;
    if m == 1 then 0
    else if m == 2 then 31
    else if m == 3 then 59 + leap
    else if m == 4 then 90 + leap
    else if m == 5 then 120 + leap
    else if m == 6 then 151 + leap
    else if m == 7 then 181 + leap
    else if m == 8 then 212 + leap
    else if m == 9 then 243 + leap
    else if m == 10 then 273 + leap
    else if m == 11 then 304 + leap
    else if m == 12 then 334 + leap
    else 365 + leap
  }

  /** The month table agrees with the month lengths and sums to the year length. */
  lemma DaysBeforeMonthStep(y: int, m: int)
    requires 1 <= m <= 12
    ensures DaysBeforeMonth(y, m + 1) == DaysBeforeMonth(y, m) + DaysInMonth(y, m)
    ensures DaysBeforeMonth(y, 13) == DaysInYear(y)
  {
  }

  /** Days from 0001-01-01 to the first day of year `y`. */
  function DaysBeforeYear(y: int): nat
    decreases y
  {
    if y <= 1 then 0 else DaysBeforeYear(y - 1) + DaysInYear(y - 1)
  }

  /** The day count of a civil date. */
  function DaysFromCivil(c: Civil): Date
    requires ValidCivil(c)
  {
    DaysBeforeYear(c.year) + DaysBeforeMonth(c.year, c.month) + c.day - 1
  }

  /** The civil date of day `n` of year `y` (counting from 0), searching from month `m`. */
  function FromMonth(n: nat, y: int, m: int): Civil
    requires 1 <= m <= 12 && DaysBeforeMonth(y, m) <= n
    decreases 12 - m
  {
    if m == 12 || n < DaysBeforeMonth(y, m + 1) then Civil(y, m, n - DaysBeforeMonth(y, m) + 1)
    else FromMonth(n, y, m + 1)
  }

  /** The civil date `n` days after the first day of year `y`. */
  function FromYear(n: nat, y: int): Civil
    decreases n
  {
    if n < DaysInYear(y) then FromMonth(n, y, 1) else FromYear(n - DaysInYear(y), y + 1)
  }

  /** Civil-from-days: the (year, month, day) of a day count. */
  function CivilFromDays(n: Date): (c: Civil)
    ensures ValidCivil(c)
    ensures DaysFromCivil(c) == n
  {
    FromYearCorrect(n, 1);
    FromYear(n, 1)
  }

  lemma {:induction false} FromMonthCorrect(n: nat, y: int, m: int)
    requires 1 <= y && 1 <= m <= 12 && DaysBeforeMonth(y, m) <= n < DaysInYear(y)
    ensures var c := FromMonth(n, y, m);
      ValidCivil(c) && c.year == y && m <= c.month &&
      DaysBeforeMonth(y, c.month) + c.day - 1 == n
    decreases 12 - m
  {
    DaysBeforeMonthStep(y, m);
    if m == 12 || n < DaysBeforeMonth(y, m + 1) {
    } else {
      FromMonthCorrect(n, y, m + 1);
    }
  }

  lemma {:induction false} FromYearCorrect(n: nat, y: int)
    requires 1 <= y
    ensures var c := FromYear(n, y);
      ValidCivil(c) && y <= c.year && DaysFromCivil(c) == DaysBeforeYear(y) + n
    decreases n
  {
    if n < DaysInYear(y) {
      FromMonthCorrect(n, y, 1);
    } else {
      FromYearCorrect(n - DaysInYear(y), y + 1);
    }
  }

  lemma {:induction false} FromMonthOfCivil(c: Civil, m: int)
    requires ValidCivil(c) && 1 <= m <= c.month
    ensures FromMonth(DaysBeforeMonth(c.year, c.month) + c.day - 1, c.year, m) == c
    decreases c.month - m
  {
    var n := DaysBeforeMonth(c.year, c.month) + c.day - 1;
    DaysBeforeMonthStep(c.year, m);
    DaysBeforeMonthStep(c.year, c.month);
    if m < c.month {
      DaysBeforeMonthMonotone(c.year, m + 1, c.month);
      FromMonthOfCivil(c, m + 1);
    }
  }

  lemma {:induction false} DaysBeforeMonthMonotone(y: int, m: int, m': int)
    requires 1 <= m <= m' <= 13
    ensures DaysBeforeMonth(y, m) <= DaysBeforeMonth(y, m')
  {
  }

  lemma {:induction false} DaysBeforeYearMonotone(y: int, y': int)
    requires 1 <= y <= y'
    ensures DaysBeforeYear(y) + (if y < y' then DaysInYear(y) else 0) <= DaysBeforeYear(y')
    decreases y' - y
  {
    if y < y' - 1 {
      DaysBeforeYearMonotone(y, y' - 1);
    }
  }

  lemma {:induction false} FromYearOfCivil(c: Civil, y: int)
    requires ValidCivil(c) && 1 <= y <= c.year
    ensures DaysBeforeYear(y) <= DaysFromCivil(c)
    ensures FromYear(DaysFromCivil(c) - DaysBeforeYear(y), y) == c
    decreases c.year - y
  {
    DaysBeforeYearMonotone(y, c.year);
    var n := DaysFromCivil(c) - DaysBeforeYear(y);
    if y == c.year {
      DaysBeforeMonthStep(c.year, c.month);
      DaysBeforeMonthMonotone(c.year, c.month + 1, 13);
      assert n < DaysInYear(y);
      FromMonthOfCivil(c, 1);
    } else {
      assert n >= DaysInYear(y);
      assert n - DaysInYear(y) == DaysFromCivil(c) - DaysBeforeYear(y + 1);
      FromYearOfCivil(c, y + 1);
    }
  }

  /** Civil-from-days and days-from-civil are inverse bijections between day
      counts and valid civil dates. */
  lemma CivilRoundTrip(c: Civil)
    requires ValidCivil(c)
    ensures CivilFromDays(DaysFromCivil(c)) == c
  {
    FromYearOfCivil(c, 1);
  }

  /** The calendar successor of a civil date. */
  function NextCivil(c: Civil): Civil
    requires ValidCivil(c)
  {
    if c.day < DaysInMonth(c.year, c.month) then Civil(c.year, c.month, c.day + 1)
    else if c.month < 12 then Civil(c.year, c.month + 1, 1)
    else Civil(c.year + 1, 1, 1)
  }

  /** Adding one to a day count moves to the next calendar day: same month and
      the day of month plus one, or the first of the next month, or 1 January of
      the next year. */
  lemma NextDay(n: Date)
    ensures CivilFromDays(n + 1) == NextCivil(CivilFromDays(n))
    ensures WeekdayOf(n + 1) == (WeekdayOf(n) + 1) % 7
  {
    var c := CivilFromDays(n);
    NextCivilDays(c);
    CivilRoundTrip(NextCivil(c));
    WeekdayStep(n);
  }

  lemma WeekdayStep(n: Date)
    ensures WeekdayOf(n + 1) == (WeekdayOf(n) + 1) % 7
  {
    var w := n % 7;
    assert n == 7 * (n / 7) + w;
    assert n + 1 == 7 * (n / 7) + (w + 1);
  }

  /** The successor of a valid date is valid and one day later. */
  lemma NextCivilDays(c: Civil)
    requires ValidCivil(c)
    ensures ValidCivil(NextCivil(c))
    ensures DaysFromCivil(NextCivil(c)) == DaysFromCivil(c) + 1
  {
    DaysBeforeMonthStep(c.year, c.month);
    if c.day == DaysInMonth(c.year, c.month) && c.month == 12 {
      assert DaysBeforeYear(c.year + 1) == DaysBeforeYear(c.year) + DaysInYear(c.year);
    }
  }

  function DayOf(d: Date): (r: int)
    ensures 1 <= r <= 31
  {
    CivilFromDays(d).day
  }

  function MonthOf(d: Date): (r: int)
    ensures 1 <= r <= 12
  {
    CivilFromDays(d).month
  }

  /** Python's `weekday()`: 0 is Monday, 6 is Sunday. Day 0 (0001-01-01) is a
      Monday in the proleptic Gregorian calendar. */
  function WeekdayOf(d: Date): (r: int)
    ensures 0 <= r < 7
  {
    d % 7
  }

  /** The closed form of the days before a year: 365 a year plus one for every
      fourth year, less the centuries, plus the fourth centuries. */
  lemma {:induction false} DaysBeforeYearClosedForm(y: int)
    requires 1 <= y
    ensures DaysBeforeYear(y) == LeapDays(y - 1)
    decreases y
  {
    if y > 1 {
      DaysBeforeYearClosedForm(y - 1);
      LeapDaysStep(y - 2);
    }
  }

  /** `365 * k` plus the leap days among the first `k` years. */
  function LeapDays(k: int): int {
    365 * k + k / 4 - k / 100 + k / 400
  }

  /** One more year adds 365 days, plus one when that year is a leap year. */
  lemma LeapDaysStep(k: int)
    requires 0 <= k
    ensures LeapDays(k + 1) == LeapDays(k) + DaysInYear(k + 1)
  {
    DivStep4(k);
    DivStep100(k);
    DivStep400(k);
    LeapCount(k + 1);
  }

  lemma DivStep4(k: int)
    requires 0 <= k
    ensures (k + 1) / 4 == k / 4 + (if (k + 1) % 4 == 0 then 1 else 0)
  {
  }

  lemma DivStep100(k: int)
    requires 0 <= k
    ensures (k + 1) / 100 == k / 100 + (if (k + 1) % 100 == 0 then 1 else 0)
  {
  }

  lemma DivStep400(k: int)
    requires 0 <= k
    ensures (k + 1) / 400 == k / 400 + (if (k + 1) % 400 == 0 then 1 else 0)
  {
  }

  /** The leap-year rule as a count: the fourth years, less the centuries, plus
      the fourth centuries. */
  lemma LeapCount(t: int)
    ensures (if t % 4 == 0 then 1 else 0) - (if t % 100 == 0 then 1 else 0) + (if t % 400 == 0 then 1 else 0)
      == (if IsLeapYear(t) then 1 else 0)
  {
    if t % 400 == 0 {
      MultipleOf400(t);
    } else if t % 100 == 0 {
      MultipleOf100(t);
    }
  }

  lemma MultipleOf400(t: int)
    requires t % 400 == 0
    ensures t % 100 == 0 && t % 4 == 0
  {
    var q := t / 400;
    assert t == 400 * q;
  }

  lemma MultipleOf100(t: int)
    requires t % 100 == 0
    ensures t % 4 == 0
  {
    var q := t / 100;
    assert t == 100 * q;
  }

  /** 1 January 2024 fell on a Monday. */
  lemma FirstOf2024IsMonday()
    ensures WeekdayOf(DaysFromCivil(Civil(2024, 1, 1))) == 0
  {
    NewYearDays(2024);
  }

  /** The day count of 1 January of year `y`. */
  lemma NewYearDays(y: int)
    requires 1 <= y
    ensures DaysFromCivil(Civil(y, 1, 1)) == LeapDays(y - 1)
  {
    DaysBeforeYearClosedForm(y);
  }
}
