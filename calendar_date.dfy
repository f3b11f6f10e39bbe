/** The part of JavaScript's `Date` the date picker relies on, on whole
    calendar days of the proleptic Gregorian calendar: the field getters,
    `getDay`, the constructor with its two-digit years, and the overflowing
    `setDate` and `setMonth`.
    Months are numbered 0 to 11, as in JavaScript. */
module CalendarDate {

  /** A calendar day; `month` is 0 (January) to 11 (December). */
  datatype Date = Date(year: int, month: int, day: int)

  predicate IsLeapYear(y: int) {
    y % 4 == 0 && (y % 100 != 0 || y % 400 == 0)
  }

  /** The length of month `m` (0 to 11) of year `y`. */
  function DaysInMonth(y: int, m: int): (r: int)
    ensures 28 <= r <= 31
    ensures m == 1 ==> (r == 29 <==> IsLeapYear(y))
  {
    if m == 1 then (if IsLeapYear(y) then 29 else 28)
    else if m == 3 || m == 5 || m == 8 || m == 10 then 30
    else 31
  }

  /** A day that exists. */
  predicate Valid(d: Date) {
    0 <= d.month < 12 && 1 <= d.day <= DaysInMonth(d.year, d.month)
  }

  /** The day after `d`. */
  function NextDay(d: Date): (r: Date)
    requires Valid(d)
    ensures Valid(r)
  {
    if d.day < DaysInMonth(d.year, d.month) then Date(d.year, d.month, d.day + 1)
    else if d.month < 11 then Date(d.year, d.month + 1, 1)
    else Date(d.year + 1, 0, 1)
  }

  /** The day before `d`. */
  function PrevDay(d: Date): (r: Date)
    requires Valid(d)
    ensures Valid(r)
  {
    if d.day > 1 then Date(d.year, d.month, d.day - 1)
    else if d.month > 0 then Date(d.year, d.month - 1, DaysInMonth(d.year, d.month - 1))
    else Date(d.year - 1, 11, 31)
  }

  /** Going a day back and a day forward are inverse. */
  lemma NextPrevInverse(d: Date)
    requires Valid(d)
    ensures NextDay(PrevDay(d)) == d && PrevDay(NextDay(d)) == d
  {
  }

  /** The day `n` days after `d` (before it when `n` is negative), one day at a time. */
  function AddDays(d: Date, n: int): (r: Date)
    requires Valid(d)
    ensures Valid(r)
    decreases if n < 0 then -n else n
  {
    if n == 0 then d
    else if n > 0 then NextDay(AddDays(d, n - 1))
    else PrevDay(AddDays(d, n + 1))
  }

  /** Stepping one more day forward, for any offset. */
  lemma AddDaysNext(d: Date, n: int)
    requires Valid(d)
    ensures AddDays(d, n + 1) == NextDay(AddDays(d, n))
  {
    if n < 0 {
      NextPrevInverse(AddDays(d, n + 1));
    }
  }

  /** Offsets add up. */
  lemma {:induction false} AddDaysAdd(d: Date, a: int, b: int)
    requires Valid(d)
    ensures AddDays(AddDays(d, a), b) == AddDays(d, a + b)
    decreases if b < 0 then -b else b
  {
    if b > 0 {
      AddDaysAdd(d, a, b - 1);
      AddDaysNext(AddDays(d, a), b - 1);
      AddDaysNext(d, a + b - 1);
    } else if b < 0 {
      AddDaysAdd(d, a, b + 1);
      AddDaysNext(AddDays(d, a), b);
      AddDaysNext(d, a + b);
      NextPrevInverse(AddDays(AddDays(d, a), b));
      NextPrevInverse(AddDays(d, a + b));
    }
  }

  /** Moving within one month only changes the day number. */
  lemma {:induction false} AddDaysWithinMonth(d: Date, k: int)
    requires Valid(d)
    requires 1 <= d.day + k <= DaysInMonth(d.year, d.month)
    ensures AddDays(d, k) == Date(d.year, d.month, d.day + k)
    decreases if k < 0 then -k else k
  {
    if k > 0 {
      AddDaysWithinMonth(d, k - 1);
    } else if k < 0 {
      AddDaysWithinMonth(d, k + 1);
    }
  }

  /** The day arithmetic behind `setDate` and `setMonth` on a day of year
      `y` (MakeDay in section 21.4.1.28 of ECMA-262): the month overflows into
      the year, then the day counts on from the 1st of that month, so
      out-of-range days roll into the neighbouring months. */
  function MakeDate(y: int, m: int, d: int): (r: Date)
    ensures Valid(r)
  {
    AddDays(Date(y + m / 12, m % 12, 1), d - 1)
  }

  /** On an existing day the day arithmetic is the identity. */
  lemma MakeDateOfValid(d: Date)
    requires Valid(d)
    ensures MakeDate(d.year, d.month, d.day) == d
  {
    AddDaysWithinMonth(Date(d.year, d.month, 1), d.day - 1);
  }

  /** The year the constructor `new Date(y, m, d)` works in: a year from 0
      to 99 is read as 1900 to 1999 (section 21.4.2.1 of ECMA-262).
      `setDate` and `setMonth` do not do this. */
  function ConstructorYear(y: int): int {
    if 0 <= y <= 99 then 1900 + y else y
  }

  /** `new Date(y, m, d)`: the two-digit year mapping, then the same
      overflow as `setDate` and `setMonth`. */
  function NewDate(y: int, m: int, d: int): (r: Date)
    ensures Valid(r)
  {
    MakeDate(ConstructorYear(y), m, d)
  }

  /** The constructor on the 1st of a month gives the 1st of that month of
      the constructor's year. */
  lemma NewDateFirstOfMonth(y: int, m: int)
    requires 0 <= m < 12
    ensures NewDate(y, m, 1) == Date(ConstructorYear(y), m, 1)
  {
    MakeDateOfValid(Date(ConstructorYear(y), m, 1));
  }

  /** Outside years 0 to 99 the constructor is the identity on an existing day. */
  lemma NewDateOfValid(d: Date)
    requires Valid(d) && !(0 <= d.year <= 99)
    ensures NewDate(d.year, d.month, d.day) == d
  {
    MakeDateOfValid(d);
  }

  /** Inside years 0 to 99 it is not: `new Date(50, 5, 1)` is 1 June 1950. */
  lemma NewDateTwoDigitYear(y: int, m: int)
    requires 0 <= y <= 99 && 0 <= m < 12
    ensures NewDate(y, m, 1) == Date(1900 + y, m, 1)
    ensures NewDate(y, m, 1) != Date(y, m, 1)
  {
    NewDateFirstOfMonth(y, m);
  }

  /** `d.setDate(n)`. */
  function SetDate(d: Date, n: int): (r: Date)
    ensures Valid(r)
  {
    MakeDate(d.year, d.month, n)
  }

  /** `d.setMonth(m)`: the day of the month is kept. */
  function SetMonth(d: Date, m: int): (r: Date)
    ensures Valid(r)
  {
    MakeDate(d.year, m, d.day)
  }

  /** `d.setDate(d.getDate() + k)` moves `k` days, across month and year ends. */
  lemma {:induction false} SetDateMoves(d: Date, k: int)
    requires Valid(d)
    ensures SetDate(d, d.day + k) == AddDays(d, k)
  {
    MakeDateOfValid(d);
    AddDaysAdd(Date(d.year, d.month, 1), d.day - 1, k);
  }

  /** `new Date(y, m + 1, 0)` is the last day of month `m` of the
      constructor's year. */
  lemma LastDayOfMonth(y: int, m: int)
    requires 0 <= m < 12
    ensures NewDate(y, m + 1, 0) == Date(ConstructorYear(y), m, DaysInMonth(ConstructorYear(y), m))
  {
    var cy := ConstructorYear(y);
    var first := if m < 11 then Date(cy, m + 1, 1) else Date(cy + 1, 0, 1);
    assert Date(cy + (m + 1) / 12, (m + 1) % 12, 1) == first;
    assert AddDays(first, -1) == PrevDay(first);
  }

  /** Days from the first of the year to the first of month `m`. */
  function DaysBeforeMonth(y: int, m: int): int
    requires 0 <= m < 12
  {
    [0, 31, 59, 90, 120, 151, 181, 212, 243, 273, 304, 334][m] + (if m >= 2 && IsLeapYear(y) then 1 else 0)
  }

  /** Days from 1 January of year 1 to 1 January of year `y`. */
  function DaysBeforeYear(y: int): int {
    365 * (y - 1) + (y - 1) / 4 - (y - 1) / 100 + (y - 1) / 400
  }

  /** The number of the day counted from 1 January of year 1 (day 0). */
  function DayNumber(d: Date): int
    requires 0 <= d.month < 12
  {
    DaysBeforeYear(d.year) + DaysBeforeMonth(d.year, d.month) + d.day - 1
  }

  /** `getDay()`: 0 for Sunday to 6 for Saturday; 1 January of year 1 was a Monday. */
  function Weekday(d: Date): (r: int)
    requires 0 <= d.month < 12
    ensures 0 <= r < 7
  {
    (DayNumber(d) + 1) % 7
  }

  /** Anchors for `getDay`: 1 January 1970, the start of JavaScript's time
      count, was a Thursday, and 1 January 2023 a Sunday. */
  lemma WeekdayAnchors()
    ensures Weekday(Date(1970, 0, 1)) == 4
    ensures Weekday(Date(2023, 0, 1)) == 0
  {
  }

  /** Crossing a multiple of `k` bumps the quotient. */
  lemma DivStep(y: int, k: int)
    requires k == 4 || k == 100 || k == 400
    ensures y / k - (y - 1) / k == if y % k == 0 then 1 else 0
  {
  }

  /** A year has 366 days when leap and 365 otherwise. */
  lemma YearLength(y: int)
    ensures DaysBeforeYear(y + 1) - DaysBeforeYear(y) == if IsLeapYear(y) then 366 else 365
  {
    DivStep(y, 4);
    DivStep(y, 100);
    DivStep(y, 400);
  }

  /** The day number counts days: the next day's is one more. */
  lemma DayNumberNext(d: Date)
    requires Valid(d)
    ensures DayNumber(NextDay(d)) == DayNumber(d) + 1
  {
    if d.day == DaysInMonth(d.year, d.month) && d.month == 11 {
      YearLength(d.year);
    }
  }

  /** Moving `n` days moves the day number by `n`. */
  lemma {:induction false} DayNumberAddDays(d: Date, n: int)
    requires Valid(d)
    ensures DayNumber(AddDays(d, n)) == DayNumber(d) + n
    decreases if n < 0 then -n else n
  {
    if n > 0 {
      DayNumberAddDays(d, n - 1);
      DayNumberNext(AddDays(d, n - 1));
    } else if n < 0 {
      DayNumberAddDays(d, n + 1);
      var e := AddDays(d, n + 1);
      NextPrevInverse(e);
      DayNumberNext(PrevDay(e));
    }
  }

  /** The weekday advances by one each day, Saturday wrapping to Sunday. */
  lemma WeekdayNext(d: Date)
    requires Valid(d)
    ensures Weekday(NextDay(d)) == (Weekday(d) + 1) % 7
  {
    DayNumberNext(d);
    ModSevenStep(DayNumber(d) + 1);
  }

  lemma ModSevenStep(n: int)
    ensures (n + 1) % 7 == (n % 7 + 1) % 7
  {
  }
}
