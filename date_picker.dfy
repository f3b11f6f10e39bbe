/** The date picker: a six-week month grid starting on a Sunday, month
    navigation with JavaScript's day overflow, and the highlighting of the
    selected day and of the days outside the shown month. */
module DatePicker {
  import opened CalendarDate

  /** The two arrow buttons. */
  datatype Direction = Prev | Next

  /** The 1st of month `m` of year `y`. */
  function FirstOfMonth(y: int, m: int): (r: Date)
    requires 0 <= m < 12
    ensures Valid(r)
  {
    Date(y, m, 1)
  }

  /** The Sunday on or before the 1st of the month: the first grid cell. */
  function GridStart(y: int, m: int): (r: Date)
    requires 0 <= m < 12
    ensures Valid(r)
  {
    AddDays(FirstOfMonth(y, m), -Weekday(FirstOfMonth(y, m)))
  }

  /** The date in cell `i` (0 to 41) of the grid of month `m` of year `y`. */
  function GridDay(y: int, m: int, i: int): (r: Date)
    requires 0 <= m < 12
    ensures Valid(r)
  {
    AddDays(GridStart(y, m), i)
  }

  /** `generateCalendarDays(date)`: 42 dates, starting at the grid start and
      advancing with `setDate(getDate() + 1)`. Only the year and month of
      `date` matter, and the year goes through the constructor, so a date in
      a year from 0 to 99 shows the grid of that month in the 1900s. */
  method GenerateCalendarDays(date: Date) returns (days: seq<Date>)
    requires Valid(date)
    ensures |days| == 42
    ensures forall i :: 0 <= i < 42 ==> days[i] == GridDay(ConstructorYear(date.year), date.month, i)
  {
    var firstDay := NewDate(date.year, date.month, 1);
    NewDateFirstOfMonth(date.year, date.month);
    var year := ConstructorYear(date.year);
    var month := date.month;
    var startDate := firstDay;
    SetDateMoves(startDate, -Weekday(firstDay));
    startDate := SetDate(startDate, startDate.day - Weekday(firstDay));
    days := [];
    var current := startDate;
    for i := 0 to 42
      invariant |days| == i
      invariant forall k :: 0 <= k < i ==> days[k] == GridDay(year, month, k)
      invariant current == GridDay(year, month, i)
    {
      days := days + [current];
      SetDateMoves(current, 1);
      AddDaysNext(GridStart(year, month), i);
      current := SetDate(current, current.day + 1);
    }
  }

  /** Each cell after the first holds the day after its left neighbour. */
  lemma GridConsecutive(y: int, m: int, i: int)
    requires 0 <= m < 12 && 0 < i
    ensures GridDay(y, m, i) == NextDay(GridDay(y, m, i - 1))
  {
    AddDaysNext(GridStart(y, m), i - 1);
  }

  /** Cell `i` is `i` days after the first cell. */
  lemma GridDayNumber(y: int, m: int, i: int)
    requires 0 <= m < 12
    ensures DayNumber(GridDay(y, m, i)) == DayNumber(GridStart(y, m)) + i
  {
    DayNumberAddDays(GridStart(y, m), i);
  }

  /** The grid starts on a Sunday, 0 to 6 days before the 1st. */
  lemma GridStartsOnSunday(y: int, m: int)
    requires 0 <= m < 12
    ensures Weekday(GridStart(y, m)) == 0
    ensures 0 <= DayNumber(FirstOfMonth(y, m)) - DayNumber(GridStart(y, m)) <= 6
  {
    var first := FirstOfMonth(y, m);
    DayNumberAddDays(first, -Weekday(first));
    SubtractRemainder(DayNumber(first) + 1);
  }

  /** Taking off the remainder leaves a multiple of seven. */
  lemma SubtractRemainder(n: int)
    ensures (n - n % 7) % 7 == 0
  {
  }

  /** The 1st sits in the cell numbered by its weekday, and the whole month
      follows it, inside the 42 cells. */
  lemma MonthInGrid(y: int, m: int, d: int)
    requires 0 <= m < 12 && 1 <= d <= DaysInMonth(y, m)
    ensures Weekday(FirstOfMonth(y, m)) + d - 1 < 42
    ensures GridDay(y, m, Weekday(FirstOfMonth(y, m)) + d - 1) == Date(y, m, d)
  {
    var first := FirstOfMonth(y, m);
    var w := Weekday(first);
    AddDaysAdd(first, -w, w + d - 1);
    AddDaysWithinMonth(first, d - 1);
  }

  /** A shown date in a year from 0 to 99 puts the 1st of that month of
      1900 + year into the grid, not the 1st of the shown date's own month. */
  lemma TwoDigitYearGrid(currentMonth: Date)
    requires Valid(currentMonth) && 0 <= currentMonth.year <= 99
    ensures var y, m := currentMonth.year, currentMonth.month;
      GridDay(ConstructorYear(y), m, Weekday(FirstOfMonth(1900 + y, m))) == Date(1900 + y, m, 1)
  {
    MonthInGrid(1900 + currentMonth.year, currentMonth.month, 1);
  }

  /** Different cells hold different days. */
  lemma GridDistinct(y: int, m: int, i: int, j: int)
    requires 0 <= m < 12 && i != j
    ensures GridDay(y, m, i) != GridDay(y, m, j)
  {
    GridDayNumber(y, m, i);
    GridDayNumber(y, m, j);
  }

  /** `isSelected`: the same calendar day as the picker's value
      (`toDateString` equality; the time of day is not modelled). */
  predicate IsSelected(date: Date, value: Date) {
    date == value
  }

  /** At most one cell of a grid is highlighted as selected. */
  lemma AtMostOneSelected(y: int, m: int, value: Date, i: int, j: int)
    requires 0 <= m < 12 && 0 <= i < 42 && 0 <= j < 42
    requires IsSelected(GridDay(y, m, i), value) && IsSelected(GridDay(y, m, j), value)
    ensures i == j
  {
    if i != j {
      GridDistinct(y, m, i, j);
    }
  }

  /** `isCurrentMonth`: compares the month index only. */
  predicate IsCurrentMonth(date: Date, currentMonth: Date) {
    date.month == currentMonth.month
  }

  /** The previous month of `m`, with the year. */
  function MonthBefore(y: int, m: int): (r: (int, int))
    requires 0 <= m < 12
    ensures 0 <= r.1 < 12 && r.1 != m
  {
    if m == 0 then (y - 1, 11) else (y, m - 1)
  }

  /** The following month of `m`, with the year. */
  function MonthAfter(y: int, m: int): (r: (int, int))
    requires 0 <= m < 12
    ensures 0 <= r.1 < 12 && r.1 != m
  {
    if m == 11 then (y + 1, 0) else (y, m + 1)
  }

  /** Moving `k` days forward from the 1st, where `k` is at least the
      month's length and less than that plus the next month's length,
      lands in the next month. */
  lemma PastMonthEnd(y: int, m: int, k: int)
    requires 0 <= m < 12
    requires DaysInMonth(y, m) <= k < DaysInMonth(y, m) + 28
    ensures AddDays(FirstOfMonth(y, m), k)
         == Date(MonthAfter(y, m).0, MonthAfter(y, m).1, k - DaysInMonth(y, m) + 1)
  {
    var first := FirstOfMonth(y, m);
    var dim := DaysInMonth(y, m);
    AddDaysWithinMonth(first, dim - 1);
    var next := Date(MonthAfter(y, m).0, MonthAfter(y, m).1, 1);
    assert AddDays(first, dim) == next;
    AddDaysAdd(first, dim, k - dim);
    AddDaysWithinMonth(next, k - dim);
  }

  /** Moving back up to 28 days from the 1st lands in the previous month. */
  lemma BeforeMonthStart(y: int, m: int, k: int)
    requires 0 <= m < 12 && 1 <= k <= 28
    ensures AddDays(FirstOfMonth(y, m), -k)
         == Date(MonthBefore(y, m).0, MonthBefore(y, m).1, DaysInMonth(MonthBefore(y, m).0, MonthBefore(y, m).1) + 1 - k)
  {
    var first := FirstOfMonth(y, m);
    var (py, pm) := MonthBefore(y, m);
    var last := Date(py, pm, DaysInMonth(py, pm));
    assert AddDays(first, -1) == last;
    AddDaysAdd(first, -1, 1 - k);
    AddDaysWithinMonth(last, 1 - k);
  }

  /** Within the grid shown for `currentMonth`, "same month index" is "same
      year and month as the grid's month". */
  lemma CurrentMonthMeansSameMonth(currentMonth: Date, i: int)
    requires Valid(currentMonth) && 0 <= i < 42
    ensures var date := GridDay(ConstructorYear(currentMonth.year), currentMonth.month, i);
      IsCurrentMonth(date, currentMonth)
      <==> date.year == ConstructorYear(currentMonth.year) && date.month == currentMonth.month
  {
    GridMonthIndex(ConstructorYear(currentMonth.year), currentMonth.month, i);
  }

  /** A cell holds month `m` only when it holds month `m` of year `y`: the
      grid covers the tail of the previous month, the month, and the head of
      the next, and those three months have different indices. */
  lemma GridMonthIndex(y: int, m: int, i: int)
    requires 0 <= m < 12 && 0 <= i < 42
    ensures GridDay(y, m, i).month == m ==> GridDay(y, m, i).year == y
  {
    var first := FirstOfMonth(y, m);
    var w := Weekday(first);
    var dim := DaysInMonth(y, m);
    AddDaysAdd(first, -w, i);
    if i < w {
      BeforeMonthStart(y, m, w - i);
    } else if i < w + dim {
      AddDaysWithinMonth(first, i - w);
    } else {
      PastMonthEnd(y, m, i - w);
    }
  }

  /** `navigateMonth`: `setMonth(getMonth() ± 1)` on a copy of the shown date. */
  function NavigateMonth(current: Date, direction: Direction): (r: Date)
    ensures Valid(r)
  {
    SetMonth(current, current.month + (if direction == Next then 1 else -1))
  }

  /** The month an arrow aims at. */
  function TargetMonth(current: Date, direction: Direction): (int, int)
    requires 0 <= current.month < 12
  {
    if direction == Next then MonthAfter(current.year, current.month)
    else MonthBefore(current.year, current.month)
  }

  /** `setMonth` starts from the 1st of the aimed-at month. */
  lemma NavigateFromTarget(current: Date, direction: Direction)
    requires Valid(current)
    ensures NavigateMonth(current, direction)
         == AddDays(FirstOfMonth(TargetMonth(current, direction).0, TargetMonth(current, direction).1), current.day - 1)
  {
  }

  /** When the day exists in the aimed-at month, navigation keeps it. */
  lemma NavigateKeepsDay(current: Date, direction: Direction)
    requires Valid(current)
    requires current.day <= DaysInMonth(TargetMonth(current, direction).0, TargetMonth(current, direction).1)
    ensures NavigateMonth(current, direction)
         == Date(TargetMonth(current, direction).0, TargetMonth(current, direction).1, current.day)
  {
    var (ty, tm) := TargetMonth(current, direction);
    NavigateFromTarget(current, direction);
    AddDaysWithinMonth(FirstOfMonth(ty, tm), current.day - 1);
  }

  /** When it does not, the day rolls over into the month after the aimed-at
      one, by as many days as it overshoots. */
  lemma NavigateOverflows(current: Date, direction: Direction)
    requires Valid(current)
    requires current.day > DaysInMonth(TargetMonth(current, direction).0, TargetMonth(current, direction).1)
    ensures var (ty, tm) := TargetMonth(current, direction);
      NavigateMonth(current, direction)
      == Date(MonthAfter(ty, tm).0, MonthAfter(ty, tm).1, current.day - DaysInMonth(ty, tm))
  {
    var (ty, tm) := TargetMonth(current, direction);
    NavigateFromTarget(current, direction);
    PastMonthEnd(ty, tm, current.day - 1);
  }

  /** "Previous" from 31 March 2023 shows March again (3 March), because
      February 2023 has 28 days. */
  lemma PrevFromMarch31()
    ensures NavigateMonth(Date(2023, 2, 31), Prev) == Date(2023, 2, 3)
  {
    NavigateOverflows(Date(2023, 2, 31), Prev);
  }

  /** The picker's state: the value it was given, the month it shows and
      whether the calendar is open. */
  class DatePickerState {
    var value: Date
    var currentMonth: Date
    var showPicker: bool

    ghost predicate Valid()
      reads this
    {
      CalendarDate.Valid(value) && CalendarDate.Valid(currentMonth)
    }

    /** The shown month starts as a copy of the value. */
    constructor (value: Date)
      requires CalendarDate.Valid(value)
      ensures Valid()
      ensures this.value == value && currentMonth == value && !showPicker
    {
      this.value := value;
      currentMonth := value;
      showPicker := false;
    }

    /** The field button (`true`) and the close button (`false`). */
    method SetShowPicker(show: bool)
      modifies this
      ensures showPicker == show && value == old(value) && currentMonth == old(currentMonth)
    {
      showPicker := show;
    }

    /** The parent passes a new value; the shown month is not re-synced. */
    method SetValue(newValue: Date)
      requires Valid() && CalendarDate.Valid(newValue)
      modifies this
      ensures Valid()
      ensures value == newValue && currentMonth == old(currentMonth) && showPicker == old(showPicker)
    {
      value := newValue;
    }

    /** An arrow button. */
    method Navigate(direction: Direction)
      requires Valid()
      modifies this
      ensures Valid()
      ensures currentMonth == NavigateMonth(old(currentMonth), direction)
      ensures value == old(value) && showPicker == old(showPicker)
    {
      currentMonth := NavigateMonth(currentMonth, direction);
    }

    /** Pressing a cell: the date goes to `onChange` (returned in `chosen`)
        and the calendar closes. */
    method SelectDate(date: Date) returns (chosen: Date)
      modifies this
      ensures chosen == date && !showPicker
      ensures value == old(value) && currentMonth == old(currentMonth)
    {
      chosen := date;
      showPicker := false;
    }

    /** The cells of the shown month. */
    method CalendarDays() returns (days: seq<Date>)
      requires Valid()
      ensures |days| == 42
      ensures forall i :: 0 <= i < 42 ==> days[i] == GridDay(ConstructorYear(currentMonth.year), currentMonth.month, i)
    {
      days := GenerateCalendarDays(currentMonth);
    }
  }
}
