/** mywidget/date.picker.go: three drop-downs (year, month, day) whose day
    options follow the selected year and month. Dates follow the proleptic
    Gregorian calendar of Go's `time` package. */
module DatePicker {
  import opened Basics
  import opened Decimal

  /** Gregorian leap years. */
  predicate IsLeap(year: int)
  {
    year % 4 == 0 && (year % 100 != 0 || year % 400 == 0)
  }

  /** Reference: the number of days of a month (1..12). */
  function MonthLength(year: int, month: int): (n: int)
    requires 1 <= month <= 12
    ensures 28 <= n <= 31
  {
    if month == 2 then (if IsLeap(year) then 29 else 28)
    else if month == 4 || month == 6 || month == 9 || month == 11 then 30
    else 31
  }

  // ---------------------------------------------------------------------
  // Go's `time` arithmetic, on day numbers: a date is turned into a count of
  // days, moved, and turned back by searching the cumulative tables, the way
  // `time.Date` and `Time.Date` do. None of it uses MonthLength.

  /** `daysBefore` of Go's `time` package: the days before each month of a
      common year; entry 12 is the year's length. */
  function DaysBefore(m: int): (d: int)
    requires 0 <= m <= 12
  {
    [0, 31, 59, 90, 120, 151, 181, 212, 243, 273, 304, 334, 365][m]
  }

  /** The days of `year` before the first of `month` (1..13, 13 giving the
      year's length), counting the leap day from March on. */
  function DaysBeforeMonth(year: int, month: int): (d: int)
    requires 1 <= month <= 13
  {
    DaysBefore(month - 1) + (if IsLeap(year) && month > 2 then 1 else 0)
  }

  /** The days before 1 January of `year`, counted from 1 January of year 1
      (negative before it): 365 per year plus the leap days. */
  function DaysBeforeYear(year: int): int
  {
    var y := year - 1;
    365 * y + y / 4 - y / 100 + y / 400
  }

  /** Consecutive years are a year's length apart. */
  lemma YearStep(year: int)
    ensures DaysBeforeYear(year + 1) == DaysBeforeYear(year) + DaysBeforeMonth(year, 13)
  {
    assert year / 4 - (year - 1) / 4 == if year % 4 == 0 then 1 else 0;
    assert year / 100 - (year - 1) / 100 == if year % 100 == 0 then 1 else 0;
    assert year / 400 - (year - 1) / 400 == if year % 400 == 0 then 1 else 0;
    assert year % 400 == 0 ==> year % 100 == 0;
    assert year % 100 == 0 ==> year % 4 == 0;
  }

  /** The day number of a date: `time.Date`'s count of days. */
  function DayNumber(year: int, month: int, day: int): int
    requires 1 <= month <= 12
  {
    DaysBeforeYear(year) + DaysBeforeMonth(year, month) + day - 1
  }

  /** The year holding day number `n`, searched upwards from `year`. */
  function YearUp(year: int, n: int): (r: int)
    requires DaysBeforeYear(year) <= n
    ensures DaysBeforeYear(r) <= n < DaysBeforeYear(r + 1)
    decreases n - DaysBeforeYear(year)
  {
    YearStep(year);
    if n < DaysBeforeYear(year + 1) then year else YearUp(year + 1, n)
  }

  /** The year holding day number `n`, searched downwards from `year`. */
  function YearDown(year: int, n: int): (r: int)
    requires n < DaysBeforeYear(year + 1)
    ensures DaysBeforeYear(r) <= n < DaysBeforeYear(r + 1)
    decreases DaysBeforeYear(year + 1) - n
  {
    YearStep(year);
    if DaysBeforeYear(year) <= n then year else YearDown(year - 1, n)
  }

  /** The year holding day number `n`: the search starts from the year a
      365-day calendar would give, which is never before the answer and,
      for any year near the present, at most a couple of years after it. */
  function YearOf(n: int): (r: int)
    ensures DaysBeforeYear(r) <= n < DaysBeforeYear(r + 1)
  {
    var guess := n / 365 + 1;
    if DaysBeforeYear(guess) <= n then YearUp(guess, n) else YearDown(guess - 1, n)
  }

  /** The month of `year` holding day `doy` of the year (0-based), searched
      downwards from `month`. */
  function MonthDown(year: int, doy: int, month: int): (r: int)
    requires 1 <= month <= 12 && 0 <= doy < DaysBeforeMonth(year, month + 1)
    ensures 1 <= r <= month
    ensures DaysBeforeMonth(year, r) <= doy < DaysBeforeMonth(year, r + 1)
  {
    if DaysBeforeMonth(year, month) <= doy then month else MonthDown(year, doy, month - 1)
  }

  datatype Date = Date(year: int, month: int, day: int)

  /** The date of a day number, as `Time.Date` reports it: the year holding
      it, then the month of that year, then the day in the month. */
  function DateOf(n: int): (d: Date)
    ensures 1 <= d.month <= 12 && d.day >= 1
    ensures DayNumber(d.year, d.month, d.day) == n
  {
    var year := YearOf(n);
    YearStep(year);
    var doy := n - DaysBeforeYear(year);
    var month := MonthDown(year, doy, 12);
    Date(year, month, doy - DaysBeforeMonth(year, month) + 1)
  }

  /** `getDaysInMonth`'s `firstDayOfNextMonth`: the day number of
      `time.Date(nextYear, nextMonth, 1, …)`, with January of the next year
      after December. */
  function FirstOfNextMonth(year: int, month: int): int
    requires 1 <= month <= 12
  {
    var nextMonth := month % 12 + 1;
    var nextYear := if nextMonth == 1 then year + 1 else year;
    DayNumber(nextYear, nextMonth, 1)
  }

  /** `getDaysInMonth`'s computation of the month's length: the day of
      `firstDayOfNextMonth.AddDate(0, 0, -1)`. */
  function LastDayViaAddDate(year: int, month: int): int
    requires 1 <= month <= 12
  {
    DateOf(FirstOfNextMonth(year, month) - 1).day
  }

  /** The cumulative table steps by the month lengths. */
  lemma MonthStep(year: int, month: int)
    requires 1 <= month <= 12
    ensures DaysBeforeMonth(year, month + 1) == DaysBeforeMonth(year, month) + MonthLength(year, month)
  {
  }

  /** Later years start later. */
  lemma {:induction false} YearsIncrease(a: int, b: int)
    requires a < b
    ensures DaysBeforeYear(a + 1) <= DaysBeforeYear(b)
    decreases b - a
  {
    if a + 1 < b {
      YearsIncrease(a, b - 1);
      YearStep(b - 1);
    }
  }

  /** Later months start later. */
  lemma MonthsIncrease(year: int, a: int, b: int)
    requires 1 <= a < b <= 13
    ensures DaysBeforeMonth(year, a + 1) <= DaysBeforeMonth(year, b)
  {
  }

  /** A day number lies in exactly one year. */
  lemma YearUnique(a: int, b: int, n: int)
    requires DaysBeforeYear(a) <= n < DaysBeforeYear(a + 1)
    requires DaysBeforeYear(b) <= n < DaysBeforeYear(b + 1)
    ensures a == b
  {
    if a < b {
      YearsIncrease(a, b);
    } else if b < a {
      YearsIncrease(b, a);
    }
  }

  /** A day of the year lies in exactly one month. */
  lemma MonthUnique(year: int, a: int, b: int, doy: int)
    requires 1 <= a <= 12 && 1 <= b <= 12
    requires DaysBeforeMonth(year, a) <= doy < DaysBeforeMonth(year, a + 1)
    requires DaysBeforeMonth(year, b) <= doy < DaysBeforeMonth(year, b + 1)
    ensures a == b
  {
    if a < b {
      MonthsIncrease(year, a, b);
    } else if b < a {
      MonthsIncrease(year, b, a);
    }
  }

  /** The day number of a valid date lies in its year, and its day of the
      year in its month. */
  lemma DayNumberBrackets(year: int, month: int, day: int)
    requires 1 <= month <= 12 && 1 <= day <= MonthLength(year, month)
    ensures var n := DayNumber(year, month, day);
      && DaysBeforeYear(year) <= n < DaysBeforeYear(year + 1)
      && DaysBeforeMonth(year, month) <= n - DaysBeforeYear(year) < DaysBeforeMonth(year, month + 1)
  {
    MonthStep(year, month);
    if month < 12 {
      MonthsIncrease(year, month, 13);
    }
    YearStep(year);
  }

  /** The date of day number `n`, when `n` is the day number of a valid
      date, is that date. */
  lemma DateOfNumber(n: int, year: int, month: int, day: int)
    requires 1 <= month <= 12 && 1 <= day <= MonthLength(year, month)
    requires n == DayNumber(year, month, day)
    ensures DateOf(n) == Date(year, month, day)
  {
    var d := DateOf(n);
    DayNumberBrackets(year, month, day);
    DayNumberBrackets(d.year, d.month, d.day);
    YearUnique(d.year, year, n);
    MonthUnique(year, d.month, month, n - DaysBeforeYear(year));
  }

  /** A valid date survives the round trip through its day number. */
  lemma DateOfDayNumber(year: int, month: int, day: int)
    requires 1 <= month <= 12 && 1 <= day <= MonthLength(year, month)
    ensures DateOf(DayNumber(year, month, day)) == Date(year, month, day)
  {
    DateOfNumber(DayNumber(year, month, day), year, month, day);
  }

  /** The day before the first of the next month is the month's last day. */
  lemma DayBeforeNextMonth(year: int, month: int)
    requires 1 <= month <= 12
    ensures FirstOfNextMonth(year, month) - 1 == DayNumber(year, month, MonthLength(year, month))
  {
    MonthStep(year, month);
    if month == 12 {
      assert FirstOfNextMonth(year, month) == DayNumber(year + 1, 1, 1);
      YearStep(year);
    } else {
      assert month % 12 + 1 == month + 1;
      assert FirstOfNextMonth(year, month) == DayNumber(year, month + 1, 1);
    }
  }

  /** `AddDate(0, 0, -1)` from the first of the next month gives the last
      date of the month. */
  lemma DateBeforeNextMonth(year: int, month: int)
    requires 1 <= month <= 12
    ensures DateOf(FirstOfNextMonth(year, month) - 1) == Date(year, month, MonthLength(year, month))
  {
    DayBeforeNextMonth(year, month);
    DateOfNumber(FirstOfNextMonth(year, month) - 1, year, month, MonthLength(year, month));
  }

  /** Stepping back a day from the first of the next month lands on the last
      day of the month itself, so `getDaysInMonth` counts the month's days. */
  lemma {:induction false} LastDayViaAddDateIsMonthLength(year: int, month: int)
    requires 1 <= month <= 12
    ensures LastDayViaAddDate(year, month) == MonthLength(year, month)
  {
    DateBeforeNextMonth(year, month);
  }

  /** Through `time`'s arithmetic, February has 29 days exactly in leap
      years and 28 otherwise. */
  lemma FebruaryViaAddDate(year: int)
    ensures LastDayViaAddDate(year, 2) == 29 <==> IsLeap(year)
    ensures LastDayViaAddDate(year, 2) == 28 <==> !IsLeap(year)
  {
    LastDayViaAddDateIsMonthLength(year, 2);
  }

  /** `getDaysInMonth`: no options for a month outside 1..12, otherwise
      "1".."n" for a month of n days. */
  function GetDaysInMonth(year: int, month: int): (days: seq<string>)
    ensures !(1 <= month <= 12) ==> days == []
    ensures 1 <= month <= 12 ==> |days| == MonthLength(year, month)
    ensures forall i :: 0 <= i < |days| ==> days[i] == IntToString(i + 1)
    ensures forall i :: 0 <= i < |days| ==> Atoi(days[i]) == Some(i + 1)
  {
    if month < 1 || month > 12 then []
    else
      LastDayViaAddDateIsMonthLength(year, month);
      Numbered(1, LastDayViaAddDate(year, month))
  }

  /** The `fmt.Sprintf("%d", i)` options for `start`, `start + 1`, …, `n`
      of them. */
  function Numbered(start: int, n: nat): (options: seq<string>)
    ensures |options| == n
    ensures forall i :: 0 <= i < n ==> options[i] == IntToString(start + i)
    ensures forall i :: 0 <= i < n ==> Atoi(options[i]) == Some(start + i)
  {
    NumbersParse();
    seq(n, i => IntToString(start + i))
  }

  /** Every `%d` text parses back to its number. */
  lemma NumbersParse()
    ensures forall x :: Atoi(IntToString(x)) == Some(x)
  {
    forall x
      ensures Atoi(IntToString(x)) == Some(x)
    {
      AtoiIntToString(x);
    }
  }

  /** `mustInt`-style parsing used by the picker: a failed parse is 0. */
  function AtoiOrZero(s: string): int
  {
    match Atoi(s) case Some(v) => v case None => 0
  }

  /** The selections and the day options of the three drop-downs. */
  datatype DatePicker = DatePicker(year: string, month: string, day: string, dayOptions: seq<string>)

  /** The panic of `days[len(days)-1]` on an empty list. */
  const IndexOutOfRange: string := "index out of range [-1]"

  /** `updateDaysInMonth`: with a year and month that parse to non-zero
      values, the day options become that month's days; a selected day that
      is empty or beyond the month's last day becomes the last day, any
      other selected day stays. A month outside 1..12 gives no day
      options; a selected day that is empty or positive then has no last
      day to fall back on, and indexing the empty list panics. */
  function UpdateDaysInMonth(d: DatePicker): (r: Outcome<DatePicker>)
    ensures AtoiOrZero(d.year) == 0 || AtoiOrZero(d.month) == 0 ==> r == Ok(d)
    ensures r.Ok? && AtoiOrZero(d.year) != 0 && AtoiOrZero(d.month) != 0 ==>
      && r.value.dayOptions == GetDaysInMonth(AtoiOrZero(d.year), AtoiOrZero(d.month))
      && r.value.year == d.year && r.value.month == d.month
    ensures r.Panic? <==>
      && AtoiOrZero(d.year) != 0 && AtoiOrZero(d.month) != 0 && !(1 <= AtoiOrZero(d.month) <= 12)
      && (d.day == "" || AtoiOrZero(d.day) > 0)
  {
    var year := AtoiOrZero(d.year);
    var month := AtoiOrZero(d.month);
    if year == 0 || month == 0 then Ok(d)
    else
      var days := GetDaysInMonth(year, month);
      var selectedDay := d.day;
      if selectedDay == "" || AtoiOrZero(selectedDay) > |days| then
        if |days| == 0 then Panic(IndexOutOfRange)
        else Ok(d.(dayOptions := days, day := days[|days| - 1]))
      else Ok(d.(dayOptions := days, day := selectedDay))
  }

  /** For a valid month the update never panics, and the selected day is
      kept when it fits the month and is the month's last day otherwise. */
  lemma UpdateKeepsOrClampsDay(d: DatePicker)
    requires AtoiOrZero(d.year) != 0 && 1 <= AtoiOrZero(d.month) <= 12
    ensures var n := MonthLength(AtoiOrZero(d.year), AtoiOrZero(d.month));
      var r := UpdateDaysInMonth(d);
      && r.Ok?
      && (d.day != "" && AtoiOrZero(d.day) <= n ==> r.value.day == d.day)
      && (d.day == "" || AtoiOrZero(d.day) > n ==>
            r.value.day == IntToString(n) && AtoiOrZero(r.value.day) == n)
  {
    var n := MonthLength(AtoiOrZero(d.year), AtoiOrZero(d.month));
    AtoiIntToString(n);
  }

  /** `initSelectors`' year options: 1970 up to the current year. */
  function YearOptions(currentYear: int): (years: seq<string>)
    ensures |years| == if currentYear < 1970 then 0 else currentYear - 1969
    ensures forall i :: 0 <= i < |years| ==> years[i] == IntToString(1970 + i)
    ensures forall i :: 0 <= i < |years| ==> Atoi(years[i]) == Some(1970 + i)
  {
    Numbered(1970, if currentYear < 1970 then 0 else currentYear - 1969)
  }

  /** `initSelectors`' month options: 1..12. */
  function MonthOptions(): (months: seq<string>)
    ensures |months| == 12
    ensures forall i :: 0 <= i < 12 ==> months[i] == IntToString(i + 1)
    ensures forall i :: 0 <= i < 12 ==> Atoi(months[i]) == Some(i + 1)
  {
    Numbered(1, 12)
  }
}
