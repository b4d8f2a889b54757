/** The two date helpers of app/composables/useTimesheets.ts: `getWeekStart` and
  * `formatDateForInput`. A local date-time is a day number, counted from
  * 1970-01-01 (a Thursday), and the milliseconds since local midnight. */
module WeekDates {
  import opened Strings

  const MsPerDay := 86_400_000

  datatype LocalTime = LocalTime(day: int, msOfDay: nat)

  /** The calendar fields `getFullYear()`, `getMonth()` (0 for January) and `getDate()`. */
  datatype CivilDate = CivilDate(year: int, monthIndex: int, dayOfMonth: int)

  /** `date.getDay()`: 0 for Sunday through 6 for Saturday. */
  function DayOfWeek(day: int): (d: int)
    ensures 0 <= d < 7
  {
    (day + 4) % 7
  }

  predicate IsMonday(day: int)
  {
    DayOfWeek(day) == 1
  }

  /** Stepping back `(getDay() + 6) % 7` days, at most six, lands on a Monday. */
  lemma StepBackToMonday(day: int)
    ensures 0 <= (DayOfWeek(day) + 6) % 7 <= 6
    ensures IsMonday(day - (DayOfWeek(day) + 6) % 7)
  {
    var w := DayOfWeek(day);
    var q := (day + 4) / 7;
    assert day + 4 == 7 * q + w;
    if w == 0 {
      assert (w + 6) % 7 == 6;
      assert day - 6 + 4 == 7 * (q - 1) + 1;
    } else {
      assert (w + 6) % 7 == w - 1;
      assert day - (w - 1) + 4 == 7 * q + 1;
    }
  }

  /** The Monday of the week holding `day`, weeks running Monday to Sunday. */
  function WeekStartDay(day: int): (monday: int)
    ensures IsMonday(monday) && monday <= day < monday + 7
  {
    StepBackToMonday(day);
    day - (DayOfWeek(day) + 6) % 7
  }

  /** `getWeekStart(date)`: a copy of `date` moved back to the Monday of its week, then set
    * to midnight. The result is the Monday at midnight of the seven days ending on `date`. */
  method GetWeekStart(date: LocalTime) returns (start: LocalTime)
    ensures IsMonday(start.day) && start.msOfDay == 0
    ensures start.day <= date.day < start.day + 7
    ensures start.day == WeekStartDay(date.day)
  {
    start := date;
    var day := DayOfWeek(start.day);
    var diff := (day + 6) % 7;
    StepBackToMonday(date.day);
    start := start.(day := start.day - diff);
    start := start.(msOfDay := 0);
  }

  /** Two Mondays less than a week apart are the same day. */
  lemma MondaysAWeekApart(a: int, b: int)
    requires IsMonday(a) && IsMonday(b) && a <= b < a + 7
    ensures a == b
  {
    var qa := (a + 4) / 7;
    var qb := (b + 4) / 7;
    assert a + 4 == 7 * qa + 1;
    assert b + 4 == 7 * qb + 1;
  }

  /** There is only one day `GetWeekStart` can return: the week start is determined by the
    * date, and every day of a week has the same week start. */
  lemma WeekStartUnique(date: int, s1: int, s2: int)
    requires IsMonday(s1) && s1 <= date < s1 + 7
    requires IsMonday(s2) && s2 <= date < s2 + 7
    ensures s1 == s2
  {
    if s1 <= s2 {
      MondaysAWeekApart(s1, s2);
    } else {
      MondaysAWeekApart(s2, s1);
    }
  }

  /** `String(n).padStart(2, "0")`. */
  function TwoDigits(n: int): string
  {
    PadStart(IntToString(n), 2, '0')
  }

  /** Where the fields of `year-mm-dd` sit, for month and day of two characters. */
  lemma DateFields(year: string, month: string, day: string)
    requires |month| == 2 && |day| == 2
    ensures var r := year + "-" + month + "-" + day;
      && |r| == |year| + 6
      && r[..|year|] == year
      && r[|r| - 6] == '-' && r[|r| - 3] == '-'
      && r[|r| - 5..|r| - 3] == month
      && r[|r| - 2..] == day
  {
  }

  /** `formatDateForInput(date)`: `year-month-day`, the month counted from 1, month and day
    * padded to two digits. */
  function FormatDateForInput(date: CivilDate): string
  {
    IntToString(date.year) + "-" + TwoDigits(date.monthIndex + 1) + "-" + TwoDigits(date.dayOfMonth)
  }

  /** For a real calendar month and day the formatted date is the year followed by `-MM-DD`. */
  lemma FormatDateFields(date: CivilDate)
    requires 0 <= date.monthIndex < 12 && 1 <= date.dayOfMonth <= 31
    ensures var r := FormatDateForInput(date);
      && |r| == |IntToString(date.year)| + 6
      && r[..|IntToString(date.year)|] == IntToString(date.year)
      && r[|r| - 6] == '-' && r[|r| - 3] == '-'
      && r[|r| - 5..|r| - 3] == TwoDigits(date.monthIndex + 1)
      && r[|r| - 2..] == TwoDigits(date.dayOfMonth)
  {
    TwoDigitsValue(date.monthIndex + 1);
    TwoDigitsValue(date.dayOfMonth);
    DateFields(IntToString(date.year), TwoDigits(date.monthIndex + 1), TwoDigits(date.dayOfMonth));
  }

  /** A number below 100 is written as exactly two digits that read back as it. */
  lemma TwoDigitsValue(n: nat)
    requires n < 100
    ensures |TwoDigits(n)| == 2 && AllDigits(TwoDigits(n)) && DecimalValue(TwoDigits(n)) == n
  {
    var s := IntToString(n);
    if n < 10 {
      assert PadStart(s, 2, '0') == "0" + s;
      LeadingZero(s);
    } else {
      assert |NatToDecimal(n / 10)| == 1;
    }
  }

  /** A four-digit number. */
  lemma FourDigits(n: nat)
    requires 1000 <= n < 10000
    ensures |IntToString(n)| == 4
  {
    assert |NatToDecimal(n / 1000)| == 1;
    assert NatToDecimal(n / 100) == NatToDecimal(n / 1000) + [DigitChar(n / 100 % 10)];
    assert n / 10 / 10 == n / 100;
    assert NatToDecimal(n / 10) == NatToDecimal(n / 100) + [DigitChar(n / 10 % 10)];
  }

  /** Three pieces without a dash, joined by dashes, split back into those pieces. */
  lemma SplitThree(a: string, b: string, c: string)
    requires '-' !in a && '-' !in b && '-' !in c
    ensures Split(a + "-" + b + "-" + c, '-') == [a, b, c]
  {
    assert a + "-" + b + "-" + c == a + ['-'] + (b + ['-'] + c);
    SplitAfter(a, '-', b + ['-'] + c);
    SplitAfter(b, '-', c);
    SplitWithout(c, '-');
  }

  lemma DigitsHaveNoDash(s: string)
    requires AllDigits(s)
    ensures '-' !in s
  {
    assert !IsDigit('-');
  }

  /** The formatted date is the three fields joined by `-`, and none of them holds a `-`. */
  lemma FormatDateSplits(year: nat, monthIndex: nat, dayOfMonth: nat)
    requires monthIndex < 12 && 1 <= dayOfMonth <= 31
    ensures Split(FormatDateForInput(CivilDate(year, monthIndex, dayOfMonth)), '-') ==
      [IntToString(year), TwoDigits(monthIndex + 1), TwoDigits(dayOfMonth)]
  {
    TwoDigitsValue(monthIndex + 1);
    TwoDigitsValue(dayOfMonth);
    DigitsHaveNoDash(IntToString(year));
    DigitsHaveNoDash(TwoDigits(monthIndex + 1));
    DigitsHaveNoDash(TwoDigits(dayOfMonth));
    SplitThree(IntToString(year), TwoDigits(monthIndex + 1), TwoDigits(dayOfMonth));
  }

  /** The formatted date reads back as the year, the 1-based month and the day: it splits at
    * `-` into three digit strings, the last two of exactly two digits. */
  lemma FormatDateRoundTrip(year: nat, monthIndex: nat, dayOfMonth: nat)
    requires monthIndex < 12 && 1 <= dayOfMonth <= 31
    ensures var parts := Split(FormatDateForInput(CivilDate(year, monthIndex, dayOfMonth)), '-');
      |parts| == 3 &&
      AllDigits(parts[0]) && AllDigits(parts[1]) && AllDigits(parts[2]) &&
      |parts[1]| == 2 && |parts[2]| == 2 &&
      DecimalValue(parts[0]) == year &&
      DecimalValue(parts[1]) == monthIndex + 1 &&
      DecimalValue(parts[2]) == dayOfMonth
  {
    FormatDateSplits(year, monthIndex, dayOfMonth);
    TwoDigitsValue(monthIndex + 1);
    TwoDigitsValue(dayOfMonth);
  }

  /** A year from 1000 to 9999 gives the ten characters of `YYYY-MM-DD`. */
  lemma FormatDateLength(year: nat, monthIndex: nat, dayOfMonth: nat)
    requires 1000 <= year < 10000 && monthIndex < 12 && 1 <= dayOfMonth <= 31
    ensures |FormatDateForInput(CivilDate(year, monthIndex, dayOfMonth))| == 10
  {
    FourDigits(year);
    TwoDigitsValue(monthIndex + 1);
    TwoDigitsValue(dayOfMonth);
  }
}
