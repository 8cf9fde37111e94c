/**
 * The date arithmetic of utils/get_datetime.py: the next Sunday after a date, the week of the
 * month a date falls in, and the "<year>년 <month>월 <n>째주" cover text.
 *
 * Dates are proleptic Gregorian as in Python's `datetime.date`; `Ordinal` is `date.toordinal()`
 * (day 1 is 0001-01-01) and `Weekday` is `date.weekday()` (Monday = 0 … Sunday = 6).
 */
module Calendar {
  import opened Text

  datatype Date = Date(year: int, month: int, day: int)

  predicate IsLeap(y: int) {
    y % 4 == 0 && (y % 100 != 0 || y % 400 == 0)
  }

  function DaysInMonth(y: int, m: int): (n: int)
    requires 1 <= m <= 12
    ensures 28 <= n <= 31
  {
    if m == 2 then (if IsLeap(y) then 29 else 28)
    else [31, 0, 31, 30, 31, 30, 31, 31, 30, 31, 30, 31][m - 1]
  }

  predicate ValidDate(d: Date) {
    d.year >= 1 && 1 <= d.month <= 12 && 1 <= d.day <= DaysInMonth(d.year, d.month)
  }

  function YearLength(y: int): int {
    if IsLeap(y) then 366 else 365
  }

  /** Days in the years 1 .. y - 1. */
  function DaysBeforeYear(y: int): int
    requires y >= 1
    decreases y
  {
    if y == 1 then 0 else DaysBeforeYear(y - 1) + YearLength(y - 1)
  }

  /** The year count agrees with the closed formula of Python's `_days_before_year`. */
  lemma {:induction false} DaysBeforeYearClosed(y: int)
    requires y >= 1
    ensures var p := y - 1; DaysBeforeYear(y) == p * 365 + p / 4 - p / 100 + p / 400
    decreases y
  {
    if y > 1 {
      DaysBeforeYearClosed(y - 1);
      var p := y - 2;
      var a := if (p + 1) % 4 == 0 then 1 else 0;
      var b := if (p + 1) % 100 == 0 then 1 else 0;
      var c := if (p + 1) % 400 == 0 then 1 else 0;
      assert (p + 1) / 4 == p / 4 + a;
      assert (p + 1) / 100 == p / 100 + b;
      assert (p + 1) / 400 == p / 400 + c;
      LeapCount(p + 1);
      assert YearLength(y - 1) == 365 + a - b + c;
      assert (p + 1) * 365 == p * 365 + 365;
    }
  }

  /** The three divisibility corrections of the closed formula add up to the leap day. */
  lemma LeapCount(n: int)
    requires n >= 1
    ensures (if n % 4 == 0 then 1 else 0) - (if n % 100 == 0 then 1 else 0) + (if n % 400 == 0 then 1 else 0)
            == (if IsLeap(n) then 1 else 0)
  {
    if n % 400 == 0 {
      CenturyOfQuadricentury(n);
    }
    if n % 100 == 0 {
      QuadrennialOfCentury(n);
    }
  }

  lemma CenturyOfQuadricentury(n: int)
    requires n % 400 == 0
    ensures n % 100 == 0
  {
    var q := n / 400;
    assert n == 100 * (4 * q);
  }

  lemma QuadrennialOfCentury(n: int)
    requires n % 100 == 0
    ensures n % 4 == 0
  {
    var q := n / 100;
    assert n == 4 * (25 * q);
  }

  /** Days in the months of year `y` before month `m` (Python's `_days_before_month`). */
  function DaysBeforeMonth(y: int, m: int): int
    requires 1 <= m <= 12
  {
    [0, 31, 59, 90, 120, 151, 181, 212, 243, 273, 304, 334][m - 1] + (if m > 2 && IsLeap(y) then 1 else 0)
  }

  /** `date.toordinal()`. */
  function Ordinal(d: Date): int
    requires ValidDate(d)
  {
    DaysBeforeYear(d.year) + DaysBeforeMonth(d.year, d.month) + d.day
  }

  /** `date.weekday()`: Monday = 0 … Sunday = 6. */
  function Weekday(d: Date): (w: int)
    requires ValidDate(d)
    ensures 0 <= w < 7
  {
    (Ordinal(d) + 6) % 7
  }

  /** The day after `d` (`d + timedelta(days=1)`). */
  function NextDay(d: Date): (r: Date)
    requires ValidDate(d)
    ensures ValidDate(r)
    ensures Ordinal(r) == Ordinal(d) + 1
  {
    if d.day < DaysInMonth(d.year, d.month) then d.(day := d.day + 1)
    else if d.month < 12 then Date(d.year, d.month + 1, 1)
    else Date(d.year + 1, 1, 1)
  }

  /** `d + timedelta(days=n)`. */
  function AddDays(d: Date, n: nat): (r: Date)
    requires ValidDate(d)
    ensures ValidDate(r)
  {
    if n == 0 then d else NextDay(AddDays(d, n - 1))
  }

  /** `AddDays` moves the ordinal on by exactly `n`. */
  lemma {:induction false} AddDaysOrdinal(d: Date, n: nat)
    requires ValidDate(d)
    ensures Ordinal(AddDays(d, n)) == Ordinal(d) + n
  {
    if n > 0 {
      AddDaysOrdinal(d, n - 1);
    }
  }

  /** Moving `n` days on moves the weekday `n` steps round the week. */
  lemma WeekdayAddDays(d: Date, n: nat)
    requires ValidDate(d)
    ensures Weekday(AddDays(d, n)) == (Weekday(d) + n) % 7
  {
    var o := Ordinal(d);
    var e := AddDays(d, n);
    AddDaysOrdinal(d, n);
    assert Weekday(e) == (o + 6 + n) % 7;
    ModShift(o + 6, n);
    assert Weekday(d) == (o + 6) % 7;
  }

  lemma ModShift(x: int, n: int)
    ensures (x + n) % 7 == (x % 7 + n) % 7
  {
    var q, r := x / 7, x % 7;
    assert x == 7 * q + r;
    assert x + n == 7 * q + (r + n);
  }

  /** `_get_next_sunday_date`: a Sunday after the date, a week on when the date is itself a Sunday. */
  function NextSunday(d: Date): (r: Date)
    requires ValidDate(d)
    ensures ValidDate(r)
  {
    var daysUntilSunday := (6 - Weekday(d) + 7) % 7;
    if Weekday(d) == 6 then AddDays(d, 7) else AddDays(d, daysUntilSunday)
  }

  /** How many days `NextSunday` moves on. */
  function DaysToNextSunday(d: Date): (n: nat)
    requires ValidDate(d)
    ensures 1 <= n <= 7
  {
    if Weekday(d) == 6 then 7 else 6 - Weekday(d)
  }

  lemma NextSundayIsAddDays(d: Date)
    requires ValidDate(d)
    ensures NextSunday(d) == AddDays(d, DaysToNextSunday(d))
  {
    var w := Weekday(d);
    var k := (6 - w + 7) % 7;
    if w == 6 {
      assert NextSunday(d) == AddDays(d, 7) && DaysToNextSunday(d) == 7;
    } else {
      DaysUntilSunday(w);
      assert NextSunday(d) == AddDays(d, k) && DaysToNextSunday(d) == k;
    }
  }

  lemma WeekdaysToNextSunday(d: Date, n: nat)
    requires ValidDate(d) && n == DaysToNextSunday(d)
    ensures Weekday(AddDays(d, n)) == 6
    ensures forall k: nat :: 1 <= k < n ==> Weekday(AddDays(d, k)) != 6
  {
    var w := Weekday(d);
    WeekdayAddDays(d, n);
    forall k: nat | 1 <= k < n ensures Weekday(AddDays(d, k)) != 6 {
      WeekdayAddDays(d, k);
      SundayStep(w, n, k);
    }
    SundayStep(w, n, n);
  }

  lemma SundayStep(w: int, n: int, k: int)
    requires 0 <= w < 7 && n == (if w == 6 then 7 else 6 - w) && 1 <= k <= n
    ensures (w + k) % 7 == 6 <==> k == n
  {
  }

  /**
   * The result is a Sunday 1 to 7 days after the date, exactly 7 days after when the date is a
   * Sunday, and no day strictly between the two is a Sunday.
   */
  lemma NextSundayIsNearestLaterSunday(d: Date)
    requires ValidDate(d)
    ensures Weekday(NextSunday(d)) == 6
    ensures 1 <= Ordinal(NextSunday(d)) - Ordinal(d) <= 7
    ensures Ordinal(NextSunday(d)) - Ordinal(d) == 7 <==> Weekday(d) == 6
    ensures forall k: nat :: 1 <= k < Ordinal(NextSunday(d)) - Ordinal(d) ==> Weekday(AddDays(d, k)) != 6
  {
    var n := DaysToNextSunday(d);
    NextSundayIsAddDays(d);
    AddDaysOrdinal(d, n);
    WeekdaysToNextSunday(d, n);
  }

  lemma DaysUntilSunday(w: int)
    requires 0 <= w < 6
    ensures (6 - w + 7) % 7 == 6 - w
  {
  }

  /** `_get_week_of_month`: the 1-based week row of the month's calendar (weeks start on Monday). */
  function WeekOfMonth(d: Date): (w: int)
    requires ValidDate(d)
    ensures w >= 1
  {
    var firstDayOfMonth := d.(day := 1);
    var adjustedDayOfMonth := d.day + Weekday(firstDayOfMonth);
    (adjustedDayOfMonth - 1) / 7 + 1
  }

  /** Every date is in weeks 1 to 6 of its month, and the first of the month is in week 1. */
  lemma WeekOfMonthBounds(d: Date)
    requires ValidDate(d)
    ensures 1 <= WeekOfMonth(d) <= 6
    ensures d.day == 1 ==> WeekOfMonth(d) == 1
  {
  }

  /** Within a month the weekday of a date follows from the weekday of the first. */
  lemma WeekdayInMonth(d: Date)
    requires ValidDate(d)
    ensures Weekday(d) == (Weekday(d.(day := 1)) + d.day - 1) % 7
  {
    var f := d.(day := 1);
    var o := Ordinal(f);
    assert Ordinal(d) == o + d.day - 1;
    ModShift(o + 6, d.day - 1);
  }

  /**
   * The week number goes up by one exactly on Mondays: together with the first of the month being
   * in week 1 this determines `WeekOfMonth` for every day of the month.
   */
  lemma WeekOfMonthStep(d: Date)
    requires ValidDate(d) && d.day < DaysInMonth(d.year, d.month)
    ensures WeekOfMonth(NextDay(d)) == WeekOfMonth(d) + (if Weekday(NextDay(d)) == 0 then 1 else 0)
  {
    var e := NextDay(d);
    var f := Weekday(d.(day := 1));
    assert e.(day := 1) == d.(day := 1);
    WeekdayInMonth(e);
    var x := d.day + f - 1;
    assert Weekday(e) == (x + 1) % 7;
    assert (x + 1) / 7 == x / 7 + (if (x + 1) % 7 == 0 then 1 else 0);
  }

  const WeekTexts: seq<string> := ["첫째주", "둘째주", "셋째주", "넷째주", "다섯째주", "여섯째주"]

  /** `get_sunday_text`: the cover text for the Sunday after `d`. */
  function SundayText(d: Date): string
    requires ValidDate(d)
  {
    var sundayDate := NextSunday(d);
    var weekOfMonth := WeekOfMonth(sundayDate);
    var weekText := if 1 <= weekOfMonth <= |WeekTexts| then WeekTexts[weekOfMonth - 1]
                    else IntToString(weekOfMonth) + "째주";
    IntToString(sundayDate.year) + "년 " + IntToString(sundayDate.month) + "월 " + weekText
  }

  /**
   * The cover text names the year and month of the computed Sunday and its week from the table;
   * the "<n>째주" fallback is never taken.
   */
  lemma SundayTextShape(d: Date)
    requires ValidDate(d)
    ensures var s := NextSunday(d);
            SundayText(d) == NatToString(s.year) + "년 " + NatToString(s.month) + "월 " + WeekTexts[WeekOfMonth(s) - 1]
  {
    WeekOfMonthBounds(NextSunday(d));
  }

  lemma WeekdaysAtYearEnd()
    ensures Weekday(Date(2024, 12, 30)) == 0
    ensures Weekday(Date(2025, 1, 1)) == 2
  {
    DaysBeforeYearClosed(2024);
    DaysBeforeYearClosed(2025);
    assert Ordinal(Date(2024, 12, 30)) == 739250;
    assert Ordinal(Date(2025, 1, 1)) == 739252;
  }

  lemma SixDaysFromYearEnd()
    ensures AddDays(Date(2024, 12, 30), 6) == Date(2025, 1, 5)
  {
    var d := Date(2024, 12, 30);
    assert AddDays(d, 1) == Date(2024, 12, 31);
    assert AddDays(d, 2) == Date(2025, 1, 1);
    assert AddDays(d, 3) == Date(2025, 1, 2);
    assert AddDays(d, 4) == Date(2025, 1, 3);
    assert AddDays(d, 5) == Date(2025, 1, 4);
  }

  lemma NextSundayAtYearEnd()
    ensures NextSunday(Date(2024, 12, 30)) == Date(2025, 1, 5)
  {
    WeekdaysAtYearEnd();
    NextSundayIsAddDays(Date(2024, 12, 30));
    SixDaysFromYearEnd();
  }

  lemma WeekOfFirstSundayOf2025()
    ensures WeekOfMonth(Date(2025, 1, 5)) == 1
  {
    WeekdaysAtYearEnd();
  }

  lemma SundayTextAtYearEnd(d: Date)
    requires d == Date(2024, 12, 30)
    ensures SundayText(d) == NatToString(2025) + "년 " + NatToString(1) + "월 " + WeekTexts[0]
  {
    NextSundayAtYearEnd();
    SundayTextShape(d);
    WeekOfFirstSundayOf2025();
  }

  lemma CoverTextOfJanuary2025()
    ensures NatToString(2025) + "년 " + NatToString(1) + "월 " + WeekTexts[0] == "2025년 1월 첫째주"
  {
    assert NatToString(2025) == "2025" && NatToString(1) == "1";
  }

  /** A Monday at the end of a year is covered by the next year's first Sunday. */
  lemma SundayTextAcrossYearEnd(d: Date)
    requires d == Date(2024, 12, 30)
    ensures SundayText(d) == "2025년 1월 첫째주"
  {
    SundayTextAtYearEnd(d);
    CoverTextOfJanuary2025();
  }
}
