/**
 * The part of the JavaScript `Date` object the calendar relies on, for local dates of the
 * proleptic Gregorian calendar: the month lengths, stepping one day forward, `getDay` (0 is
 * Sunday), `setMonth` with its overflow into the following month, and the `YYYY-MM-DD` key
 * `toISOString().split('T')[0]` yields. Days are counted from 1 January 1970, a Thursday.
 */
module JsDate {
  import opened JsText

  /** A date as `getFullYear`, `getMonth` (0 is January) and `getDate` read it. */
  datatype Date = Date(year: int, month: int, day: int)

  /** A year and a month (0 is January). */
  datatype YearMonth = YearMonth(year: int, month: int)

  predicate IsLeapYear(y: int) {
    y % 4 == 0 && (y % 100 != 0 || y % 400 == 0)
  }

  function DaysInMonth(y: int, m: int): (n: int)
    requires 0 <= m < 12
    ensures 28 <= n <= 31
    ensures n == 29 <==> m == 1 && IsLeapYear(y)
  {
    if m == 1 then (if IsLeapYear(y) then 29 else 28)
    else if m == 3 || m == 5 || m == 8 || m == 10 then 30
    else 31
  }

  predicate ValidDate(d: Date) {
    0 <= d.month < 12 && 1 <= d.day <= DaysInMonth(d.year, d.month)
  }

  function NextMonth(y: int, m: int): (r: YearMonth)
    requires 0 <= m < 12
    ensures 0 <= r.month < 12
  {
    if m == 11 then YearMonth(y + 1, 0) else YearMonth(y, m + 1)
  }

  function PrevMonth(y: int, m: int): (r: YearMonth)
    requires 0 <= m < 12
    ensures 0 <= r.month < 12
  {
    if m == 0 then YearMonth(y - 1, 11) else YearMonth(y, m - 1)
  }

  /** The months before and after are inverse steps. */
  lemma MonthStepsInverse(y: int, m: int)
    requires 0 <= m < 12
    ensures var n := NextMonth(y, m); PrevMonth(n.year, n.month) == YearMonth(y, m)
    ensures var p := PrevMonth(y, m); NextMonth(p.year, p.month) == YearMonth(y, m)
    ensures NextMonth(y, m).year * 12 + NextMonth(y, m).month == y * 12 + m + 1
    ensures PrevMonth(y, m).year * 12 + PrevMonth(y, m).month == y * 12 + m - 1
  {
  }

  /** `setDate(getDate() + 1)`: the next day, rolling over the month and the year. */
  function NextDay(d: Date): Date
    requires ValidDate(d)
  {
    if d.day < DaysInMonth(d.year, d.month) then Date(d.year, d.month, d.day + 1)
    else
      var n := NextMonth(d.year, d.month);
      Date(n.year, n.month, 1)
  }

  /** The number of leap years among 1 .. x (negative counts below). */
  function LeapsThrough(x: int): int {
    x / 4 - x / 100 + x / 400
  }

  function DaysBeforeYear(y: int): int {
    365 * (y - 1970) + LeapsThrough(y - 1) - LeapsThrough(1969)
  }

  /** The days of the year before month `m`: 31 for January, 28 or 29 for February, and so on. */
  function DaysBeforeMonth(y: int, m: int): int
    requires 0 <= m <= 12
  {
    [0, 31, 59, 90, 120, 151, 181, 212, 243, 273, 304, 334, 365][m]
      + (if m >= 2 && IsLeapYear(y) then 1 else 0)
  }

  /** Each month adds its own length. */
  lemma MonthAdds(y: int, m: int)
    requires 0 <= m < 12
    ensures DaysBeforeMonth(y, m + 1) == DaysBeforeMonth(y, m) + DaysInMonth(y, m)
  {
  }

  /** The number of days from 1 January 1970 to the date. */
  function DayNumber(d: Date): int
    requires 0 <= d.month < 12
  {
    DaysBeforeYear(d.year) + DaysBeforeMonth(d.year, d.month) + d.day - 1
  }

  /** `getDay`: 0 is Sunday; 1 January 1970 was a Thursday. */
  function Weekday(d: Date): (w: int)
    requires 0 <= d.month < 12
    ensures 0 <= w < 7
  {
    WeekdayOf(DayNumber(d))
  }

  /** The weekday of the day numbered `n`. */
  function WeekdayOf(n: int): (w: int)
    ensures 0 <= w < 7
  {
    (n + 4) % 7
  }

  /** The count starts at 1 January 1970, a Thursday; 1 January 2000 was a Saturday. */
  lemma Anchors()
    ensures DayNumber(Date(1970, 0, 1)) == 0 && Weekday(Date(1970, 0, 1)) == 4
    ensures DayNumber(Date(2000, 0, 1)) == 10957 && Weekday(Date(2000, 0, 1)) == 6
  {
  }

  /** A year has as many days as its twelve months together. */
  lemma YearLength(y: int)
    ensures DaysBeforeYear(y + 1) == DaysBeforeYear(y) + DaysBeforeMonth(y, 12)
  {
    LeapStep(y);
  }

  /** Going from year y - 1 to year y adds one to the leap count exactly when y is a leap year. */
  lemma LeapStep(y: int)
    ensures LeapsThrough(y) - LeapsThrough(y - 1) == if IsLeapYear(y) then 1 else 0
  {
    MultipleStep4(y);
    MultipleStep100(y);
    MultipleStep400(y);
    LeapCases(y / 4 - (y - 1) / 4, y / 100 - (y - 1) / 100, y / 400 - (y - 1) / 400,
              y % 4 == 0, y % 100 == 0, y % 400 == 0);
  }

  lemma LeapCases(a: int, b: int, c: int, by4: bool, by100: bool, by400: bool)
    requires a == (if by4 then 1 else 0) && b == (if by100 then 1 else 0) && c == (if by400 then 1 else 0)
    requires by100 ==> by4
    requires by400 ==> by100
    ensures a - b + c == if by4 && (!by100 || by400) then 1 else 0
  {
  }

  lemma MultipleStep4(y: int)
    ensures y / 4 - (y - 1) / 4 == if y % 4 == 0 then 1 else 0
  {
    var q, r := y / 4, y % 4;
    var a, b := (y - 1) / 4, (y - 1) % 4;
    if r == 0 {
      assert 4 * (q - a) == b + 1;
    } else {
      assert 4 * (q - a) == b + 1 - r;
    }
  }

  lemma MultipleStep100(y: int)
    ensures y / 100 - (y - 1) / 100 == if y % 100 == 0 then 1 else 0
    ensures y % 100 == 0 ==> y % 4 == 0
  {
    var q, r := y / 100, y % 100;
    var a, b := (y - 1) / 100, (y - 1) % 100;
    if r == 0 {
      assert 100 * (q - a) == b + 1;
      assert y == 4 * (25 * q);
    } else {
      assert 100 * (q - a) == b + 1 - r;
    }
  }

  lemma MultipleStep400(y: int)
    ensures y / 400 - (y - 1) / 400 == if y % 400 == 0 then 1 else 0
    ensures y % 400 == 0 ==> y % 100 == 0
  {
    var q, r := y / 400, y % 400;
    var a, b := (y - 1) / 400, (y - 1) % 400;
    if r == 0 {
      assert 400 * (q - a) == b + 1;
      assert y == 100 * (4 * q);
    } else {
      assert 400 * (q - a) == b + 1 - r;
    }
  }

  /** The next day is a date, and it is numbered one more. */
  lemma NextDayNumber(d: Date)
    requires ValidDate(d)
    ensures ValidDate(NextDay(d))
    ensures DayNumber(NextDay(d)) == DayNumber(d) + 1
  {
    var e := NextDay(d);
    if d.day < DaysInMonth(d.year, d.month) {
      assert e == Date(d.year, d.month, d.day + 1);
    } else if d.month < 11 {
      assert e == Date(d.year, d.month + 1, 1);
      MonthAdds(d.year, d.month);
    } else {
      assert e == Date(d.year + 1, 0, 1);
      YearLength(d.year);
      MonthAdds(d.year, 11);
    }
  }

  /** The day after a date falls on the next weekday, Saturday being followed by Sunday. */
  lemma NextWeekday(d: Date)
    requires ValidDate(d)
    ensures Weekday(NextDay(d)) == (Weekday(d) + 1) % 7
  {
    NextDayNumber(d);
    WeekdayStep(DayNumber(d));
  }

  lemma WeekdayStep(n: int)
    ensures WeekdayOf(n + 1) == (WeekdayOf(n) + 1) % 7
  {
  }

  /** `setMonth(newMonth)`: the month index is carried into the year, the day is kept, and a
      day past the end of the target month runs on into the month after it. */
  function SetMonth(d: Date, newMonth: int): (r: Date)
    requires ValidDate(d)
    ensures ValidDate(r)
  {
    var y, m := d.year + newMonth / 12, newMonth % 12;
    if d.day <= DaysInMonth(y, m) then Date(y, m, d.day)
    else
      var n := NextMonth(y, m);
      Date(n.year, n.month, d.day - DaysInMonth(y, m))
  }

  /** The year as `toISOString` writes it: four digits, or a sign and six digits outside
      0 .. 9999. */
  function YearText(y: int): string {
    if 0 <= y <= 9999 then PadStart(NatToString(y), 4, '0')
    else if y < 0 then "-" + PadStart(NatToString(-y), 6, '0')
    else "+" + PadStart(NatToString(y), 6, '0')
  }

  /** `toISOString().split('T')[0]` of the date. */
  function DateKey(d: Date): string
    requires 0 <= d.month < 12
  {
    YearText(d.year) + "-" + Pad2(d.month + 1) + "-" + Pad2(if d.day < 0 then 0 else d.day)
  }
}
