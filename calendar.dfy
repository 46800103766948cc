/** Dates and instants as the dashboard uses them through JavaScript `Date` and date-fns:
    a local calendar date with a time of day, its time value (`getTime`), start and end of
    its day, whole-day differences, interval membership, and the text keys the components
    build with `format` ('MM', 'yyyy-MM', 'dd.MM.yyyy'). Local time has no daylight-saving
    shifts here. */
module Calendar {
  import opened Values
  import opened Text

  /** Milliseconds in one day. */
  const DayMs: int := 86400000

  datatype DateTime = DateTime(year: int, month: int, day: int, ms: int)

  predicate IsLeapYear(y: int)
  {
    (y % 4 == 0 && y % 100 != 0) || y % 400 == 0
  }

  function DaysInMonth(y: int, m: int): (n: int)
    ensures 28 <= n <= 31
  {
    if m == 2 then (if IsLeapYear(y) then 29 else 28)
    else if m == 4 || m == 6 || m == 9 || m == 11 then 30
    else 31
  }

  /** A calendar date with four-digit year and a time of day in milliseconds. */
  predicate ValidDateTime(d: DateTime)
  {
    && 0 <= d.year <= 9999
    && 1 <= d.month <= 12
    && 1 <= d.day <= DaysInMonth(d.year, d.month)
    && 0 <= d.ms < DayMs
  }

  type Date = d: DateTime | ValidDateTime(d) witness DateTime(1970, 1, 1, 0)

  /** Days from 1 January of year 0 to 1 January of year `y` (proleptic Gregorian calendar). */
  function DaysBeforeYear(y: nat): (days: int)
    ensures days >= 365 * y
  {
    if y == 0 then 0 else DaysBeforeYear(y - 1) + DaysInYear(y - 1)
  }

  /** Days from 1 January to the first day of month `m` of year `y`. */
  function DaysBeforeMonth(y: int, m: int): (days: int)
    requires 1 <= m <= 12
    ensures 28 * (m - 1) <= days <= 31 * (m - 1)
  {
    if m == 1 then 0 else DaysBeforeMonth(y, m - 1) + DaysInMonth(y, m - 1)
  }

  function DaysInYear(y: int): int
  {
    if IsLeapYear(y) then 366 else 365
  }

  /** Consecutive months tile the year: each month starts where the previous one ends, and
      December ends where the year does. */
  lemma {:induction false} MonthsTileYear(y: int, m: int)
    requires 1 <= m <= 12
    ensures m < 12 ==> DaysBeforeMonth(y, m + 1) == DaysBeforeMonth(y, m) + DaysInMonth(y, m)
    ensures m == 12 ==> DaysBeforeMonth(y, m) + DaysInMonth(y, m) == DaysInYear(y)
    ensures DaysBeforeMonth(y, m) + DaysInMonth(y, m) <= DaysInYear(y)
    decreases 12 - m
  {
    if m < 12 {
      MonthsTileYear(y, m + 1);
    } else {
      DaysBeforeDecember(y, 12);
    }
  }

  /** The month lengths add up to the familiar day offsets of the months. */
  lemma {:induction false} DaysBeforeDecember(y: int, m: int)
    requires 1 <= m <= 12
    ensures DaysBeforeMonth(y, m) == [0, 31, 59, 90, 120, 151, 181, 212, 243, 273, 304, 334][m - 1] + (if m > 2 && IsLeapYear(y) then 1 else 0)
    decreases m
  {
    if m > 1 {
      DaysBeforeDecember(y, m - 1);
    }
  }

  /** Later months of a year start later. */
  lemma {:induction false} DaysBeforeMonthMonotone(y: int, a: int, b: int)
    requires 1 <= a < b <= 12
    ensures DaysBeforeMonth(y, a) + DaysInMonth(y, a) <= DaysBeforeMonth(y, b)
    decreases b - a
  {
    if a + 1 < b {
      DaysBeforeMonthMonotone(y, a + 1, b);
    }
  }

  /** Consecutive years tile the day line. */
  lemma YearsTile(y: nat)
    ensures DaysBeforeYear(y + 1) == DaysBeforeYear(y) + DaysInYear(y)
  {
  }

  lemma {:induction false} DaysBeforeYearMonotone(a: nat, b: nat)
    requires a <= b
    ensures DaysBeforeYear(a) <= DaysBeforeYear(b)
    decreases b - a
  {
    if a < b {
      YearsTile(a);
      DaysBeforeYearMonotone(a + 1, b);
    }
  }

  /** The day a date falls on, counted from 1 January of year 0. */
  function DayNumber(d: Date): int
  {
    DaysBeforeYear(d.year) + DaysBeforeMonth(d.year, d.month) + d.day - 1
  }

  /** `date.getTime()` relative to the start of year 0, in local time. */
  function Time(d: Date): int
  {
    DayNumber(d) * DayMs + d.ms
  }

  /** `date.getFullYear()`. */
  function Year(d: Date): int
  {
    d.year
  }

  /** date-fns `startOfDay`: the first millisecond of the same day. */
  function StartOfDay(d: Date): (r: Date)
    ensures DayNumber(r) == DayNumber(d)
    ensures Time(r) <= Time(d) && Time(r) == DayNumber(d) * DayMs
  {
    d.(ms := 0)
  }

  /** date-fns `endOfDay`: the last millisecond of the same day. */
  function EndOfDay(d: Date): (r: Date)
    ensures DayNumber(r) == DayNumber(d)
    ensures Time(d) <= Time(r) && Time(r) == DayNumber(d) * DayMs + DayMs - 1
  {
    d.(ms := DayMs - 1)
  }

  /** A calendar date before another one falls on an earlier day. */
  lemma DayNumberOrder(a: Date, b: Date)
    requires a.year < b.year || (a.year == b.year && (a.month < b.month || (a.month == b.month && a.day < b.day)))
    ensures DayNumber(a) < DayNumber(b)
  {
    MonthsTileYear(a.year, a.month);
    if a.year < b.year {
      YearsTile(a.year);
      DaysBeforeYearMonotone(a.year + 1, b.year);
    } else if a.month < b.month {
      DaysBeforeMonthMonotone(a.year, a.month, b.month);
    }
  }

  /** Dates on the same day carry the same year, month and day. */
  lemma DayNumberInjective(a: Date, b: Date)
    requires DayNumber(a) == DayNumber(b)
    ensures a.year == b.year && a.month == b.month && a.day == b.day
  {
    if a.year < b.year || (a.year == b.year && (a.month < b.month || (a.month == b.month && a.day < b.day))) {
      DayNumberOrder(a, b);
      assert false;
    } else if b.year < a.year || (a.year == b.year && (b.month < a.month || (a.month == b.month && b.day < a.day))) {
      DayNumberOrder(b, a);
      assert false;
    }
  }

  /** The last day of the modelled calendar. */
  const LastDay: Date := DateTime(9999, 12, 31, 0)

  /** No date falls on a later day than the last day of the calendar. */
  lemma DayNumberAtMost(d: Date)
    ensures DayNumber(d) <= DayNumber(LastDay)
  {
    assert DayNumber(d) < DaysBeforeYear(d.year + 1) by {
      MonthsTileYear(d.year, d.month);
      YearsTile(d.year);
    }
    assert DayNumber(LastDay) == DaysBeforeYear(10000) - 1 by {
      MonthsTileYear(9999, 12);
      YearsTile(9999);
    }
    DaysBeforeYearMonotone(d.year + 1, 10000);
  }

  /** date-fns `addDays(d, 1)`: the same time of day on the following calendar day. The day
      after the last day of the calendar is an invalid date (None). */
  function NextDay(d: Date): (r: Option<Date>)
    ensures r.Some? ==> DayNumber(r.value) == DayNumber(d) + 1 && r.value.ms == d.ms
    ensures r.None? <==> d.year == 9999 && d.month == 12 && d.day == 31
  {
    MonthsTileYear(d.year, d.month);
    if d.day < DaysInMonth(d.year, d.month) then Some(d.(day := d.day + 1))
    else if d.month < 12 then Some(d.(month := d.month + 1, day := 1))
    else if d.year < 9999 then (YearsTile(d.year); Some(DateTime(d.year + 1, 1, 1, d.ms)))
    else None
  }

  /** A following day exists for every date that lies on an earlier day than some other date. */
  lemma NextDayExists(d: Date, later: Date)
    requires DayNumber(d) < DayNumber(later)
    ensures NextDay(d).Some?
  {
    DayNumberAtMost(later);
  }

  /** Instants are ordered by their day first, then by their time of day. */
  lemma TimeOrder(a: Date, b: Date)
    ensures Time(a) <= Time(b) <==> DayNumber(a) < DayNumber(b) || (DayNumber(a) == DayNumber(b) && a.ms <= b.ms)
  {
  }

  /** date-fns `differenceInDays(later, earlier)`: the number of full days between the two
      instants, truncated towards zero (a last day that is not complete does not count). */
  function DifferenceInDays(later: Date, earlier: Date): (days: int)
    ensures later.ms == earlier.ms ==> days == DayNumber(later) - DayNumber(earlier)
    ensures Time(later) >= Time(earlier) ==> days >= 0
    ensures Time(later) <= Time(earlier) ==> days <= 0
    ensures Time(later) >= Time(earlier) ==>
      days * DayMs <= Time(later) - Time(earlier) < (days + 1) * DayMs
    ensures Time(later) < Time(earlier) ==>
      (-days) * DayMs <= Time(earlier) - Time(later) < (1 - days) * DayMs
  {
    var calendarDays := DayNumber(later) - DayNumber(earlier);
    if calendarDays > 0 && later.ms < earlier.ms then calendarDays - 1
    else if calendarDays < 0 && later.ms > earlier.ms then calendarDays + 1
    else calendarDays
  }

  /** date-fns (version 2) `isWithinInterval(date, {start, end})`: inclusive at both ends,
      and a RangeError when the interval's start lies after its end. */
  function IsWithinInterval(d: Date, start: Date, end: Date): (r: Completion<bool>)
    ensures r.Throws? <==> Time(start) > Time(end)
    ensures r.Throws? ==> r.reason == "Invalid interval"
    ensures r.Normal? ==> (r.value <==> Time(start) <= Time(d) <= Time(end))
  {
    if Time(start) > Time(end) then Throws("Invalid interval")
    else Normal(Time(start) <= Time(d) && Time(d) <= Time(end))
  }

  /** date-fns `min(dates)`: an earliest instant of a non-empty list. */
  function Earliest(ds: seq<Date>): (r: Date)
    requires |ds| > 0
    ensures r in ds
    ensures forall x :: x in ds ==> Time(r) <= Time(x)
  {
    if |ds| == 1 then ds[0]
    else
      var m := Earliest(ds[1..]);
      if Time(ds[0]) <= Time(m) then ds[0] else m
  }

  /** date-fns `max(dates)`: a latest instant of a non-empty list. */
  function Latest(ds: seq<Date>): (r: Date)
    requires |ds| > 0
    ensures r in ds
    ensures forall x :: x in ds ==> Time(x) <= Time(r)
  {
    if |ds| == 1 then ds[0]
    else
      var m := Latest(ds[1..]);
      if Time(ds[0]) >= Time(m) then ds[0] else m
  }

  // ---------------------------------------------------------------- text keys

  /** `format(date, 'MM')`: the two-digit month. */
  function MonthKey(d: Date): string
  {
    Pad(d.month as nat, 2)
  }

  /** `format(startOfMonth(date), 'yyyy-MM')`. */
  function YearMonthKey(d: Date): string
  {
    Pad(d.year as nat, 4) + "-" + Pad(d.month as nat, 2)
  }

  /** `format(date, 'dd.MM.yyyy')`. */
  function FormatDate(d: Date): string
  {
    Pad(d.day as nat, 2) + "." + Pad(d.month as nat, 2) + "." + Pad(d.year as nat, 4)
  }

  /** The ISO calendar-date text `yyyy-MM-dd` of a date. */
  function IsoDate(d: Date): string
  {
    Pad(d.year as nat, 4) + "-" + Pad(d.month as nat, 2) + "-" + Pad(d.day as nat, 2)
  }

  /** The twelve keys `format(new Date(2000, month, 1), 'MM')` for month = 0..11. */
  const MonthKeys: seq<string> := ["01", "02", "03", "04", "05", "06", "07", "08", "09", "10", "11", "12"]

  /** Every date's 'MM' key is one of the twelve month keys, the one at position month - 1. */
  lemma MonthKeyInMonthKeys(d: Date)
    ensures MonthKey(d) == MonthKeys[d.month - 1]
    ensures MonthKey(d) in MonthKeys
  {
  }
}
