/**
 * Proleptic Gregorian dates as Python's datetime.date has them: years 1 to
 * 9999, toordinal(), weekday(), adding a timedelta of whole days, and the
 * '%Y-%m-%d' rendering the bot sends to the server.
 */
module Calendar {
  import opened Wrappers
  import Text

  datatype Date = Date(year: int, month: int, day: int)

  const MaxYear := 9999

  predicate IsLeapYear(y: int) {
    y % 4 == 0 && (y % 100 != 0 || y % 400 == 0)
  }

  function DaysInMonth(y: int, m: int): (n: int)
    ensures 28 <= n <= 31
  {
    if m == 2 then (if IsLeapYear(y) then 29 else 28)
    else if m == 4 || m == 6 || m == 9 || m == 11 then 30
    else 31
  }

  /** The dates datetime(year, month, day) accepts without raising ValueError. */
  predicate IsValidDate(d: Date) {
    1 <= d.year <= MaxYear && 1 <= d.month <= 12 && 1 <= d.day <= DaysInMonth(d.year, d.month)
  }

  /** date.max */
  const LastDate := Date(MaxYear, 12, 31)

  /** Days of year y before the first of month m (m == 13 gives the length of the year). */
  function DaysBeforeMonth(y: int, m: int): nat
    requires 1 <= m <= 13
  {
    if m == 1 then 0 else DaysBeforeMonth(y, m - 1) + DaysInMonth(y, m - 1)
  }

  /** Days from 0001-01-01 to the first of January of year y. */
  function DaysBeforeYear(y: int): nat
    requires y >= 1
  {
    if y == 1 then 0 else DaysBeforeYear(y - 1) + DaysBeforeMonth(y - 1, 13)
  }

  /** date.toordinal(): 0001-01-01 is day 1 and each following date one more. */
  function Ordinal(d: Date): int
    requires IsValidDate(d)
  {
    DaysBeforeYear(d.year) + DaysBeforeMonth(d.year, d.month) + d.day
  }

  /** date.weekday(): Monday is 0 and Sunday is 6 (0001-01-01 was a Monday). */
  function Weekday(d: Date): (w: int)
    requires IsValidDate(d)
    ensures 0 <= w < 7
  {
    (Ordinal(d) + 6) % 7
  }

  lemma {:induction false} DaysBeforeMonthGrows(y: int, m: int, m': int)
    requires 1 <= m <= m' <= 13
    ensures DaysBeforeMonth(y, m) <= DaysBeforeMonth(y, m')
    decreases m' - m
  {
    if m < m' {
      DaysBeforeMonthGrows(y, m, m' - 1);
    }
  }

  lemma {:induction false} DaysBeforeYearGrows(y: int, y': int)
    requires 1 <= y <= y'
    ensures DaysBeforeYear(y) <= DaysBeforeYear(y')
    decreases y' - y
  {
    if y < y' {
      DaysBeforeYearGrows(y, y' - 1);
    }
  }

  /** The calendar day after d (d is not the last representable date). */
  function NextDay(d: Date): (r: Date)
    requires IsValidDate(d) && d != LastDate
    ensures IsValidDate(r) && Ordinal(r) == Ordinal(d) + 1
  {
    if d.day < DaysInMonth(d.year, d.month) then d.(day := d.day + 1)
    else if d.month < 12 then Date(d.year, d.month + 1, 1)
    else Date(d.year + 1, 1, 1)
  }

  /** Every date lies at or before date.max. */
  lemma OrdinalAtMostLast(d: Date)
    requires IsValidDate(d)
    ensures Ordinal(d) <= Ordinal(LastDate)
  {
    DaysBeforeMonthGrows(d.year, d.month + 1, 13);
    DaysBeforeYearGrows(d.year + 1, MaxYear + 1);
    YearEndOrdinal(MaxYear);
  }

  /** December 31 is the last day before the next year starts. */
  lemma YearEndOrdinal(y: int)
    requires 1 <= y <= MaxYear
    ensures Ordinal(Date(y, 12, 31)) == DaysBeforeYear(y + 1)
  {
  }

  /** A date that comes earlier on the calendar has a smaller ordinal. */
  lemma OrdinalOrder(a: Date, b: Date)
    requires IsValidDate(a) && IsValidDate(b)
    requires a.year < b.year || (a.year == b.year && a.month < b.month)
    ensures Ordinal(a) < Ordinal(b)
  {
    if a.year < b.year {
      DaysBeforeMonthGrows(a.year, a.month + 1, 13);
      DaysBeforeYearGrows(a.year + 1, b.year);
    } else {
      DaysBeforeMonthGrows(a.year, a.month + 1, b.month);
    }
  }

  /** toordinal() tells dates apart: two dates with one ordinal are the same date. */
  lemma OrdinalInjective(a: Date, b: Date)
    requires IsValidDate(a) && IsValidDate(b) && Ordinal(a) == Ordinal(b)
    ensures a == b
  {
    if a.year < b.year || (a.year == b.year && a.month < b.month) {
      OrdinalOrder(a, b);
    } else if b.year < a.year || (a.year == b.year && b.month < a.month) {
      OrdinalOrder(b, a);
    }
  }

  /** Only date.max has the ordinal of date.max. */
  lemma OnlyLastDateIsLast(d: Date)
    requires IsValidDate(d)
    ensures Ordinal(d) == Ordinal(LastDate) ==> d == LastDate
  {
    if d != LastDate {
      OrdinalAtMostLast(NextDay(d));
    }
  }

  /**
   * date + timedelta(days=n): the date n days later; None where Python raises
   * OverflowError because the result would lie after date.max.
   */
  function AddDays(d: Date, n: nat): (r: Option<Date>)
    requires IsValidDate(d)
    ensures r.Some? ==> IsValidDate(r.value) && Ordinal(r.value) == Ordinal(d) + n
    ensures r.None? <==> Ordinal(d) + n > Ordinal(LastDate)
    decreases n
  {
    OrdinalAtMostLast(d);
    OnlyLastDateIsLast(d);
    if n == 0 then Some(d)
    else if d == LastDate then None
    else AddDays(NextDay(d), n - 1)
  }

  /** The weekday j days after a day whose weekday is current. */
  function WeekdayAfter(current: int, j: int): int {
    (current + j) % 7
  }

  /** days_ahead in get_next_weekday: how far ahead the next given weekday lies. */
  function DaysAhead(target: int, current: int): (k: int)
    requires 0 <= target < 7 && 0 <= current < 7
    ensures 1 <= k <= 7
    ensures WeekdayAfter(current, k) == target
    ensures forall j :: 1 <= j < k ==> WeekdayAfter(current, j) != target
  {
    var k := target - current;
    if k <= 0 then k + 7 else k
  }

  /**
   * get_next_weekday(target): the first date strictly after today whose
   * weekday is target, one to seven days ahead (None past date.max).
   */
  function NextWeekday(today: Date, target: int): (r: Option<Date>)
    requires IsValidDate(today) && 0 <= target < 7
    ensures r.Some? ==> IsValidDate(r.value) && Weekday(r.value) == target
                        && Ordinal(today) < Ordinal(r.value) <= Ordinal(today) + 7
    ensures r.Some? ==> forall j :: 1 <= j < Ordinal(r.value) - Ordinal(today) ==> WeekdayAfter(Weekday(today), j) != target
    ensures r.None? ==> Ordinal(LastDate) - Ordinal(today) < 7
  {
    var k := DaysAhead(target, Weekday(today));
    var r := AddDays(today, k);
    if r.Some? then
      WeekdayShift(today, r.value, k);
      assert Ordinal(r.value) - Ordinal(today) == k;
      r
    else
      r
  }

  lemma WeekdayShift(d: Date, e: Date, k: nat)
    requires IsValidDate(d) && IsValidDate(e) && Ordinal(e) == Ordinal(d) + k
    ensures Weekday(e) == WeekdayAfter(Weekday(d), k)
  {
  }

  /** strftime('%Y-%m-%d') */
  function FormatDate(d: Date): (s: string)
    requires IsValidDate(d)
    ensures |s| == 10 && s[4] == '-' && s[7] == '-'
  {
    Text.FixedDigits(d.year, 4) + "-" + Text.FixedDigits(d.month, 2) + "-" + Text.FixedDigits(d.day, 2)
  }

  /** The year, month and day read back from the string: each field is zero-padded decimal digits. */
  lemma FormatDateReadsBack(d: Date)
    requires IsValidDate(d)
    ensures var s := FormatDate(d);
      Text.AllDigits(s[..4]) && Text.AllDigits(s[5..7]) && Text.AllDigits(s[8..])
      && Text.DecimalValue(s[..4]) == d.year && Text.DecimalValue(s[5..7]) == d.month && Text.DecimalValue(s[8..]) == d.day
  {
    var s := FormatDate(d);
    assert s[..4] == Text.FixedDigits(d.year, 4);
    assert s[5..7] == Text.FixedDigits(d.month, 2);
    assert s[8..] == Text.FixedDigits(d.day, 2);
    assert Text.Pow10(4) == 10000 && Text.Pow10(2) == 100;
    Text.FixedDigitsValue(d.year, 4);
    Text.FixedDigitsValue(d.month, 2);
    Text.FixedDigitsValue(d.day, 2);
  }

  /** The rendering keeps the whole date: different dates give different strings. */
  lemma FormatDateInjective(a: Date, b: Date)
    requires IsValidDate(a) && IsValidDate(b)
    requires FormatDate(a) == FormatDate(b)
    ensures a == b
  {
    FormatDateReadsBack(a);
    FormatDateReadsBack(b);
  }
}
