/** Calendar days and months (proleptic Gregorian), the arithmetic the
    reporting tool does on them, and the `YYYY-MM-DD` spelling. */
module Calendar {
  import opened Wrappers
  import opened Text

  datatype Date = Date(year: int, month: int, day: int)

  /** A calendar month, identified like pandas' month key by its year and
      month number (the key's timestamp is the month's first day). */
  datatype Month = Month(year: int, month: int)

  /** Python's `datetime.MINYEAR` and `datetime.MAXYEAR`. */
  const MinYear := 1
  const MaxYear := 9999

  predicate IsLeapYear(y: int) {
    y % 4 == 0 && (y % 100 != 0 || y % 400 == 0)
  }

  function DaysInMonth(y: int, m: int): (n: int)
    requires 1 <= m <= 12
    ensures 28 <= n <= 31
    ensures n == 29 <==> m == 2 && IsLeapYear(y)
    ensures n == 31 <==> m in {1, 3, 5, 7, 8, 10, 12}
  {
    if m == 2 then (if IsLeapYear(y) then 29 else 28)
    else if m == 4 || m == 6 || m == 9 || m == 11 then 30
    else 31
  }

  predicate ValidDate(d: Date) {
    MinYear <= d.year <= MaxYear && 1 <= d.month <= 12 && 1 <= d.day <= DaysInMonth(d.year, d.month)
  }

  /** A day Python's `datetime` can represent. */
  type Day = d: Date | ValidDate(d) witness Date(1970, 1, 1)

  predicate DateLt(a: Date, b: Date) {
    a.year < b.year || (a.year == b.year && (a.month < b.month || (a.month == b.month && a.day < b.day)))
  }

  predicate DateLeq(a: Date, b: Date) {
    a == b || DateLt(a, b)
  }

  predicate ValidMonth(m: Month) {
    1 <= m.month <= 12
  }

  type CalendarMonth = m: Month | ValidMonth(m) witness Month(1970, 1)

  /** Months in calendar order. */
  predicate MonthLt(a: Month, b: Month) {
    a.year < b.year || (a.year == b.year && a.month < b.month)
  }

  /** The position of a month on a single count of months. */
  function MonthIndex(m: Month): int {
    m.year * 12 + m.month - 1
  }

  /** `dt.to_period("M").to_timestamp()`: the month a day falls in. */
  function MonthOf(d: Day): (r: CalendarMonth)
    ensures DateLeq(Date(r.year, r.month, 1), d)
    ensures DateLeq(d, Date(r.year, r.month, DaysInMonth(r.year, r.month)))
  {
    Month(d.year, d.month)
  }

  /** The calendar month before `m`: `m - MonthBegin(1)` on a month key. */
  function PrevMonth(m: CalendarMonth): (p: CalendarMonth)
    ensures MonthIndex(p) == MonthIndex(m) - 1
    ensures m.month == 1 ==> p.year == m.year - 1 && p.month == 12
    ensures m.month > 1 ==> p.year == m.year && p.month == m.month - 1
  {
    if m.month == 1 then Month(m.year - 1, 12) else Month(m.year, m.month - 1)
  }

  /** Calendar order on months is order on their index. */
  lemma MonthLtIsIndexOrder(a: CalendarMonth, b: CalendarMonth)
    ensures MonthLt(a, b) <==> MonthIndex(a) < MonthIndex(b)
  {
  }

  /** No month lies strictly between a month and its predecessor. */
  lemma PrevMonthIsImmediate(m: CalendarMonth, x: CalendarMonth)
    ensures MonthLt(PrevMonth(m), m)
    ensures MonthLt(x, m) ==> x == PrevMonth(m) || MonthLt(x, PrevMonth(m))
  {
    MonthLtIsIndexOrder(x, m);
    MonthLtIsIndexOrder(x, PrevMonth(m));
    MonthLtIsIndexOrder(PrevMonth(m), m);
  }

  /** `d.replace(day=1)`. */
  function FirstOfMonth(d: Day): (r: Day)
    ensures MonthOf(r) == MonthOf(d) && r.day == 1
    ensures DateLeq(r, d)
  {
    Date(d.year, d.month, 1)
  }

  /** `d - Timedelta(days=1)`; the first day Python can represent has no
      predecessor. */
  function DayBefore(d: Day): (r: Day)
    requires d != Date(MinYear, 1, 1)
    ensures DateLt(r, d)
    ensures forall x: Day :: DateLt(x, d) ==> DateLeq(x, r)
  {
    if d.day > 1 then Date(d.year, d.month, d.day - 1)
    else if d.month > 1 then Date(d.year, d.month - 1, DaysInMonth(d.year, d.month - 1))
    else Date(d.year - 1, 12, 31)
  }

  /** `d + Timedelta(days=1)`, the partner of `DayBefore`. */
  function NextDay(d: Day): (r: Day)
    requires d != Date(MaxYear, 12, 31)
    ensures DateLt(d, r)
  {
    if d.day < DaysInMonth(d.year, d.month) then Date(d.year, d.month, d.day + 1)
    else if d.month < 12 then Date(d.year, d.month + 1, 1)
    else Date(d.year + 1, 1, 1)
  }

  lemma DayBeforeThenNext(d: Day)
    requires d != Date(MinYear, 1, 1)
    ensures DayBefore(d) != Date(MaxYear, 12, 31) && NextDay(DayBefore(d)) == d
  {
  }

  lemma NextThenDayBefore(d: Day)
    requires d != Date(MaxYear, 12, 31)
    ensures NextDay(d) != Date(MinYear, 1, 1) && DayBefore(NextDay(d)) == d
  {
  }

  // ---------------------------------------------------------------------
  // YYYY-MM-DD
  // ---------------------------------------------------------------------

  /** `strftime("%Y-%m-%d")`. */
  function FormatIso(d: Day): (s: string)
    ensures |s| == 10 && s[4] == '-' && s[7] == '-'
  {
    PadDigits(d.year, 4) + "-" + PadDigits(d.month, 2) + "-" + PadDigits(d.day, 2)
  }

  /** Reads a `YYYY-MM-DD` string back into its three numbers; the inverse
      of `FormatIso`, used to state what the formatted text means. */
  function ParseIso(s: string): Option<Date> {
    if |s| == 10 && s[4] == '-' && s[7] == '-'
       && AllDigits(s[..4]) && AllDigits(s[5..7]) && AllDigits(s[8..])
    then Some(Date(DigitsValue(s[..4]), DigitsValue(s[5..7]), DigitsValue(s[8..])))
    else None
  }

  lemma FormatIsoRoundTrip(d: Day)
    ensures ParseIso(FormatIso(d)) == Some(d)
  {
    var y, m, dd := PadDigits(d.year, 4), PadDigits(d.month, 2), PadDigits(d.day, 2);
    var s := FormatIso(d);
    assert s == y + "-" + m + "-" + dd;
    assert s[..4] == y;
    assert s[5..7] == m;
    assert s[8..] == dd;
  }
}
