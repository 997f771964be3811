/** The part of moment's behaviour the exporter uses, as integer calendar
    arithmetic on the proleptic Gregorian calendar: building the first day of a
    month from a year and a 0-based month, moving to the last day of that month,
    and formatting with the patterns 'YYYY-MM-DD' and 'MMM YYYY' in the English
    locale. */
module Calendar {
  import opened Wrappers
  import opened DecimalText

  /** The Gregorian leap-year rule (Dafny's `%` never goes negative, so years
      before year 0 follow the same rule as astronomical year numbers). */
  predicate IsLeapYear(y: int) {
    y % 4 == 0 && (y % 100 != 0 || y % 400 == 0)
  }

  /** Number of days in month `m` (1-based) of year `y`. */
  function DaysInMonth(y: int, m: int): (d: int)
    requires 1 <= m <= 12
    ensures 28 <= d <= 31
    ensures d == 29 <==> m == 2 && IsLeapYear(y)
    ensures d == 28 <==> m == 2 && !IsLeapYear(y)
  {
    if m == 2 then (if IsLeapYear(y) then 29 else 28)
    else if m == 4 || m == 6 || m == 9 || m == 11 then 30
    else 31
  }

  /** Days of year `y` before the first day of month `m`; `m == 13` gives the
      length of the whole year. */
  function DaysBeforeMonth(y: int, m: int): nat
    requires 1 <= m <= 13
  {
    if m == 1 then 0 else DaysBeforeMonth(y, m - 1) + DaysInMonth(y, m - 1)
  }

  /** The twelve month lengths add up to 366 days in a leap year and to 365
      otherwise. */
  lemma {:induction false} YearLength(y: int)
    ensures DaysBeforeMonth(y, 13) == if IsLeapYear(y) then 366 else 365
  {
    var february := DaysInMonth(y, 2);
    assert DaysBeforeMonth(y, 2) == 31;
    assert DaysBeforeMonth(y, 3) == 31 + february;
    assert DaysBeforeMonth(y, 4) == 62 + february;
    assert DaysBeforeMonth(y, 5) == 92 + february;
    assert DaysBeforeMonth(y, 6) == 123 + february;
    assert DaysBeforeMonth(y, 7) == 153 + february;
    assert DaysBeforeMonth(y, 8) == 184 + february;
    assert DaysBeforeMonth(y, 9) == 215 + february;
    assert DaysBeforeMonth(y, 10) == 245 + february;
    assert DaysBeforeMonth(y, 11) == 276 + february;
    assert DaysBeforeMonth(y, 12) == 306 + february;
  }

  /** A valid moment: a calendar day with a 0-based month, as JavaScript
      dates keep it. */
  datatype Moment = Moment(year: int, month0: int, day: int)

  predicate IsValidMoment(t: Moment) {
    0 <= t.month0 <= 11 && 1 <= t.day <= DaysInMonth(t.year, t.month0 + 1)
  }

  /** `moment({ year, month, day: 1 })`: `None` is the invalid moment, which
      moment produces when a component is `NaN` or the 0-based month lies
      outside 0..11. */
  function FirstDayOf(year: Option<int>, month0: Option<int>): (t: Option<Moment>)
    ensures t.Some? ==> IsValidMoment(t.value) && t.value.day == 1
    ensures t.Some? <==> year.Some? && month0.Some? && 0 <= month0.value <= 11
    ensures t.Some? ==> t.value.year == year.value && t.value.month0 == month0.value
  {
    if year.Some? && month0.Some? && 0 <= month0.value <= 11
    then Some(Moment(year.value, month0.value, 1))
    else None
  }

  /** `time.endOf('month')`: the last day of the same month; an invalid
      moment stays invalid. */
  function EndOfMonth(t: Option<Moment>): (e: Option<Moment>)
    requires t.Some? ==> IsValidMoment(t.value)
    ensures e.Some? <==> t.Some?
    ensures e.Some? ==> (
      && IsValidMoment(e.value)
      && e.value.year == t.value.year && e.value.month0 == t.value.month0
      && e.value.day == DaysInMonth(t.value.year, t.value.month0 + 1)
      && t.value.day <= e.value.day)
  {
    match t
    case None => None
    case Some(m) => Some(m.(day := DaysInMonth(m.year, m.month0 + 1)))
  }

  /** What moment's `format` prints for an invalid moment, whatever the pattern. */
  const InvalidDate: string := "Invalid date"

  const MonthAbbreviations: seq<string> :=
    ["Jan", "Feb", "Mar", "Apr", "May", "Jun", "Jul", "Aug", "Sep", "Oct", "Nov", "Dec"]

  /** The token 'YYYY': the year zero-filled to at least four digits, with a
      minus sign before a negative year. */
  function FormatYear(y: int): (s: string)
    ensures 4 <= |s| && (s[0] == '-' <==> y < 0) && (y >= 0 ==> IsDigit(s[0]))
  {
    if y < 0 then "-" + ZeroFill(-y, 4) else ZeroFill(y, 4)
  }

  /** `format('YYYY-MM-DD')`: the 'MM' token prints the 0-based month plus one.
      Only an invalid moment prints "Invalid date"; a valid one prints at
      least ten characters, exactly ten for the years 0..9999. */
  function FormatIsoDate(t: Option<Moment>): (r: string)
    requires t.Some? ==> IsValidMoment(t.value)
    ensures r == InvalidDate <==> t.None?
    ensures t.Some? ==> 10 <= |r|
    ensures t.Some? && 0 <= t.value.year <= 9999 ==> |r| == 10
  {
    match t
    case None => InvalidDate
    case Some(m) =>
      ZeroFillValue(m.month0 + 1, 2);
      ZeroFillValue(m.day, 2);
      ZeroFillValue(if m.year < 0 then -m.year else m.year, 4);
      var r := FormatYear(m.year) + "-" + ZeroFill(m.month0 + 1, 2) + "-" + ZeroFill(m.day, 2);
      assert r[0] == FormatYear(m.year)[0] != InvalidDate[0];
      r
  }

  /** `format('MMM YYYY')`, e.g. "Dec 2015": the English month abbreviation,
      a space and the year; only an invalid moment prints "Invalid date". */
  function FormatMonthYear(t: Option<Moment>): (r: string)
    requires t.Some? ==> IsValidMoment(t.value)
    ensures r == InvalidDate <==> t.None?
    ensures t.Some? ==> 8 <= |r| && r[..3] == MonthAbbreviations[t.value.month0] && r[3] == ' '
  {
    match t
    case None => InvalidDate
    case Some(m) =>
      var r := MonthAbbreviations[m.month0] + " " + FormatYear(m.year);
      assert r[3] == ' ' != InvalidDate[3];
      r
  }

  /** The calendar-date complete representation in extended format of
      section 4.1.2.2 of ISO 8601:2004: YYYY-MM-DD. */
  predicate IsIsoCalendarDate(s: string) {
    && |s| == 10 && s[4] == '-' && s[7] == '-'
    && AllDigits(s[..4]) && AllDigits(s[5..7]) && AllDigits(s[8..])
  }

  /** Reads year, 1-based month and day back out of an ISO 8601 calendar date. */
  function ParseIsoCalendarDate(s: string): Option<(int, int, int)> {
    if IsIsoCalendarDate(s) then Some((ValueOf(s[..4]), ValueOf(s[5..7]), ValueOf(s[8..])))
    else None
  }

  /** Reads year and 1-based month back out of a 'MMM YYYY' label. */
  function ParseMonthYear(s: string): Option<(int, int)> {
    if |s| == 8 && s[3] == ' ' && AllDigits(s[4..]) && s[..3] in MonthAbbreviations then
      var m :| 0 <= m < 12 && MonthAbbreviations[m] == s[..3];
      Some((ValueOf(s[4..]), m + 1))
    else None
  }

  lemma FormatYearFourDigits(y: int)
    requires 0 <= y <= 9999
    ensures FormatYear(y) == ZeroFill(y, 4) && |FormatYear(y)| == 4
    ensures ValueOf(FormatYear(y)) == y
  {
    assert Pow10(4) == 10000;
    ZeroFillValue(y, 4);
  }

  /** For a year of at most four digits, 'YYYY-MM-DD' is a well-formed ISO 8601
      calendar date that reads back as the moment's year, its 0-based month
      plus one, and its day. */
  lemma {:induction false} IsoDateRoundTrip(t: Moment)
    requires IsValidMoment(t) && 0 <= t.year <= 9999
    ensures IsIsoCalendarDate(FormatIsoDate(Some(t)))
    ensures ParseIsoCalendarDate(FormatIsoDate(Some(t))) == Some((t.year, t.month0 + 1, t.day))
  {
    var y, mm, dd := FormatYear(t.year), ZeroFill(t.month0 + 1, 2), ZeroFill(t.day, 2);
    FormatYearFourDigits(t.year);
    assert Pow10(2) == 100;
    ZeroFillValue(t.month0 + 1, 2);
    ZeroFillValue(t.day, 2);
    var s := FormatIsoDate(Some(t));
    assert s == y + "-" + mm + "-" + dd;
    assert s[..4] == y && s[5..7] == mm && s[8..] == dd;
  }

  /** The last six characters of `year-MM-DD` are the dash, the month, the
      dash and the day. */
  lemma DashedTail(year: string, month: string, day: string)
    requires |month| == 2 && |day| == 2
    ensures var v := year + "-" + month + "-" + day;
      && |v| == |year| + 6 && v[|v| - 6] == '-' && v[|v| - 3] == '-'
      && v[|v| - 5..|v| - 3] == month && v[|v| - 2..] == day
  {
  }

  /** `v` ends in "-MM-DD": a dash, two digits denoting `month`, a dash and
      two digits denoting `day`. */
  predicate EndsWithMonthAndDay(v: string, month: int, day: int) {
    && 10 <= |v| && v[|v| - 6] == '-' && v[|v| - 3] == '-'
    && AllDigits(v[|v| - 5..|v| - 3]) && ValueOf(v[|v| - 5..|v| - 3]) == month
    && AllDigits(v[|v| - 2..]) && ValueOf(v[|v| - 2..]) == day
  }

  /** Whatever the year, 'YYYY-MM-DD' ends in "-MM-DD" with the 1-based
      month and the day. */
  lemma IsoDateEndsWithMonthAndDay(t: Moment)
    requires IsValidMoment(t)
    ensures EndsWithMonthAndDay(FormatIsoDate(Some(t)), t.month0 + 1, t.day)
  {
    var year, month, day := FormatYear(t.year), ZeroFill(t.month0 + 1, 2), ZeroFill(t.day, 2);
    ZeroFillValue(t.month0 + 1, 2);
    ZeroFillValue(t.day, 2);
    assert Pow10(2) == 100;
    DashedTail(year, month, day);
  }

  /** For a year of at most four digits, 'MMM YYYY' reads back as the moment's
      year and its 0-based month plus one. */
  lemma {:induction false} MonthYearRoundTrip(t: Moment)
    requires IsValidMoment(t) && 0 <= t.year <= 9999
    ensures ParseMonthYear(FormatMonthYear(Some(t))) == Some((t.year, t.month0 + 1))
  {
    FormatYearFourDigits(t.year);
    var s := FormatMonthYear(Some(t));
    assert s[..3] == MonthAbbreviations[t.month0] && s[4..] == FormatYear(t.year);
    forall m | 0 <= m < 12 && MonthAbbreviations[m] == s[..3] ensures m == t.month0 {
    }
  }
}
