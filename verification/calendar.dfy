/** Gregorian calendar dates as integer triples, shared by the client's
    week arithmetic and the server's month expansion; the `YYYY-MM-DD`
    text form both sides exchange, with the exact set of strings Python's
    `datetime.strptime(s, "%Y-%m-%d")` accepts; and instants, which is
    what "now" is on both sides. */
module Calendar {
  import opened Options
  import opened Text

  datatype Date = Date(year: int, month: int, day: int)

  /** Gregorian leap years: divisible by 4 and not by 100, or divisible by
      400. (Python's `%` floors and Dafny's is Euclidean; they agree for
      the positive divisors used here.) */
  predicate IsLeapYear(y: int) {
    (y % 4 == 0 && y % 100 != 0) || y % 400 == 0
  }

  /** The reference month lengths of the Gregorian calendar. */
  function DaysInMonth(y: int, m: int): (n: int)
    requires 1 <= m <= 12
    ensures 28 <= n <= 31
  {
    [31, if IsLeapYear(y) then 29 else 28, 31, 30, 31, 30, 31, 31, 30, 31, 30, 31][m - 1]
  }

  /** The server's month-length rule, keyed on the month as text: `"02"`
      depends on the leap year, `"04"`, `"06"`, `"09"` and `"11"` have 30
      days, and every other string, padded or not, gets 31. */
  function DaysInMonthText(year: int, month: string): (n: int)
    ensures 28 <= n <= 31
    ensures month != "02" && month != "04" && month != "06" && month != "09" && month != "11" ==> n == 31
  {
    if month == "02" then
      (if (year % 4 == 0 && year % 100 != 0) || year % 400 == 0 then 29 else 28)
    else if month in ["04", "06", "09", "11"] then 30
    else 31
  }

  /** For the two-digit month strings the rule agrees with the calendar. */
  lemma DaysInMonthTextAgrees(year: int, m: int)
    requires 1 <= m <= 12
    ensures DaysInMonthText(year, ZeroPad(m, 2)) == DaysInMonth(year, m)
  {
    ZeroPadDigits2(m);
    var s := ZeroPad(m, 2);
    assert s[0] == '0' <==> m < 10;
    assert m < 10 ==>
      ((s[1] == '2' <==> m == 2) && (s[1] == '4' <==> m == 4)
       && (s[1] == '6' <==> m == 6) && (s[1] == '9' <==> m == 9));
    assert s[0] == '1' ==> (s[1] == '1' <==> m == 11);
  }

  /** The two characters of a zero-padded number below 100. */
  lemma ZeroPadDigits2(n: nat)
    requires n < 100
    ensures ZeroPad(n, 2) == [DigitChar(n / 10), DigitChar(n % 10)]
  {
    var t := n / 10;
    assert t < 10 && t / 10 == 0 && t % 10 == t;
    assert ZeroPad(t, 1) == ZeroPad(t / 10, 0) + [DigitChar(t % 10)];
    assert ZeroPad(n, 2) == ZeroPad(t, 1) + [DigitChar(n % 10)];
  }

  predicate ValidDate(d: Date) {
    1 <= d.month <= 12 && 1 <= d.day <= DaysInMonth(d.year, d.month)
  }

  /** The range of Python's `datetime`: years 1 to 9999. */
  predicate InDatetimeRange(d: Date) {
    ValidDate(d) && 1 <= d.year <= 9999
  }

  /** Strict chronological order of dates. */
  predicate Before(a: Date, b: Date) {
    a.year < b.year
    || (a.year == b.year && a.month < b.month)
    || (a.year == b.year && a.month == b.month && a.day < b.day)
  }

  lemma BeforeTransitive(a: Date, b: Date, c: Date)
    requires Before(a, b) && Before(b, c)
    ensures Before(a, c)
  {
  }

  // ---------------------------------------------------------------------
  // Day arithmetic
  // ---------------------------------------------------------------------

  /** The following calendar day. */
  function NextDay(d: Date): (r: Date)
    requires ValidDate(d)
    ensures ValidDate(r) && Before(d, r)
  {
    if d.day < DaysInMonth(d.year, d.month) then Date(d.year, d.month, d.day + 1)
    else if d.month < 12 then Date(d.year, d.month + 1, 1)
    else Date(d.year + 1, 1, 1)
  }

  /** The preceding calendar day. */
  function PrevDay(d: Date): (r: Date)
    requires ValidDate(d)
    ensures ValidDate(r) && Before(r, d)
  {
    if d.day > 1 then Date(d.year, d.month, d.day - 1)
    else if d.month > 1 then Date(d.year, d.month - 1, DaysInMonth(d.year, d.month - 1))
    else Date(d.year - 1, 12, 31)
  }

  /** Stepping forward then back, or back then forward, returns the day. */
  lemma NextPrevInverse(d: Date)
    requires ValidDate(d)
    ensures PrevDay(NextDay(d)) == d && NextDay(PrevDay(d)) == d
  {
  }

  /** `d` plus `n` days: JavaScript's `setDate(getDate() + n)` and Python's
      `d + timedelta(days=n)`, both of which roll over months and years. */
  function AddDays(d: Date, n: nat): (r: Date)
    requires ValidDate(d)
    ensures ValidDate(r)
    ensures n > 0 ==> Before(d, r)
    decreases n
  {
    if n == 0 then d
    else
      var r := AddDays(NextDay(d), n - 1);
      assert n - 1 > 0 ==> Before(NextDay(d), r);
      r
  }

  lemma {:induction false} AddDaysStep(d: Date, n: nat)
    requires ValidDate(d)
    ensures AddDays(d, n + 1) == NextDay(AddDays(d, n))
    decreases n
  {
    if n > 0 {
      AddDaysStep(NextDay(d), n - 1);
    }
  }

  // ---------------------------------------------------------------------
  // Day numbers, as Python's date.toordinal(): 0001-01-01 is day 1
  // ---------------------------------------------------------------------

  function DaysBeforeYear(y: int): int
    requires y >= 1
  {
    var p := y - 1;
    365 * p + p / 4 - p / 100 + p / 400
  }

  /** Days in the year before the first of month `m`. */
  function DaysBeforeMonth(y: int, m: int): int
    requires 1 <= m <= 12
  {
    [0, 31, 59, 90, 120, 151, 181, 212, 243, 273, 304, 334][m - 1]
    + (if m > 2 && IsLeapYear(y) then 1 else 0)
  }

  function Ordinal(d: Date): int
    requires d.year >= 1 && 1 <= d.month <= 12
  {
    DaysBeforeYear(d.year) + DaysBeforeMonth(d.year, d.month) + d.day
  }

  lemma YearLength(y: int)
    requires y >= 1
    ensures DaysBeforeYear(y + 1) - DaysBeforeYear(y) == if IsLeapYear(y) then 366 else 365
  {
    assert y / 4 - (y - 1) / 4 == if y % 4 == 0 then 1 else 0;
    assert y / 100 - (y - 1) / 100 == if y % 100 == 0 then 1 else 0;
    assert y / 400 - (y - 1) / 400 == if y % 400 == 0 then 1 else 0;
    assert y % 400 == 0 ==> y % 100 == 0;
    assert y % 100 == 0 ==> y % 4 == 0;
  }

  /** The next day has the next day number. */
  lemma NextDayOrdinal(d: Date)
    requires ValidDate(d) && d.year >= 1
    ensures Ordinal(NextDay(d)) == Ordinal(d) + 1
  {
    if d.day == DaysInMonth(d.year, d.month) && d.month == 12 {
      YearLength(d.year);
    }
  }

  /** Adding `n` days moves the day number by exactly `n`. */
  lemma {:induction false} AddDaysOrdinal(d: Date, n: nat)
    requires ValidDate(d) && d.year >= 1
    ensures AddDays(d, n).year >= 1
    ensures Ordinal(AddDays(d, n)) == Ordinal(d) + n
    decreases n
  {
    if n > 0 {
      NextDayOrdinal(d);
      AddDaysOrdinal(NextDay(d), n - 1);
    }
  }

  // ---------------------------------------------------------------------
  // Instants and "now"
  // ---------------------------------------------------------------------

  /** A point in time: a date and the second of that day. */
  datatype Instant = Instant(date: Date, second: int)

  /** A reading of the clock, from year 1000 on. Before that year
      `strftime("%Y")` writes the year unpadded on some platforms (glibc)
      and padded on others, and the route's defaults depend on it. */
  predicate ValidInstant(t: Instant) {
    ValidDate(t.date) && 1000 <= t.date.year && 0 <= t.second < 86400
  }

  predicate InstantBefore(a: Instant, b: Instant) {
    Before(a.date, b.date) || (a.date == b.date && a.second < b.second)
  }

  /** Whether midnight at the start of `d` lies strictly after `now`, which
      is what both `datetime(y, m, d) > datetime.now()` and the browser's
      `date > new Date()` ask. It holds exactly when `d` is a later
      calendar day than today: today itself is never in the future. */
  predicate StartsAfter(d: Date, now: Instant)
    requires ValidInstant(now)
    ensures StartsAfter(d, now) <==> Before(now.date, d)
  {
    InstantBefore(now, Instant(d, 0))
  }

  // ---------------------------------------------------------------------
  // Text forms
  // ---------------------------------------------------------------------

  /** `YYYY-MM-DD`, the year in four digits: Python's
      `strftime("%Y-%m-%d")` for years from 1000 on, and the date part of
      JavaScript's `toISOString()`. */
  function FormatIsoDate(d: Date): (s: string)
    requires InDatetimeRange(d)
    ensures |s| == 10 && s[4] == '-' && s[7] == '-'
  {
    ZeroPad(d.year, 4) + "-" + ZeroPad(d.month, 2) + "-" + ZeroPad(d.day, 2)
  }

  /** The text form of a date as its year field followed by the rest. */
  lemma FormatIsoDateFields(d: Date)
    requires InDatetimeRange(d)
    ensures FormatIsoDate(d) == ZeroPad(d.year, 4) + ("-" + (ZeroPad(d.month, 2) + ("-" + ZeroPad(d.day, 2))))
  {
  }

  /** `YYYY-MM`: Python's `strftime("%Y-%m")` for years from 1000 on. */
  function FormatMonthKey(year: int, month: int): (s: string)
    requires 1 <= year <= 9999 && 1 <= month <= 12
    ensures |s| == 7 && s[4] == '-'
  {
    ZeroPad(year, 4) + "-" + ZeroPad(month, 2)
  }

  /** The `%m` field, `1[0-2]|0[1-9]|[1-9]`, which the format requires to be
      followed by `-`. Gives the month and the index after the dash. */
  function MatchMonthField(s: string, i: nat): Option<(int, nat)> {
    if i + 2 < |s| && s[i] == '1' && '0' <= s[i + 1] <= '2' && s[i + 2] == '-' then
      Some((10 + DigitValue(s[i + 1]), i + 3))
    else if i + 2 < |s| && s[i] == '0' && '1' <= s[i + 1] <= '9' && s[i + 2] == '-' then
      Some((DigitValue(s[i + 1]), i + 3))
    else if i + 1 < |s| && '1' <= s[i] <= '9' && s[i + 1] == '-' then
      Some((DigitValue(s[i]), i + 2))
    else None
  }

  /** The `%d` field, `3[01]|[12]\d|0[1-9]|[1-9]| [1-9]`: the first
      alternative that matches is taken. Gives the day and the index after
      it. */
  function MatchDayField(s: string, j: nat): Option<(int, nat)> {
    if j + 1 < |s| && s[j] == '3' && (s[j + 1] == '0' || s[j + 1] == '1') then
      Some((30 + DigitValue(s[j + 1]), j + 2))
    else if j + 1 < |s| && (s[j] == '1' || s[j] == '2') && IsDigit(s[j + 1]) then
      Some((10 * DigitValue(s[j]) + DigitValue(s[j + 1]), j + 2))
    else if j + 1 < |s| && s[j] == '0' && '1' <= s[j + 1] <= '9' then
      Some((DigitValue(s[j + 1]), j + 2))
    else if j < |s| && '1' <= s[j] <= '9' then
      Some((DigitValue(s[j]), j + 1))
    else if j + 1 < |s| && s[j] == ' ' && '1' <= s[j + 1] <= '9' then
      Some((DigitValue(s[j + 1]), j + 2))
    else None
  }

  /** `datetime.strptime(s, "%Y-%m-%d")`: four digits, `-`, the month
      field, the day field, nothing left over, and a date that exists in
      the `datetime` range. `None` stands for the `ValueError`. */
  function ParseIsoDate(s: string): (r: Option<Date>)
    ensures r.Some? ==> InDatetimeRange(r.value)
    ensures r.Some? ==>
      && 8 <= |s| <= 10 && AllDigits(s[..4]) && s[4] == '-'
      && r.value.year == NumberOf(s[..4])
      && '-' !in s[8..]
  {
    if |s| < 5 || !AllDigits(s[..4]) || s[4] != '-' then None
    else
      match MatchMonthField(s, 5)
      case None => None
      case Some((month, j)) =>
        match MatchDayField(s, j)
        case None => None
        case Some((day, k)) =>
          NumberOfBound(s[..4]);
          var d := Date(NumberOf(s[..4]), month, day);
          if k == |s| && 1 <= d.year && 1 <= month <= 12 && day <= DaysInMonth(d.year, month)
          then Some(d) else None
  }

  /** Every date in the `datetime` range survives formatting and parsing. */
  lemma ParseFormatIsoDate(d: Date)
    requires InDatetimeRange(d)
    ensures ParseIsoDate(FormatIsoDate(d)) == Some(d)
  {
    var y, m, dd := ZeroPad(d.year, 4), ZeroPad(d.month, 2), ZeroPad(d.day, 2);
    var s := FormatIsoDate(d);
    assert s == y + "-" + m + "-" + dd;
    assert s[..4] == y;
    ZeroPadValue(d.year, 4);
    ZeroPadDigits2(d.month);
    ZeroPadDigits2(d.day);
    assert s[5] == m[0] && s[6] == m[1] && s[7] == '-';
    assert s[8] == dd[0] && s[9] == dd[1];
    MonthFieldOfTwoDigits(s, d.month);
    DayFieldOfTwoDigits(s, d.day);
  }

  lemma MonthFieldOfTwoDigits(s: string, month: int)
    requires 1 <= month <= 12 && |s| > 7 && s[7] == '-'
    requires s[5] == DigitChar(month / 10) && s[6] == DigitChar(month % 10)
    ensures MatchMonthField(s, 5) == Some((month, 8))
  {
    if month < 10 {
      assert s[5] == '0';
    } else {
      assert s[5] == '1' && DigitValue(s[6]) == month - 10;
    }
  }

  lemma DayFieldOfTwoDigits(s: string, day: int)
    requires 1 <= day <= 31 && |s| == 10
    requires s[8] == DigitChar(day / 10) && s[9] == DigitChar(day % 10)
    ensures MatchDayField(s, 8) == Some((day, 10))
  {
    if day < 10 {
      assert s[8] == '0';
    } else if day < 30 {
      assert s[8] == '1' || s[8] == '2';
      assert DigitValue(s[8]) == day / 10 && DigitValue(s[9]) == day % 10;
    } else {
      assert s[8] == '3';
    }
  }

  /** The year field `2025` of the example dates below reads as 2025. */
  lemma Year2025()
    ensures AllDigits("2025") && NumberOf("2025") == 2025
  {
    assert "2025"[..3] == "202" && "202"[..2] == "20" && "20"[..1] == "2" && "2"[..0] == "";
  }

  /** Python's parser also takes unpadded fields: `2025-1-5` is a date. */
  lemma ParseIsoDateUnpadded()
    ensures ParseIsoDate("2025-1-5") == Some(Date(2025, 1, 5))
  {
    var s := "2025-1-5";
    assert s[..4] == "2025";
    Year2025();
    assert MatchMonthField(s, 5) == Some((1, 7));
    assert MatchDayField(s, 7) == Some((5, 8));
  }

  /** A day past the end of its month is rejected. */
  lemma ParseIsoDateRejectsFeb30()
    ensures ParseIsoDate("2025-02-30") == None
  {
    var s := "2025-02-30";
    assert s[..4] == "2025";
    Year2025();
    assert MatchMonthField(s, 5) == Some((2, 8));
    assert MatchDayField(s, 8) == Some((30, 10));
  }
}
