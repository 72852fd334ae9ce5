/** The server's `/incidentes` route up to the point where it either
    answers, hands over to the prediction generator or runs a database
    query: reading the query string, checking `delegacion_id`, defaulting
    and validating `fecha` for each `periodo`, and comparing the start of
    the requested day or month with "now". */
module IncidentsRoute {
  import opened Options
  import opened Text
  import opened Calendar

  // ---------------------------------------------------------------------
  // Query-string arguments
  // ---------------------------------------------------------------------

  /** The three arguments the route reads; `None` when absent. */
  datatype Args = Args(delegacionId: Option<string>, fecha: Option<string>, periodo: Option<string>)

  /** The `key=value` pairs of a query string: pieces between `&`, empty
      pieces skipped, each split at its first `=` (a piece without one is
      a key with an empty value). */
  function Pairs(pieces: seq<string>): (r: seq<(string, string)>)
    ensures |r| <= |pieces|
    ensures (forall i :: 0 <= i < |pieces| ==> pieces[i] != "") ==> |r| == |pieces|
    ensures forall i :: 0 <= i < |r| ==> '=' !in r[i].0
    ensures (forall i :: 0 <= i < |pieces| ==> '&' !in pieces[i]) ==>
      forall i :: 0 <= i < |r| ==> '&' !in r[i].0 && '&' !in r[i].1
  {
    if |pieces| == 0 then []
    else if pieces[0] == "" then Pairs(pieces[1..])
    else [Partition(pieces[0], '=')] + Pairs(pieces[1..])
  }

  /** The first value given for `key`, as `request.args.get` returns it. */
  function Lookup(pairs: seq<(string, string)>, key: string): (r: Option<string>)
    ensures r.Some? <==> exists i :: 0 <= i < |pairs| && pairs[i].0 == key
    ensures r.Some? ==> exists i :: 0 <= i < |pairs| && pairs[i] == (key, r.value)
    ensures r.Some? ==>
      exists i :: 0 <= i < |pairs| && pairs[i] == (key, r.value) && (forall j :: 0 <= j < i ==> pairs[j].0 != key)
  {
    if |pairs| == 0 then None
    else if pairs[0].0 == key then Some(pairs[0].1)
    else
      var r := Lookup(pairs[1..], key);
      assert forall i :: 0 <= i < |pairs| - 1 ==> pairs[1..][i] == pairs[i + 1];
      r
  }

  /** The route's arguments read from the text after `?`. */
  function ArgsOf(query: string): (r: Args)
    ensures query == "" ==> r == Args(None, None, None)
    ensures r.delegacionId.Some? ==> '&' !in r.delegacionId.value
    ensures r.fecha.Some? ==> '&' !in r.fecha.value
    ensures r.periodo.Some? ==> '&' !in r.periodo.value
  {
    var pairs := Pairs(Split(query, '&'));
    Args(Lookup(pairs, "delegacion_id"), Lookup(pairs, "fecha"), Lookup(pairs, "periodo"))
  }

  /** The query text `delegacion_id=…&fecha=…&periodo=…`. */
  function QueryText(id: string, fecha: string, periodo: string): string {
    "delegacion_id=" + id + "&fecha=" + fecha + "&periodo=" + periodo
  }

  /** A query of the three arguments in order, with values free of `&`,
      reads back as those values. */
  lemma ArgsOfThree(id: string, fecha: string, periodo: string)
    requires '&' !in id && '&' !in fecha && '&' !in periodo
    ensures ArgsOf(QueryText(id, fecha, periodo)) == Args(Some(id), Some(fecha), Some(periodo))
  {
    var pairs := [("delegacion_id", id), ("fecha", fecha), ("periodo", periodo)];
    QueryPairs(id, fecha, periodo);
    assert "fecha" != "delegacion_id" && "periodo" != "delegacion_id" && "periodo" != "fecha";
    LookupThree(pairs);
  }

  lemma QueryPairs(id: string, fecha: string, periodo: string)
    requires '&' !in id && '&' !in fecha && '&' !in periodo
    ensures Pairs(Split("delegacion_id=" + id + "&fecha=" + fecha + "&periodo=" + periodo, '&'))
         == [("delegacion_id", id), ("fecha", fecha), ("periodo", periodo)]
  {
    var a, b, c := "delegacion_id" + "=" + id, "fecha" + "=" + fecha, "periodo" + "=" + periodo;
    assert "delegacion_id=" + id + "&fecha=" + fecha + "&periodo=" + periodo == a + ['&'] + b + ['&'] + c;
    KeyValuePiece("delegacion_id", id);
    KeyValuePiece("fecha", fecha);
    KeyValuePiece("periodo", periodo);
    SplitThree(a, b, c, '&');
    PairsThree(a, b, c);
  }

  /** A `key=value` piece of a query with no `&` in it. */
  lemma KeyValuePiece(key: string, value: string)
    requires '&' !in key && '=' !in key && key != "" && '&' !in value
    ensures var piece := key + "=" + value;
      '&' !in piece && piece != "" && Partition(piece, '=') == (key, value)
  {
    NoSepAfterKey(key, value, '&');
    PairOf(key, value);
  }

  lemma PairsThree(a: string, b: string, c: string)
    requires a != "" && b != "" && c != ""
    ensures Pairs([a, b, c]) == [Partition(a, '='), Partition(b, '='), Partition(c, '=')]
  {
    assert Pairs([c]) == [Partition(c, '=')] + Pairs([]);
    assert [b, c][1..] == [c];
    assert Pairs([b, c]) == [Partition(b, '=')] + Pairs([c]);
    assert [a, b, c][1..] == [b, c];
    assert Pairs([a, b, c]) == [Partition(a, '=')] + Pairs([b, c]);
  }

  lemma LookupThree(pairs: seq<(string, string)>)
    requires |pairs| == 3
    requires pairs[0].0 != pairs[1].0 && pairs[0].0 != pairs[2].0 && pairs[1].0 != pairs[2].0
    ensures Lookup(pairs, pairs[0].0) == Some(pairs[0].1)
    ensures Lookup(pairs, pairs[1].0) == Some(pairs[1].1)
    ensures Lookup(pairs, pairs[2].0) == Some(pairs[2].1)
  {
    assert pairs[1..][1..] == [pairs[2]];
  }

  lemma NoSepAfterKey(key: string, value: string, sep: char)
    requires sep !in key && sep != '=' && sep !in value
    ensures sep !in key + "=" + value
  {
    assert forall i :: 0 <= i < |key + "=" + value| ==>
      (key + "=" + value)[i] == if i < |key| then key[i] else if i == |key| then '=' else value[i - |key| - 1];
  }

  lemma SplitThree(a: string, b: string, c: string, sep: char)
    requires sep !in a && sep !in b && sep !in c
    ensures Split(a + [sep] + b + [sep] + c, sep) == [a, b, c]
  {
    var bc := b + [sep] + c;
    assert a + [sep] + b + [sep] + c == a + [sep] + bc;
    SplitNone(c, sep);
    SplitFront(b, c, sep);
    assert Split(bc, sep) == [b, c];
    SplitFront(a, bc, sep);
  }

  /** A `key=value` piece whose key has no `=` pairs the key with the rest. */
  lemma PairOf(key: string, value: string)
    requires '=' !in key && key != ""
    ensures key + "=" + value != ""
    ensures Partition(key + "=" + value, '=') == (key, value)
  {
    PartitionFirst(key, value, '=');
  }

  // ---------------------------------------------------------------------
  // The `YYYY-MM` parameter
  // ---------------------------------------------------------------------

  /** The range of a C `int`, which `datetime(year, month, 1)` demands of
      its arguments before it checks the calendar ranges. */
  const IntMin := -2147483648
  const IntMax := 2147483647

  /** The outcome of `year, month = map(int, fecha.split('-'))` followed by
      `datetime(year, month, 1)`: a `ValueError` (caught), an
      `OverflowError` (not caught), or the year and month. */
  datatype MonthParse = BadMonth | MonthOverflow | MonthOk(year: int, month: int)

  function ParseMonthParam(fecha: string): (r: MonthParse)
    ensures r.MonthOk? ==> 1 <= r.year <= 9999 && 1 <= r.month <= 12
    ensures r.MonthOk? ==> |Split(fecha, '-')| == 2
    ensures r.MonthOverflow? ==> |Split(fecha, '-')| == 2
  {
    var parts := Split(fecha, '-');
    if |parts| != 2 then BadMonth
    else
      MonthOfNumbers(PyInt(parts[0]), PyInt(parts[1]))
  }

  /** What `datetime(year, month, 1)` makes of the two `int()` results. */
  function MonthOfNumbers(year: Option<int>, month: Option<int>): (r: MonthParse)
    ensures r.MonthOk? <==> year.Some? && month.Some? && 1 <= year.value <= 9999 && 1 <= month.value <= 12
    ensures r.MonthOk? ==> r == MonthOk(year.value, month.value)
  {
    match (year, month)
    case (Some(y), Some(m)) =>
      if !(IntMin <= y <= IntMax && IntMin <= m <= IntMax) then MonthOverflow
      else if 1 <= y <= 9999 && 1 <= m <= 12 then MonthOk(y, m)
      else BadMonth
    case _ => BadMonth
  }

  /** A year and month written `YYYY-MM` parse back as themselves. */
  lemma ParseMonthKey(year: int, month: int)
    requires 1 <= year <= 9999 && 1 <= month <= 12
    ensures ParseMonthParam(FormatMonthKey(year, month)) == MonthOk(year, month)
  {
    var y, m := ZeroPad(year, 4), ZeroPad(month, 2);
    assert FormatMonthKey(year, month) == y + ['-'] + m;
    assert Pow10(4) == 10000 && Pow10(2) == 100;
    ZeroPadValue(year, 4);
    ZeroPadValue(month, 2);
    ParseMonthDigits(y, m);
  }

  /** Two numerals joined by `-` whose values are a valid year and month
      parse as that year and month. */
  lemma ParseMonthDigits(y: string, m: string)
    requires AllDigits(y) && AllDigits(m) && 0 < |y| <= MaxStrDigits && 0 < |m| <= MaxStrDigits
    requires 1 <= NumberOf(y) <= 9999 && 1 <= NumberOf(m) <= 12
    ensures ParseMonthParam(y + ['-'] + m) == MonthOk(NumberOf(y), NumberOf(m))
  {
    NotInDigits(y, '-');
    NotInDigits(m, '-');
    SplitTwo(y, m, '-');
    PyIntOfDigits(y);
    PyIntOfDigits(m);
    assert ParseMonthParam(y + ['-'] + m) == MonthOfNumbers(PyInt(y), PyInt(m));
  }

  lemma SplitTwo(a: string, b: string, sep: char)
    requires sep !in a && sep !in b
    ensures Split(a + [sep] + b, sep) == [a, b]
  {
    SplitFront(a, b, sep);
    SplitNone(b, sep);
  }

  /** Two numerals whose month does not fit a C `int` crash the route
      instead of being rejected. */
  lemma ParseMonthOverflow(y: string, m: string)
    requires AllDigits(y) && AllDigits(m) && 0 < |y| <= MaxStrDigits && 0 < |m| <= MaxStrDigits
    requires NumberOf(m) > IntMax
    ensures ParseMonthParam(y + "-" + m) == MonthOverflow
  {
    NotInDigits(y, '-');
    NotInDigits(m, '-');
    SplitTwo(y, m, '-');
    PyIntOfDigits(y);
    PyIntOfDigits(m);
    assert ParseMonthParam(y + ['-'] + m) == MonthOfNumbers(PyInt(y), PyInt(m));
  }

  /** A month numeral led by an information separator (U+001C to U+001F)
      makes the month text a format error (400): `str.strip()` would drop
      the separator, but `int()` does not. */
  lemma ParseMonthSeparatorRefused(y: string, m: string, c: char)
    requires AllDigits(y) && AllDigits(m) && |y| > 0 && 28 <= c as int <= 31
    ensures ParseMonthParam(y + "-" + [c] + m) == BadMonth
  {
    NotInDigits(y, '-');
    NotInDigits(m, '-');
    assert '-' !in [c] + m;
    assert y + "-" + [c] + m == y + ['-'] + ([c] + m);
    SplitTwo(y, [c] + m, '-');
    assert PyInt([c] + m) == None;
    assert MonthOfNumbers(PyInt(y), PyInt([c] + m)) == BadMonth;
  }

  /** A numeral longer than `int()` converts, leading zeros included,
      makes the month text a format error (400), whatever its value. */
  lemma ParseMonthTooManyDigits(y: string, m: string)
    requires AllDigits(y) && AllDigits(m) && |y| > 0 && |m| > 0
    requires |y| > MaxStrDigits || |m| > MaxStrDigits
    ensures ParseMonthParam(y + "-" + m) == BadMonth
  {
    NotInDigits(y, '-');
    NotInDigits(m, '-');
    SplitTwo(y, m, '-');
    if |y| > MaxStrDigits {
      PyIntTooLong(y);
    } else {
      PyIntTooLong(m);
    }
    assert MonthOfNumbers(PyInt(y), PyInt(m)) == BadMonth;
    assert ParseMonthParam(y + ['-'] + m) == MonthOfNumbers(PyInt(y), PyInt(m));
  }

  // ---------------------------------------------------------------------
  // Routing
  // ---------------------------------------------------------------------

  const MissingDistrict := "Falta el parámetro 'delegacion_id'"
  const BadMonthFormat := "Formato de fecha inválido para periodo 'month'. Usa 'YYYY-MM'"
  const BadDateFormat := "Formato de fecha inválido. Usa 'YYYY-MM-DD'"
  const BadPeriod := "Periodo inválido. Usa 'day', 'week' o 'month'"

  /** The historical query the route runs: the month's rows, the seven
      days from a date, or one date's rows. */
  datatype HistoryQuery =
    | MonthRows(monthDistrict: string, year: int, month: int)
    | WeekRows(weekDistrict: string, weekStart: string)
    | DayRows(dayDistrict: string, day: string)

  /** Where a request goes: answered with 400, crashed into the global
      500 handler, handed to the prediction generator, run as a
      historical query, or past the database connection to the 400 for
      an unknown period. */
  datatype Route =
    | Rejected(message: string)
    | Crashed
    | ToPrediction(district: string, fecha: string, periodo: string)
    | ToHistory(query: HistoryQuery)
    | UnknownPeriod

  /** `not fecha or fecha.strip() == ""`. */
  predicate Blank(fecha: Option<string>) {
    fecha.None? || Strip(fecha.value) == ""
  }

  predicate KnownPeriod(p: string) {
    p == "day" || p == "week" || p == "month"
  }

  /** The `fecha` a month request uses: the current `YYYY-MM` when blank. */
  function MonthFecha(args: Args, now: Instant): string
    requires InDatetimeRange(now.date)
  {
    if Blank(args.fecha) then FormatMonthKey(now.date.year, now.date.month) else args.fecha.value
  }

  /** The `fecha` a day or week request uses: today when blank. */
  function DayFecha(args: Args, now: Instant): string
    requires InDatetimeRange(now.date)
  {
    if Blank(args.fecha) then FormatIsoDate(now.date) else args.fecha.value
  }

  /** The route for a request received at `now`. A missing or empty
      `delegacion_id` is rejected first; `periodo` defaults to `day`. For
      `month` a blank `fecha` becomes the current `YYYY-MM`, and a month
      whose first day starts after now goes to the predictor. For `day`
      and `week` a blank `fecha` becomes today, and a date after today
      goes to the predictor. Any other period reaches the database. */
  function RouteIncidents(args: Args, now: Instant): (r: Route)
    requires ValidInstant(now) && InDatetimeRange(now.date)
    ensures r == Rejected(MissingDistrict) <==> args.delegacionId.None? || args.delegacionId.value == ""
    ensures r.UnknownPeriod? <==>
      args.delegacionId.Some? && args.delegacionId.value != "" && !KnownPeriod(args.periodo.GetOr("day"))
    ensures r.ToPrediction? ==>
      && r.district == args.delegacionId.value
      && r.periodo == args.periodo.GetOr("day")
    ensures r.ToPrediction? && r.periodo == "month" ==>
      var p := ParseMonthParam(r.fecha);
      p.MonthOk? && StartsAfter(Date(p.year, p.month, 1), now)
    ensures r.ToPrediction? && r.periodo != "month" ==>
      (r.periodo == "day" || r.periodo == "week")
      && ParseIsoDate(r.fecha).Some? && Before(now.date, ParseIsoDate(r.fecha).value)
    ensures r.Crashed? ==> args.periodo.GetOr("day") == "month"
    ensures args.delegacionId.Some? && args.delegacionId.value != "" && args.periodo.GetOr("day") == "month" ==>
      && (r == Rejected(BadMonthFormat) <==> ParseMonthParam(MonthFecha(args, now)).BadMonth?)
      && (r.Crashed? <==> ParseMonthParam(MonthFecha(args, now)).MonthOverflow?)
    ensures args.delegacionId.Some? && args.delegacionId.value != "" &&
            (args.periodo.GetOr("day") == "day" || args.periodo.GetOr("day") == "week") ==>
      (r == Rejected(BadDateFormat) <==> ParseIsoDate(DayFecha(args, now)).None?)
  {
    if args.delegacionId.None? || args.delegacionId.value == "" then Rejected(MissingDistrict)
    else
      var id := args.delegacionId.value;
      var periodo := args.periodo.GetOr("day");
      if periodo == "month" then
        var fecha := MonthFecha(args, now);
        match ParseMonthParam(fecha)
        case BadMonth => Rejected(BadMonthFormat)
        case MonthOverflow => Crashed
        case MonthOk(y, m) =>
          if StartsAfter(Date(y, m, 1), now) then ToPrediction(id, fecha, periodo)
          else ToHistory(MonthRows(id, y, m))
      else if periodo == "day" || periodo == "week" then
        var fecha := DayFecha(args, now);
        match ParseIsoDate(fecha)
        case None => Rejected(BadDateFormat)
        case Some(d) =>
          if StartsAfter(d, now) then ToPrediction(id, fecha, periodo)
          else if periodo == "week" then ToHistory(WeekRows(id, fecha))
          else ToHistory(DayRows(id, fecha))
      else UnknownPeriod
  }

  /** Without a `fecha` the route never predicts: the current day and the
      current month are not in the future, so a known period with a
      district reads history. */
  lemma BlankDateReadsHistory(args: Args, now: Instant)
    requires ValidInstant(now) && InDatetimeRange(now.date)
    requires args.delegacionId.Some? && args.delegacionId.value != ""
    requires KnownPeriod(args.periodo.GetOr("day")) && Blank(args.fecha)
    ensures RouteIncidents(args, now).ToHistory?
  {
    if args.periodo.GetOr("day") == "month" {
      ParseMonthKey(now.date.year, now.date.month);
      assert !StartsAfter(Date(now.date.year, now.date.month, 1), now);
    } else {
      ParseFormatIsoDate(now.date);
      assert !StartsAfter(now.date, now);
    }
  }

  /** A day or week request whose date parses is predicted exactly when
      that date is after today, and otherwise reads that date's history. */
  lemma DateRoute(id: string, fecha: string, periodo: string, now: Instant)
    requires ValidInstant(now) && InDatetimeRange(now.date) && ParseIsoDate(fecha).Some?
    requires id != "" && (periodo == "day" || periodo == "week")
    ensures var d := ParseIsoDate(fecha).value;
      var r := RouteIncidents(Args(Some(id), Some(fecha), Some(periodo)), now);
      && (r.ToPrediction? <==> Before(now.date, d))
      && (r.ToHistory? <==> !Before(now.date, d))
      && (r.ToPrediction? ==> r == ToPrediction(id, fecha, periodo))
      && (r.ToHistory? ==> r.query == if periodo == "week" then WeekRows(id, fecha) else DayRows(id, fecha))
  {
    assert IsDigit(fecha[0]);
    StripLeftKeeps(fecha);
    assert !Blank(Some(fecha));
  }

  /** A well-formed month request is predicted exactly when its first day
      is after today, and otherwise reads that month's history. */
  lemma MonthRoute(id: string, year: int, month: int, now: Instant)
    requires ValidInstant(now) && InDatetimeRange(now.date)
    requires id != "" && 1 <= year <= 9999 && 1 <= month <= 12
    ensures var r := RouteIncidents(Args(Some(id), Some(FormatMonthKey(year, month)), Some("month")), now);
      && (r.ToPrediction? <==> Before(now.date, Date(year, month, 1)))
      && (r.ToHistory? <==> !Before(now.date, Date(year, month, 1)))
      && (r.ToHistory? ==> r.query == MonthRows(id, year, month))
      && (r.ToPrediction? ==> r == ToPrediction(id, FormatMonthKey(year, month), "month"))
  {
    var s := FormatMonthKey(year, month);
    var args := Args(Some(id), Some(s), Some("month"));
    MonthKeyNotBlank(year, month);
    assert MonthFecha(args, now) == s;
    ParseMonthKey(year, month);
    MonthOkRoute(args, now, year, month);
  }

  lemma MonthKeyNotBlank(year: int, month: int)
    requires 1 <= year <= 9999 && 1 <= month <= 12
    ensures !Blank(Some(FormatMonthKey(year, month)))
  {
    var s := FormatMonthKey(year, month);
    ZeroPadDigits4First(year);
    assert s[0] == ZeroPad(year, 4)[0];
    StripLeftKeeps(s);
  }

  /** A month request whose `fecha` parses goes by whether the month
      starts after today. */
  lemma MonthOkRoute(args: Args, now: Instant, year: int, month: int)
    requires ValidInstant(now) && InDatetimeRange(now.date)
    requires args.delegacionId.Some? && args.delegacionId.value != "" && args.periodo == Some("month")
    requires ParseMonthParam(MonthFecha(args, now)) == MonthOk(year, month)
    ensures RouteIncidents(args, now)
         == if StartsAfter(Date(year, month, 1), now) then ToPrediction(args.delegacionId.value, MonthFecha(args, now), "month")
            else ToHistory(MonthRows(args.delegacionId.value, year, month))
  {
  }

  /** A string that does not start with whitespace is not blank. */
  lemma StripLeftKeeps(s: string)
    requires |s| > 0 && !IsPySpace(s[0])
    ensures Strip(s) != ""
  {
    TrimKeepsFirst(s, IsPySpace);
  }

  lemma ZeroPadDigits4First(n: nat)
    requires n <= 9999
    ensures |ZeroPad(n, 4)| == 4 && IsDigit(ZeroPad(n, 4)[0])
  {
  }
}
