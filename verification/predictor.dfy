/** `generar_prediccion_incidentes`: the days a prediction covers, the
    incidents drawn for them, the sort, and the failures on the way — as
    the code is written, where the month branch is never reached, and as
    corrected, where the month is expanded from its year and month. */
module Predictor {
  import opened Options
  import opened Text
  import opened Calendar
  import opened Records
  import opened PredictedIncidents
  import opened KeySort
  import opened IncidentsRoute

  // ---------------------------------------------------------------------
  // The days of a week and of a month
  // ---------------------------------------------------------------------

  lemma {:induction false} AddDaysYearMonotone(d: Date, i: nat, j: nat)
    requires ValidDate(d) && i <= j
    ensures AddDays(d, i).year <= AddDays(d, j).year
    decreases j - i
  {
    if i < j {
      AddDaysYearMonotone(d, i, j - 1);
      AddDaysStep(d, j - 1);
    }
  }

  /** The seven days from `d` all lie in the `datetime` range; past
      9999-12-31 Python's date arithmetic raises `OverflowError`. */
  predicate WeekInRange(d: Date) {
    InDatetimeRange(d) && AddDays(d, 6).year <= 9999
  }

  lemma WeekDaysInRange(d: Date)
    requires WeekInRange(d)
    ensures forall i :: 0 <= i < 7 ==> InDatetimeRange(AddDays(d, i))
  {
    forall i | 0 <= i < 7
      ensures InDatetimeRange(AddDays(d, i))
    {
      AddDaysYearMonotone(d, i, 6);
    }
  }

  /** `fecha_base_obj + timedelta(days=i)` for `i` in `range(7)`. */
  function WeekDates(d: Date): (r: seq<Date>)
    requires WeekInRange(d)
    ensures |r| == 7 && r[0] == d && AllInRange(r)
  {
    WeekDaysInRange(d);
    seq(7, i requires 0 <= i < 7 => AddDays(d, i))
  }

  /** The week is seven consecutive days: day numbers `d`, `d + 1`, …,
      `d + 6`, each the day after the one before. */
  lemma WeekDatesConsecutive(d: Date)
    requires WeekInRange(d)
    ensures forall i :: 0 <= i < 7 ==> Ordinal(WeekDates(d)[i]) == Ordinal(d) + i
    ensures forall i :: 0 <= i < 6 ==> WeekDates(d)[i + 1] == NextDay(WeekDates(d)[i])
    ensures forall i, j :: 0 <= i < j < 7 ==> WeekDates(d)[i] != WeekDates(d)[j]
  {
    WeekOrdinals(d);
    forall i | 0 <= i < 6
      ensures WeekDates(d)[i + 1] == NextDay(WeekDates(d)[i])
    {
      AddDaysStep(d, i);
    }
  }

  lemma WeekOrdinals(d: Date)
    requires WeekInRange(d)
    ensures forall i :: 0 <= i < 7 ==> Ordinal(WeekDates(d)[i]) == Ordinal(d) + i
  {
    forall i | 0 <= i < 7
      ensures Ordinal(WeekDates(d)[i]) == Ordinal(d) + i
    {
      AddDaysOrdinal(d, i);
    }
  }

  /** The days of a month, first to last. */
  function MonthDates(year: int, month: int): (r: seq<Date>)
    requires 1 <= year <= 9999 && 1 <= month <= 12
    ensures |r| == DaysInMonth(year, month) && AllInRange(r)
  {
    var n := DaysInMonth(year, month);
    seq(n, i requires 0 <= i < n => Date(year, month, i + 1))
  }

  /** The month's list holds every day of that month and nothing else,
      in order. */
  lemma MonthDatesAreTheMonth(year: int, month: int)
    requires 1 <= year <= 9999 && 1 <= month <= 12
    ensures forall d :: d in MonthDates(year, month) <==>
      InDatetimeRange(d) && d.year == year && d.month == month
    ensures forall i, j :: 0 <= i < j < |MonthDates(year, month)| ==>
      Before(MonthDates(year, month)[i], MonthDates(year, month)[j])
  {
    var r := MonthDates(year, month);
    forall d | InDatetimeRange(d) && d.year == year && d.month == month
      ensures d in r
    {
      assert r[d.day - 1] == d;
    }
  }

  /** Lines 478-492 once `fecha` is split at `-` into a year and a month
      string: the month length is chosen by comparing the month string
      with `"02"`, `"04"`, `"06"`, `"09"` and `"11"`, then
      `datetime(int(year), int(month), day)` is built for each day, which
      raises (`None`) when the length overshoots the real month. */
  function MonthDatesAsWritten(year: int, month: int, monthText: string): (r: Option<seq<Date>>)
    requires 1 <= year <= 9999 && 1 <= month <= 12
    ensures r.Some? <==> DaysInMonthText(year, monthText) <= DaysInMonth(year, month)
    ensures r.Some? ==> AllInRange(r.value) && |r.value| == DaysInMonthText(year, monthText)
  {
    var n := DaysInMonthText(year, monthText);
    if n <= DaysInMonth(year, month) then
      var days := seq(n, i requires 0 <= i < n => Date(year, month, i + 1));
      assert AllInRange(days);
      Some(days)
    else None
  }

  /** With the month written in two digits, as `YYYY-MM` is, the text rule
      gives exactly the days of the month. */
  lemma MonthDatesAsWrittenPadded(year: int, month: int)
    requires 1 <= year <= 9999 && 1 <= month <= 12
    ensures MonthDatesAsWritten(year, month, ZeroPad(month, 2)) == Some(MonthDates(year, month))
  {
    DaysInMonthTextAgrees(year, month);
  }

  /** An unpadded February is given 31 days by the text rule, so
      `datetime(2025, 2, 29)` raises. */
  lemma UnpaddedFebruaryFails()
    ensures MonthDatesAsWritten(2025, 2, "2") == None
  {
    UnpaddedMonthText();
    assert 2025 % 4 == 1 && !IsLeapYear(2025);
    assert DaysInMonth(2025, 2) == 28;
  }

  lemma UnpaddedMonthText()
    ensures DaysInMonthText(2025, "2") == 31
  {
    assert "2" != "02" && "2" != "04" && "2" != "06" && "2" != "09" && "2" != "11";
  }

  /** The route accepts `2025-2` as February 2025. */
  lemma UnpaddedFebruaryParses()
    ensures ParseMonthParam("2025-2") == MonthOk(2025, 2)
  {
    assert "2025-2" == "2025" + ['-'] + "2";
    Year2025();
    assert NumberOf("2") == 2 by { assert "2"[..0] == ""; }
    ParseMonthDigits("2025", "2");
  }

  // ---------------------------------------------------------------------
  // Generating and sorting
  // ---------------------------------------------------------------------

  /** The random draws, day by day: at least `days` days, each with
      between `lo` and `hi` draws. */
  predicate DrawsPerDay(plan: seq<seq<Draw>>, days: nat, lo: nat, hi: nat) {
    |plan| >= days && forall i :: 0 <= i < days ==> lo <= |plan[i]| <= hi
  }

  /** `random.randint(3, 8)` incidents for a day, `randint(2, 6)` for each
      day of a week and `randint(1, 5)` for each day of a month. */
  predicate PlanFits(periodo: string, plan: seq<seq<Draw>>) {
    && (periodo == "day" ==> DrawsPerDay(plan, 1, 3, 8))
    && (periodo == "week" ==> DrawsPerDay(plan, 7, 2, 6))
    && (periodo == "month" ==> DrawsPerDay(plan, 31, 1, 5))
  }

  /** The sorted incidents for the given days, using the first draws of
      the plan. */
  function Generate(dates: seq<Date>, plan: seq<seq<Draw>>): (r: seq<Incident>)
    requires |plan| >= |dates| && AllInRange(dates)
    ensures Sorted(r) && |r| == Total(plan[..|dates|])
    ensures forall k :: 0 <= k < |r| ==>
      r[k].esPrediccion && ParseIsoDate(r[k].fecha).Some? && ParseIsoDate(r[k].fecha).value in dates
  {
    var r := SortByKey(Expand(dates, plan[..|dates|]));
    SortedExpand(dates, plan[..|dates|]);
    assert forall k :: 0 <= k < |r| ==> r[k] in r;
    r
  }

  /** Sorting the expanded days keeps every incident a prediction on one
      of those days. */
  lemma SortedExpand(dates: seq<Date>, plan: seq<seq<Draw>>)
    requires |dates| == |plan| && AllInRange(dates)
    ensures forall x :: x in SortByKey(Expand(dates, plan)) ==>
      x.esPrediccion && ParseIsoDate(x.fecha).Some? && ParseIsoDate(x.fecha).value in dates
  {
    var e := Expand(dates, plan);
    SortedMembers(e);
    forall x | x in SortByKey(e)
      ensures x.esPrediccion && ParseIsoDate(x.fecha).Some? && ParseIsoDate(x.fecha).value in dates
    {
      assert x in e;
      var j :| 0 <= j < |e| && e[j] == x;
    }
  }

  /** Sorting neither adds nor drops an element. */
  lemma SortedMembers(e: seq<Incident>)
    ensures forall x :: x in SortByKey(e) <==> x in e
  {
    var r := SortByKey(e);
    assert multiset(r) == multiset(e);
    forall x
      ensures x in r <==> x in e
    {
      assert x in r <==> x in multiset(r);
      assert x in e <==> x in multiset(e);
    }
  }

  /** Sorting keeps the number of incidents each day has. */
  lemma GenerateCount(dates: seq<Date>, plan: seq<seq<Draw>>, k: nat)
    requires |plan| >= |dates| && AllInRange(dates) && k < |dates|
    requires forall i, j :: 0 <= i < j < |dates| ==> dates[i] != dates[j]
    ensures CountFecha(Generate(dates, plan), FormatIsoDate(dates[k])) == |plan[k]|
  {
    SortCount(Expand(dates, plan[..|dates|]), FormatIsoDate(dates[k]));
    ExpandCount(dates, plan[..|dates|], k);
  }

  /** Every risk shown is a row of the risk table. */
  lemma GenerateRisks(dates: seq<Date>, plan: seq<seq<Draw>>, levels: seq<RiskLevel>)
    requires |plan| >= |dates| && AllInRange(dates) && DrawnFromTable(plan, levels)
    ensures forall k :: 0 <= k < |Generate(dates, plan)| ==> RiskFromTable(Generate(dates, plan)[k], levels)
  {
    var e := Expand(dates, plan[..|dates|]);
    ExpandRisks(dates, plan[..|dates|], levels);
    var r := SortByKey(e);
    SortedMembers(e);
    forall k | 0 <= k < |r|
      ensures RiskFromTable(r[k], levels)
    {
      assert r[k] in e;
    }
  }

  // ---------------------------------------------------------------------
  // The generator as written
  // ---------------------------------------------------------------------

  /** What the generator reads from the database: whether it can connect,
      whether the district exists, and the risk-level table. */
  datatype Generator = Generator(connected: bool, districtFound: bool, riskLevels: seq<RiskLevel>)

  /** The generator's answer: the sorted list (200), "Delegación no
      encontrada" (404), or an exception that the global handler turns
      into a 500. */
  datatype Outcome = Generated(incidents: seq<Incident>) | DistrictMissing | Crash

  /** Every draw's risk level is a row of the table, unless the table is
      empty, in which case `random.choice` raises before any is used. */
  predicate PlanUsable(g: Generator, plan: seq<seq<Draw>>) {
    |g.riskLevels| > 0 ==> DrawnFromTable(plan, g.riskLevels)
  }

  /** A string `strptime("%Y-%m-%d")` accepts has at least two dashes. */
  lemma IsoDateHasThreeParts(s: string)
    requires ParseIsoDate(s).Some?
    ensures |Split(s, '-')| >= 3
  {
    var j := MatchMonthField(s, 5).value.1;
    assert 5 < j - 1 < |s| && s[j - 1] == '-';
    TwoOccurrences(s, 4, j - 1, '-');
    SplitCount(s, '-');
  }

  lemma TwoOccurrences(s: string, i: nat, j: nat, c: char)
    requires i < j < |s| && s[i] == c && s[j] == c
    ensures multiset(s)[c] >= 2
  {
    assert s == s[..j] + s[j..];
    assert s[i] in s[..j] && s[j] in s[j..];
    assert multiset(s) == multiset(s[..j]) + multiset(s[j..]);
  }

  /** The generator as written: connect (a failure raises), look up the
      district (404 when absent), parse `fecha` with `"%Y-%m-%d"` (a
      failure raises), then by period: one day, seven days (raising past
      year 9999), or the month branch, which splits `fecha` at `-` into
      exactly two parts and expands them. An empty risk table makes the
      first draw raise. */
  function Predict(g: Generator, fecha: string, periodo: string, plan: seq<seq<Draw>>): (r: Outcome)
    requires PlanFits(periodo, plan) && PlanUsable(g, plan)
    ensures r.DistrictMissing? <==> g.connected && !g.districtFound
    ensures g.connected && g.districtFound && ParseIsoDate(fecha).None? ==> r.Crash?
    ensures g.connected && g.districtFound && ParseIsoDate(fecha).Some? && (periodo == "day" || periodo == "week") ==>
      (r.Generated? <==> |g.riskLevels| > 0 && (periodo == "day" || WeekInRange(ParseIsoDate(fecha).value)))
    ensures r.Generated? ==> Sorted(r.incidents)
    ensures r.Generated? ==> forall k :: 0 <= k < |r.incidents| ==>
      r.incidents[k].esPrediccion && ParseIsoDate(r.incidents[k].fecha).Some?
  {
    if !g.connected then Crash
    else if !g.districtFound then DistrictMissing
    else match ParseIsoDate(fecha)
      case None => Crash
      case Some(base) =>
        if periodo == "day" then
          if |g.riskLevels| == 0 then Crash else Generated(Generate([base], plan))
        else if periodo == "week" then
          if |g.riskLevels| == 0 || !WeekInRange(base) then Crash
          else Generated(Generate(WeekDates(base), plan))
        else if periodo == "month" then
          var p := ParseMonthParam(fecha);
          if |Split(fecha, '-')| != 2 || !p.MonthOk? || |g.riskLevels| == 0 then Crash
          else match MonthDatesAsWritten(p.year, p.month, Split(fecha, '-')[1])
            case None => Crash
            case Some(days) => Generated(Generate(days, plan))
        else Generated([])
  }

  /** The month branch is never reached: a `fecha` that parses as
      `YYYY-MM-DD` splits into three parts, not two, and a `YYYY-MM` one,
      which is what the route passes, does not parse. So a month
      prediction is never produced: 404 for an unknown district, 500
      otherwise. */
  lemma MonthPredictionAlwaysFails(g: Generator, fecha: string, plan: seq<seq<Draw>>)
    requires PlanFits("month", plan) && PlanUsable(g, plan)
    ensures !Predict(g, fecha, "month", plan).Generated?
    ensures Predict(g, fecha, "month", plan) == if g.connected && !g.districtFound then DistrictMissing else Crash
  {
    if ParseIsoDate(fecha).Some? {
      IsoDateHasThreeParts(fecha);
    }
  }

  /** With the route's `YYYY-MM` value, the month branch fails already at
      the date parse. */
  lemma MonthKeyDoesNotParse(fecha: string)
    requires ParseMonthParam(fecha).MonthOk?
    ensures ParseIsoDate(fecha) == None
  {
    if ParseIsoDate(fecha).Some? {
      IsoDateHasThreeParts(fecha);
    }
  }

  // ---------------------------------------------------------------------
  // The generator as corrected
  // ---------------------------------------------------------------------

  /** The span a prediction covers, as the route has already parsed it. */
  datatype Span = DaySpan(day: Date) | WeekSpan(start: Date) | MonthSpan(year: int, month: int) {
    predicate Valid() {
      match this
      case DaySpan(d) => InDatetimeRange(d)
      case WeekSpan(d) => InDatetimeRange(d)
      case MonthSpan(y, m) => 1 <= y <= 9999 && 1 <= m <= 12
    }

    function Period(): string {
      match this
      case DaySpan(_) => "day"
      case WeekSpan(_) => "week"
      case MonthSpan(_, _) => "month"
    }
  }

  /** The days of a span; a week running past year 9999 has none. */
  function SpanDates(span: Span): (r: Option<seq<Date>>)
    requires span.Valid()
    ensures r.Some? ==> AllInRange(r.value) && |r.value| <= 31
    ensures r.None? <==> span.WeekSpan? && !WeekInRange(span.start)
  {
    match span
    case DaySpan(d) => Some([d])
    case WeekSpan(d) => if WeekInRange(d) then Some(WeekDates(d)) else None
    case MonthSpan(y, m) => Some(MonthDates(y, m))
  }

  /** The generator with the month dispatched on its year and month
      rather than re-parsed as a full date: it produces a list exactly
      when the database is up, the district exists, the risk table is not
      empty and the span's days are in range. */
  function CorrectedPredict(g: Generator, span: Span, plan: seq<seq<Draw>>): (r: Outcome)
    requires span.Valid() && PlanFits(span.Period(), plan) && PlanUsable(g, plan)
    ensures r.Generated? <==> g.connected && g.districtFound && |g.riskLevels| > 0 && SpanDates(span).Some?
    ensures r.DistrictMissing? <==> g.connected && !g.districtFound
    ensures r.Generated? ==> Sorted(r.incidents)
  {
    if !g.connected then Crash
    else if !g.districtFound then DistrictMissing
    else if |g.riskLevels| == 0 then Crash
    else match SpanDates(span)
      case None => Crash
      case Some(days) =>
        assert |plan| >= |days| by {
          assert span.Period() == "day" || span.Period() == "week" || span.Period() == "month";
        }
        Generated(Generate(days, plan))
  }

  /** For a day or a week the corrected generator is the one as written. */
  lemma CorrectedAgreesOnDayAndWeek(g: Generator, fecha: string, periodo: string, plan: seq<seq<Draw>>)
    requires periodo == "day" || periodo == "week"
    requires PlanFits(periodo, plan) && PlanUsable(g, plan) && ParseIsoDate(fecha).Some?
    ensures var d := ParseIsoDate(fecha).value;
      var span := if periodo == "day" then DaySpan(d) else WeekSpan(d);
      Predict(g, fecha, periodo, plan) == CorrectedPredict(g, span, plan)
  {
  }

  /** A day's prediction: between 3 and 8 incidents, all on that day,
      sorted by time. */
  lemma DayShape(g: Generator, d: Date, plan: seq<seq<Draw>>)
    requires InDatetimeRange(d) && PlanFits("day", plan) && PlanUsable(g, plan)
    ensures var r := CorrectedPredict(g, DaySpan(d), plan);
      r.Generated? ==>
        && 3 <= |r.incidents| <= 8
        && (forall k :: 0 <= k < |r.incidents| ==> ParseIsoDate(r.incidents[k].fecha) == Some(d))
        && (forall k :: 0 <= k < |r.incidents| ==> RiskFromTable(r.incidents[k], g.riskLevels))
  {
    var r := CorrectedPredict(g, DaySpan(d), plan);
    if r.Generated? {
      assert r.incidents == Generate([d], plan);
      DayList(d, plan);
      GenerateRisks([d], plan, g.riskLevels);
    }
  }

  /** The generated day's size, and its incidents are all on that day. */
  lemma DayList(d: Date, plan: seq<seq<Draw>>)
    requires InDatetimeRange(d) && DrawsPerDay(plan, 1, 3, 8)
    ensures var xs := Generate([d], plan);
      && 3 <= |xs| <= 8
      && (forall k :: 0 <= k < |xs| ==> ParseIsoDate(xs[k].fecha) == Some(d))
  {
    assert plan[..1] == [plan[0]];
    assert Total([plan[0]]) == |plan[0]| + Total([]);
  }

  /** A week's prediction: 2 to 6 incidents on each of the seven days,
      14 to 42 in all, on those days only. */
  lemma WeekShape(g: Generator, d: Date, plan: seq<seq<Draw>>)
    requires InDatetimeRange(d) && PlanFits("week", plan) && PlanUsable(g, plan)
    ensures var r := CorrectedPredict(g, WeekSpan(d), plan);
      r.Generated? ==>
        && WeekInRange(d)
        && 14 <= |r.incidents| <= 42
        && (forall i :: 0 <= i < 7 ==> 2 <= CountFecha(r.incidents, FormatIsoDate(WeekDates(d)[i])) <= 6)
        && (forall k :: 0 <= k < |r.incidents| ==>
              Ordinal(d) <= Ordinal(ParseIsoDate(r.incidents[k].fecha).value) <= Ordinal(d) + 6)
  {
    var r := CorrectedPredict(g, WeekSpan(d), plan);
    if r.Generated? {
      assert SpanDates(WeekSpan(d)).Some?;
      assert r.incidents == Generate(WeekDates(d), plan);
      WeekList(d, plan);
      WeekCounts(d, plan);
    }
  }

  /** The generated week's size, and its incidents fall on the seven days
      from `d`. */
  lemma WeekList(d: Date, plan: seq<seq<Draw>>)
    requires WeekInRange(d) && DrawsPerDay(plan, 7, 2, 6)
    ensures var xs := Generate(WeekDates(d), plan);
      && 14 <= |xs| <= 42
      && (forall k :: 0 <= k < |xs| ==>
            Ordinal(d) <= Ordinal(ParseIsoDate(xs[k].fecha).value) <= Ordinal(d) + 6)
  {
    var days := WeekDates(d);
    var xs := Generate(days, plan);
    WeekOrdinals(d);
    assert |xs| == Total(plan[..7]);
    TotalBounds(plan[..7], 2, 6);
    forall k | 0 <= k < |xs|
      ensures Ordinal(d) <= Ordinal(ParseIsoDate(xs[k].fecha).value) <= Ordinal(d) + 6
    {
      var e := ParseIsoDate(xs[k].fecha).value;
      assert e in days;
      var i :| 0 <= i < 7 && days[i] == e;
    }
  }

  lemma WeekCounts(d: Date, plan: seq<seq<Draw>>)
    requires WeekInRange(d) && |plan| >= 7
    ensures forall i :: 0 <= i < 7 ==>
      CountFecha(Generate(WeekDates(d), plan), FormatIsoDate(WeekDates(d)[i])) == |plan[i]|
  {
    var days := WeekDates(d);
    WeekDatesConsecutive(d);
    forall i | 0 <= i < 7
      ensures CountFecha(Generate(days, plan), FormatIsoDate(days[i])) == |plan[i]|
    {
      GenerateCount(days, plan, i);
    }
  }

  /** A month's prediction: 1 to 5 incidents on each day of the month,
      between one and five times the month's length in all, and none
      outside the month. */
  lemma MonthShape(g: Generator, year: int, month: int, plan: seq<seq<Draw>>)
    requires 1 <= year <= 9999 && 1 <= month <= 12
    requires PlanFits("month", plan) && PlanUsable(g, plan)
    ensures var r := CorrectedPredict(g, MonthSpan(year, month), plan);
      var n := DaysInMonth(year, month);
      r.Generated? ==>
        && n <= |r.incidents| <= 5 * n
        && (forall day :: 1 <= day <= n ==>
              1 <= CountFecha(r.incidents, FormatIsoDate(Date(year, month, day))) <= 5)
        && (forall k :: 0 <= k < |r.incidents| ==>
              var e := ParseIsoDate(r.incidents[k].fecha).value;
              e.year == year && e.month == month)
  {
    var r := CorrectedPredict(g, MonthSpan(year, month), plan);
    if r.Generated? {
      assert r.incidents == Generate(MonthDates(year, month), plan);
      MonthList(year, month, plan);
      MonthCounts(year, month, plan);
    }
  }

  /** The generated month's size, and its incidents fall in that month. */
  lemma MonthList(year: int, month: int, plan: seq<seq<Draw>>)
    requires 1 <= year <= 9999 && 1 <= month <= 12 && DrawsPerDay(plan, 31, 1, 5)
    ensures var xs := Generate(MonthDates(year, month), plan);
      var n := DaysInMonth(year, month);
      && n <= |xs| <= 5 * n
      && (forall k :: 0 <= k < |xs| ==>
            var e := ParseIsoDate(xs[k].fecha).value;
            e.year == year && e.month == month)
  {
    var days := MonthDates(year, month);
    var n := |days|;
    MonthDatesAreTheMonth(year, month);
    TotalBounds(plan[..n], 1, 5);
  }

  /** Each day of the month has exactly its planned number of incidents. */
  lemma MonthCounts(year: int, month: int, plan: seq<seq<Draw>>)
    requires 1 <= year <= 9999 && 1 <= month <= 12 && |plan| >= 31
    ensures forall day :: 1 <= day <= DaysInMonth(year, month) ==>
      CountFecha(Generate(MonthDates(year, month), plan), FormatIsoDate(Date(year, month, day)))
        == |plan[day - 1]|
  {
    var days := MonthDates(year, month);
    MonthDatesAreTheMonth(year, month);
    forall day | 1 <= day <= |days|
      ensures CountFecha(Generate(days, plan), FormatIsoDate(Date(year, month, day))) == |plan[day - 1]|
    {
      assert days[day - 1] == Date(year, month, day);
      GenerateCount(days, plan, day - 1);
    }
  }
}
