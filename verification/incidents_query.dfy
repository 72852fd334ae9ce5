/** What the filter controller derives from the view state whenever its
    inputs change: the `fecha` query parameter, the "is prediction" flag
    (compared against a "now" passed in) and the incidents request URL;
    and when a step of the view issues that request. */
module IncidentsQuery {
  import opened Options
  import opened Text
  import opened Calendar
  import opened FilterView

  /** The fixed base URL of every request. */
  const ApiUrl := "https://backend-monitoreo-seguridad.onrender.com"

  /** The selector values are well formed and a stored date is pickable. */
  predicate WellFormed(s: ViewState) {
    DatesValid(s) && MonthValue(s.month) && YearValue(s.year)
  }

  /** Month view with both a month and a year picked. */
  predicate MonthPicked(s: ViewState) {
    s.period == Month && s.month != "" && s.year != ""
  }

  /** The first day of the picked month: JavaScript's
      `new Date(parseInt(year), parseInt(month) - 1)`. */
  function MonthStart(s: ViewState): (d: Date)
    requires WellFormed(s) && s.month != "" && s.year != ""
    ensures InDatetimeRange(d) && d.day == 1
  {
    YearValueRange(s.year);
    Date(NumberOf(s.year), NumberOf(s.month), 1)
  }

  /** The `fecha` parameter: `YYYY-MM` in month view with month and year
      picked, otherwise the picked date as `YYYY-MM-DD`, otherwise empty.
      Both forms read back as what was picked. */
  function DateParam(s: ViewState): (r: string)
    requires WellFormed(s)
    ensures MonthPicked(s) ==> r == FormatMonthKey(MonthStart(s).year, MonthStart(s).month)
    ensures !MonthPicked(s) && s.date.Some? ==> ParseIsoDate(r) == Some(s.date.value)
    ensures !MonthPicked(s) && s.date.None? ==> r == ""
  {
    if MonthPicked(s) then
      ZeroPadOfNumeral(s.year);
      ZeroPadOfNumeral(s.month);
      s.year + "-" + PadStart(s.month, 2, '0')
    else if s.date.Some? then
      ParseFormatIsoDate(s.date.value);
      FormatIsoDate(s.date.value)
    else ""
  }

  /** Whether the view shows a prediction: the picked date, or the first
      day of the picked month and year, lies strictly after now. The
      month and year count whatever the view period. */
  predicate IsPrediction(s: ViewState, now: Instant)
    requires WellFormed(s) && ValidInstant(now)
    ensures s.date.None? && (s.year == "" || s.month == "") ==> !IsPrediction(s, now)
    ensures s.date.Some? && Before(now.date, s.date.value) ==> IsPrediction(s, now)
    ensures IsPrediction(s, now) && s.date.None? ==>
      && s.year != "" && s.month != ""
      && (MonthStart(s).year > now.date.year
          || (MonthStart(s).year == now.date.year && MonthStart(s).month > now.date.month))
  {
    (s.date.Some? && StartsAfter(s.date.value, now))
    || (s.year != "" && s.month != "" && StartsAfter(MonthStart(s), now))
  }

  /** A picked month is a prediction exactly when it is a later month than
      the current one: the current month never is. */
  lemma MonthPredictionIsLaterMonth(s: ViewState, now: Instant)
    requires WellFormed(s) && ValidInstant(now) && MonthPicked(s) && s.date.None?
    ensures var m := MonthStart(s);
      IsPrediction(s, now) <==>
        m.year > now.date.year || (m.year == now.date.year && m.month > now.date.month)
  {
  }

  /** A picked date is a prediction exactly when it is after today. */
  lemma DatePredictionIsLaterDay(s: ViewState, now: Instant)
    requires WellFormed(s) && ValidInstant(now) && s.date.Some? && s.month == "" && s.year == ""
    ensures IsPrediction(s, now) <==> Before(now.date, s.date.value)
  {
  }

  /** The query string of the incidents request: `delegacion_id`,
      `fecha` and `periodo`, in that order, as literal text. */
  function QueryString(districtId: nat, dateParam: string, period: Period): string {
    "delegacion_id=" + Dec(districtId) + "&fecha=" + dateParam + "&periodo=" + period.Name()
  }

  /** A GET request to the incidents endpoint: the endpoint, the query
      string after its `?`, and the prediction flag the view sets with it. */
  datatype IncidentsRequest = IncidentsRequest(endpoint: string, query: string, prediction: bool) {
    function Url(): string {
      endpoint + "?" + query
    }
  }

  /** The incidents effect: nothing without a district; otherwise one
      request for the district, the date parameter and the view period,
      with the prediction flag it sets. */
  function IncidentsEffect(s: ViewState, now: Instant): (r: Option<IncidentsRequest>)
    requires WellFormed(s) && ValidInstant(now)
    ensures r.None? <==> s.district.None?
    ensures r.Some? ==> r.value.endpoint == ApiUrl + "/incidentes"
    ensures r.Some? ==> r.value.prediction == IsPrediction(s, now)
  {
    if s.district.None? then None
    else
      Some(IncidentsRequest(ApiUrl + "/incidentes",
                            QueryString(s.district.value.id, DateParam(s), s.period),
                            IsPrediction(s, now)))
  }

  /** Whether any input of the incidents effect changed. */
  predicate InputsChanged(prev: ViewState, next: ViewState) {
    || prev.district != next.district
    || prev.date != next.date
    || prev.period != next.period
    || prev.month != next.month
    || prev.year != next.year
  }

  /** One user action with its request: the effect runs after a step that
      changed one of its inputs (a stored date pick always does), and
      sends a request only when a district is selected. */
  function StepWithFetch(s: ViewState, ev: Event, now: Instant): (r: (ViewState, Option<IncidentsRequest>))
    requires Reachable(s) && Enabled(s, ev) && ValidInstant(now)
    ensures r.0 == Step(s, ev) && Reachable(r.0)
    ensures r.1.Some? <==> r.0.district.Some? && (InputsChanged(s, r.0) || FreshDate(ev))
    ensures r.1.Some? ==> r.1 == IncidentsEffect(r.0, now)
  {
    StepKeepsReachable(s, ev);
    var next := Step(s, ev);
    if InputsChanged(s, next) || FreshDate(ev) then (next, IncidentsEffect(next, now))
    else (next, None)
  }

  lemma Iso20250110()
    ensures FormatIsoDate(Date(2025, 1, 10)) == "2025-01-10"
  {
    Pad2025();
    PadMonthDay();
    assert FormatIsoDate(Date(2025, 1, 10)) == "2025" + "-" + "01" + "-" + "10";
  }

  lemma PadMonthDay()
    ensures ZeroPad(1, 2) == "01" && ZeroPad(10, 2) == "10"
  {
    assert ZeroPad(1, 1) == "1" && ZeroPad(0, 1) == "0";
  }

  lemma Pad2025()
    ensures ZeroPad(2025, 4) == "2025"
  {
    assert ZeroPad(2, 1) == "2";
    assert ZeroPad(20, 2) == "20";
    assert ZeroPad(202, 3) == "202";
  }

  lemma ScenarioDayParam(s: ViewState)
    requires s == ViewState(Some(District(3, "")), Day, Some(Date(2025, 1, 10)), None, "", "")
    ensures WellFormed(s) && DateParam(s) == "2025-01-10"
  {
    Iso20250110();
  }

  /** Scenario: district 3, day view, 2025-01-10 picked. */
  lemma ScenarioDayRequest(now: Instant)
    requires ValidInstant(now)
    ensures var s := ViewState(Some(District(3, "")), Day, Some(Date(2025, 1, 10)), None, "", "");
      IncidentsEffect(s, now).value.query == "delegacion_id=3&fecha=2025-01-10&periodo=day"
  {
    var s := ViewState(Some(District(3, "")), Day, Some(Date(2025, 1, 10)), None, "", "");
    ScenarioDayParam(s);
    var r := IncidentsEffect(s, now);
    assert r.value.query == QueryString(3, "2025-01-10", Day);
    ScenarioDayQuery();
  }

  lemma ScenarioDayQuery()
    ensures QueryString(3, "2025-01-10", Day) == "delegacion_id=3&fecha=2025-01-10&periodo=day"
  {
    assert Dec(3) == "3";
    assert Day.Name() == "day";
    calc {
      QueryString(3, "2025-01-10", Day);
      "delegacion_id=" + "3" + "&fecha=" + "2025-01-10" + "&periodo=" + "day";
      "delegacion_id=3&fecha=2025-01-10&periodo=day";
    }
  }

  /** Scenario: month view with year 2025 and month 03 gives `2025-03`. */
  lemma ScenarioMonthParam(s: ViewState)
    requires WellFormed(s) && s.period == Month && s.year == "2025" && s.month == "03"
    ensures DateParam(s) == "2025-03"
  {
    assert MonthPicked(s);
    assert PadStart(s.month, 2, '0') == s.month;
    var r := s.year + "-" + s.month;
    assert DateParam(s) == r;
    assert |r| == 7 && r[..4] == "2025" && r[4] == '-' && r[5..] == "03";
    assert r == r[..4] + [r[4]] + r[5..];
  }
}
