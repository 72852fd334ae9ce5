/** The whole `/incidentes` request on the server: the route, then the
    prediction generator or the historical query, and the status each
    outcome answers with. */
module IncidentsServer {
  import opened Options
  import opened Text
  import opened Calendar
  import opened Records
  import opened IncidentsRoute
  import opened PredictedIncidents
  import opened Predictor

  /** What the database does for this request: connect, run the
      historical query, find the district, and list the risk levels. */
  datatype Database = Database(connected: bool, querySucceeds: bool, districtFound: bool,
                               riskLevels: seq<RiskLevel>)
  {
    function Generator(): Generator {
      Predictor.Generator(connected, districtFound, riskLevels)
    }
  }

  /** The statuses the route answers an error object with. */
  type ErrorStatus = c: int | c == 400 || c == 404 || c == 500 witness 400

  /** The answer: a list of predictions (200), the rows of a historical
      query (200), an error object with a status, or an exception turned
      into a 500 by the global handler. */
  datatype Reply =
    | Listed(incidents: seq<Incident>)
    | HistoryRows(query: HistoryQuery)
    | Error(status: ErrorStatus, message: string)
    | ServerError

  const DistrictNotFound := "Delegación no encontrada"
  const QueryFailed := "Error en la consulta"

  function Status(r: Reply): (code: int)
    ensures code == 200 <==> r.Listed? || r.HistoryRows?
  {
    match r
    case Listed(_) => 200
    case HistoryRows(_) => 200
    case Error(status, _) => status
    case ServerError => 500
  }

  function OutcomeReply(o: Outcome): (r: Reply)
    ensures r.Listed? <==> o.Generated?
  {
    match o
    case Generated(xs) => Listed(xs)
    case DistrictMissing => Error(404, DistrictNotFound)
    case Crash => ServerError
  }

  /** The draws fit the period the request names. */
  predicate DrawsFor(query: string, db: Database, plan: seq<seq<Draw>>) {
    PlanFits(ArgsOf(query).periodo.GetOr("day"), plan) && PlanUsable(db.Generator(), plan)
  }

  /** A historical read: the connection (a failure raises), an unknown
      period refused only after it, and the query (a failure answers
      500 with the error text). */
  function ReadHistory(route: Route, db: Database): (r: Reply)
    requires route.ToHistory? || route.UnknownPeriod?
    ensures r.HistoryRows? <==> route.ToHistory? && db.connected && db.querySucceeds
    ensures route.UnknownPeriod? ==> r == if db.connected then Error(400, BadPeriod) else ServerError
  {
    if !db.connected then ServerError
    else if route.UnknownPeriod? then Error(400, BadPeriod)
    else if !db.querySucceeds then Error(500, QueryFailed)
    else HistoryRows(route.query)
  }

  /** `/incidentes` as written. */
  function Serve(query: string, now: Instant, db: Database, plan: seq<seq<Draw>>): (r: Reply)
    requires ValidInstant(now) && InDatetimeRange(now.date) && DrawsFor(query, db, plan)
    ensures Status(r) in {200, 400, 404, 500}
    ensures r.Listed? ==> RouteIncidents(ArgsOf(query), now).ToPrediction?
    ensures r.HistoryRows? ==> RouteIncidents(ArgsOf(query), now).ToHistory?
  {
    var route := RouteIncidents(ArgsOf(query), now);
    match route
    case Rejected(msg) => Error(400, msg)
    case Crashed => ServerError
    case ToPrediction(_, fecha, periodo) => OutcomeReply(Predict(db.Generator(), fecha, periodo, plan))
    case _ => ReadHistory(route, db)
  }

  /** The span the route has validated for a prediction. */
  function SpanOf(route: Route, now: Instant): (span: Span)
    requires ValidInstant(now) && InDatetimeRange(now.date)
    requires route.ToPrediction? && (route.periodo == "month" ==> ParseMonthParam(route.fecha).MonthOk?)
    requires route.periodo != "month" ==> ParseIsoDate(route.fecha).Some?
    ensures span.Valid()
    ensures route.periodo == "month" ==> span.MonthSpan?
    ensures route.periodo != "month" && route.periodo == "week" ==> span.WeekSpan?
    ensures route.periodo != "month" && route.periodo != "week" ==> span.DaySpan?
  {
    if route.periodo == "month" then
      var p := ParseMonthParam(route.fecha);
      MonthSpan(p.year, p.month)
    else if route.periodo == "week" then WeekSpan(ParseIsoDate(route.fecha).value)
    else DaySpan(ParseIsoDate(route.fecha).value)
  }

  /** `/incidentes` with the corrected generator. */
  function CorrectedServe(query: string, now: Instant, db: Database, plan: seq<seq<Draw>>): (r: Reply)
    requires ValidInstant(now) && InDatetimeRange(now.date) && DrawsFor(query, db, plan)
    ensures Status(r) in {200, 400, 404, 500}
    ensures !RouteIncidents(ArgsOf(query), now).ToPrediction? ==> r == Serve(query, now, db, plan)
  {
    var route := RouteIncidents(ArgsOf(query), now);
    match route
    case ToPrediction(_, fecha, periodo) =>
      OutcomeReply(CorrectedPredict(db.Generator(), SpanOf(route, now), plan))
    case _ => Serve(query, now, db, plan)
  }

  /** As written, a month that starts after now is never listed: the
      answer is 404 for an unknown district and 500 otherwise. */
  lemma FutureMonthNeverListed(id: string, year: int, month: int, now: Instant,
                               db: Database, plan: seq<seq<Draw>>)
    requires ValidInstant(now) && InDatetimeRange(now.date)
    requires id != "" && 1 <= year <= 9999 && 1 <= month <= 12 && Before(now.date, Date(year, month, 1))
    requires '&' !in id
    requires PlanFits("month", plan) && PlanUsable(db.Generator(), plan)
    ensures var q := QueryText(id, FormatMonthKey(year, month), "month");
      DrawsFor(q, db, plan) &&
      Status(Serve(q, now, db, plan)) == (if db.connected && !db.districtFound then 404 else 500)
  {
    var fecha := FormatMonthKey(year, month);
    var q := QueryText(id, fecha, "month");
    FutureMonthRoute(id, year, month, now);
    MonthPredictionAlwaysFails(db.Generator(), fecha, plan);
    ServeOfPrediction(q, now, db, plan, ToPrediction(id, fecha, "month"));
  }

  lemma ServeOfPrediction(q: string, now: Instant, db: Database, plan: seq<seq<Draw>>, route: Route)
    requires ValidInstant(now) && InDatetimeRange(now.date) && DrawsFor(q, db, plan)
    requires RouteIncidents(ArgsOf(q), now) == route && route.ToPrediction?
    ensures PlanFits(route.periodo, plan) && PlanUsable(db.Generator(), plan)
    ensures Serve(q, now, db, plan) == OutcomeReply(Predict(db.Generator(), route.fecha, route.periodo, plan))
  {
  }

  /** Corrected, the same request lists the month's predictions whenever
      the database is up, the district exists and there are risk
      levels. */
  lemma FutureMonthListedWhenCorrected(id: string, year: int, month: int, now: Instant,
                                       db: Database, plan: seq<seq<Draw>>)
    requires ValidInstant(now) && InDatetimeRange(now.date)
    requires id != "" && 1 <= year <= 9999 && 1 <= month <= 12 && Before(now.date, Date(year, month, 1))
    requires '&' !in id
    requires PlanFits("month", plan) && PlanUsable(db.Generator(), plan)
    requires db.connected && db.districtFound && |db.riskLevels| > 0
    ensures var q := QueryText(id, FormatMonthKey(year, month), "month");
      DrawsFor(q, db, plan) &&
      var r := CorrectedServe(q, now, db, plan);
      r.Listed? && r == OutcomeReply(CorrectedPredict(db.Generator(), MonthSpan(year, month), plan))
  {
    var fecha := FormatMonthKey(year, month);
    var q := QueryText(id, fecha, "month");
    FutureMonthRoute(id, year, month, now);
    var route := ToPrediction(id, fecha, "month");
    ParseMonthKey(year, month);
    assert SpanOf(route, now) == MonthSpan(year, month);
    CorrectedServeOfPrediction(q, now, db, plan, route);
    assert CorrectedPredict(db.Generator(), MonthSpan(year, month), plan).Generated?;
  }

  lemma CorrectedServeOfPrediction(q: string, now: Instant, db: Database, plan: seq<seq<Draw>>, route: Route)
    requires ValidInstant(now) && InDatetimeRange(now.date) && DrawsFor(q, db, plan)
    requires RouteIncidents(ArgsOf(q), now) == route && route.ToPrediction?
    requires route.periodo == "month" ==> ParseMonthParam(route.fecha).MonthOk?
    requires route.periodo != "month" ==> ParseIsoDate(route.fecha).Some?
    ensures CorrectedServe(q, now, db, plan) == OutcomeReply(CorrectedPredict(db.Generator(), SpanOf(route, now), plan))
  {
  }

  /** The view's request for a later month reads back as that month and
      routes to the predictor. */
  lemma FutureMonthRoute(id: string, year: int, month: int, now: Instant)
    requires ValidInstant(now) && InDatetimeRange(now.date)
    requires id != "" && 1 <= year <= 9999 && 1 <= month <= 12 && Before(now.date, Date(year, month, 1))
    requires '&' !in id
    ensures var fecha := FormatMonthKey(year, month);
      var q := QueryText(id, fecha, "month");
      && ArgsOf(q).periodo == Some("month")
      && RouteIncidents(ArgsOf(q), now) == ToPrediction(id, fecha, "month")
  {
    var fecha := FormatMonthKey(year, month);
    NoAmpersandInMonthKey(year, month);
    ArgsOfThree(id, fecha, "month");
    MonthRoute(id, year, month, now);
  }

  lemma NoAmpersandInMonthKey(year: int, month: int)
    requires 1 <= year <= 9999 && 1 <= month <= 12
    ensures '&' !in FormatMonthKey(year, month)
  {
    var y, m := ZeroPad(year, 4), ZeroPad(month, 2);
    assert FormatMonthKey(year, month) == y + "-" + m;
    assert forall i :: 0 <= i < |y| ==> IsDigit(y[i]);
    assert forall i :: 0 <= i < |m| ==> IsDigit(m[i]);
  }
}
