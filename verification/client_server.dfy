/** How the browser view and the server fit together: the request the
    view sends reads back on the server as the view's own values, the
    server never rejects it, it routes to the predictor exactly when the
    view labels the result a prediction (both sides reading the same
    clock), and feedback on a generated prediction is stored. */
module ClientServer {
  import opened Options
  import opened Text
  import opened Calendar
  import opened Records
  import opened FilterView
  import opened IncidentsQuery
  import opened FeedbackClient
  import opened IncidentsRoute
  import opened PredictedIncidents
  import opened FeedbackServer
  import opened IncidentsServer

  /** The client's query is the route's query text. */
  lemma ClientQueryIsQueryText(s: ViewState, now: Instant)
    requires WellFormed(s) && ValidInstant(now) && s.district.Some?
    ensures IncidentsEffect(s, now).value.query
         == QueryText(Dec(s.district.value.id), DateParam(s), s.period.Name())
  {
  }

  lemma NoAmpersandInIsoDate(d: Date)
    requires InDatetimeRange(d)
    ensures '&' !in FormatIsoDate(d)
  {
    var y, m, dd := ZeroPad(d.year, 4), ZeroPad(d.month, 2), ZeroPad(d.day, 2);
    assert FormatIsoDate(d) == y + "-" + m + "-" + dd;
    assert forall i :: 0 <= i < |y| ==> IsDigit(y[i]);
    assert forall i :: 0 <= i < |m| ==> IsDigit(m[i]);
    assert forall i :: 0 <= i < |dd| ==> IsDigit(dd[i]);
  }

  lemma NoAmpersandInDec(n: nat)
    ensures '&' !in Dec(n)
  {
    var s := Dec(n);
    assert forall i :: 0 <= i < |s| ==> IsDigit(s[i]);
  }

  lemma NoAmpersandInDateParam(s: ViewState)
    requires WellFormed(s)
    ensures '&' !in DateParam(s)
  {
    if MonthPicked(s) {
      NoAmpersandInMonthKey(MonthStart(s).year, MonthStart(s).month);
    } else if s.date.Some? {
      NoAmpersandInIsoDate(s.date.value);
    }
  }

  /** The server reads the district id, the date parameter and the period
      name the view sent. */
  lemma ClientArgsReadBack(s: ViewState, now: Instant)
    requires WellFormed(s) && ValidInstant(now) && s.district.Some?
    ensures ArgsOf(IncidentsEffect(s, now).value.query)
         == Args(Some(Dec(s.district.value.id)), Some(DateParam(s)), Some(s.period.Name()))
  {
    var id, dp, pn := Dec(s.district.value.id), DateParam(s), s.period.Name();
    ClientQueryIsQueryText(s, now);
    NoAmpersandInDec(s.district.value.id);
    NoAmpersandInDateParam(s);
    NoAmpersandInPeriodName(s.period);
    ArgsOfThree(id, dp, pn);
  }

  lemma NoAmpersandInPeriodName(p: Period)
    ensures '&' !in p.Name()
  {
  }

  /** The route the server takes for the view's request. */
  function ServerRoute(s: ViewState, now: Instant): (r: Route)
    requires Reachable(s) && ValidInstant(now) && InDatetimeRange(now.date) && s.district.Some?
    ensures r == RouteIncidents(ArgsOf(IncidentsEffect(s, now).value.query), now)
  {
    RouteIncidents(ArgsOf(IncidentsEffect(s, now).value.query), now)
  }

  /** Every request the view can send is accepted, and the server predicts
      exactly when the view shows the result as a prediction. */
  lemma ClientRouteAgrees(s: ViewState, now: Instant)
    requires Reachable(s) && ValidInstant(now) && InDatetimeRange(now.date) && s.district.Some?
    ensures var route := ServerRoute(s, now);
      && (route.ToPrediction? || route.ToHistory?)
      && (route.ToPrediction? <==> IsPrediction(s, now))
  {
    ClientArgsReadBack(s, now);
    if MonthPicked(s) {
      MonthViewRoute(s, now);
    } else if s.date.Some? {
      DateViewRoute(s, now);
    } else {
      BlankViewRoute(s, now);
    }
  }

  /** The arguments the server reads from the view's request. */
  function ViewArgs(s: ViewState): Args
    requires WellFormed(s) && s.district.Some?
  {
    Args(Some(Dec(s.district.value.id)), Some(DateParam(s)), Some(s.period.Name()))
  }

  lemma MonthViewRoute(s: ViewState, now: Instant)
    requires Reachable(s) && ValidInstant(now) && InDatetimeRange(now.date) && s.district.Some?
    requires MonthPicked(s)
    ensures var route := RouteIncidents(ViewArgs(s), now);
      && (route.ToPrediction? || route.ToHistory?)
      && (route.ToPrediction? <==> IsPrediction(s, now))
  {
    var m := MonthStart(s);
    var id := Dec(s.district.value.id);
    assert s.date.None? && s.period.Name() == "month";
    assert ViewArgs(s) == Args(Some(id), Some(FormatMonthKey(m.year, m.month)), Some("month"));
    MonthRoute(id, m.year, m.month, now);
    assert IsPrediction(s, now) <==> StartsAfter(m, now);
  }

  lemma DateViewRoute(s: ViewState, now: Instant)
    requires Reachable(s) && ValidInstant(now) && InDatetimeRange(now.date) && s.district.Some?
    requires !MonthPicked(s) && s.date.Some?
    ensures var route := RouteIncidents(ViewArgs(s), now);
      && (route.ToPrediction? || route.ToHistory?)
      && (route.ToPrediction? <==> IsPrediction(s, now))
  {
    DateRoute(Dec(s.district.value.id), DateParam(s), s.period.Name(), now);
  }

  lemma BlankViewRoute(s: ViewState, now: Instant)
    requires Reachable(s) && ValidInstant(now) && InDatetimeRange(now.date) && s.district.Some?
    requires !MonthPicked(s) && s.date.None?
    ensures var route := RouteIncidents(ViewArgs(s), now);
      && (route.ToPrediction? || route.ToHistory?)
      && (route.ToPrediction? <==> IsPrediction(s, now))
  {
    assert Blank(ViewArgs(s).fecha);
    BlankDateReadsHistory(ViewArgs(s), now);
  }

  /** A view in month view with a later month picked is labelled a
      prediction, and the server as written never lists it; the corrected
      server lists that month's predictions when the district and the
      risk levels are there. */
  lemma FutureMonthView(s: ViewState, now: Instant, db: Database, plan: seq<seq<Draw>>)
    requires Reachable(s) && ValidInstant(now) && InDatetimeRange(now.date) && s.district.Some?
    requires MonthPicked(s) && IsPrediction(s, now)
    requires Predictor.PlanFits("month", plan) && Predictor.PlanUsable(db.Generator(), plan)
    ensures var q := IncidentsEffect(s, now).value.query;
      && IncidentsEffect(s, now).value.prediction
      && DrawsFor(q, db, plan)
      && !Serve(q, now, db, plan).Listed?
      && (db.connected && db.districtFound && |db.riskLevels| > 0 ==> CorrectedServe(q, now, db, plan).Listed?)
  {
    var id := Dec(s.district.value.id);
    var m := MonthStart(s);
    ClientQueryIsQueryText(s, now);
    NoAmpersandInDec(s.district.value.id);
    FutureMonthNeverListed(id, m.year, m.month, now, db, plan);
    if db.connected && db.districtFound && |db.riskLevels| > 0 {
      FutureMonthListedWhenCorrected(id, m.year, m.month, now, db, plan);
    }
  }

  /** Feedback on a generated prediction is stored with the prediction's
      id, its date, its time with seconds added, and the user's answer. */
  lemma PredictionFeedbackStored(d: Date, w: Draw, district: District, confirmed: bool)
    requires InDatetimeRange(d)
    ensures var p := BuildFeedback(Some(MakeIncident(d, w)), Some(district), confirmed).value;
      var r := RegisterFeedback(PayloadJson(p), FeedbackDb(true, true, true));
      && r.Stored?
      && r.row.incidenteId == PredictionId(w.idNumber)
      && r.row.fecha == JString(FormatIsoDate(d))
      && r.row.hora == JString(FormatHora(w.hour, w.minute) + ":00")
      && r.row.confirmado == JBool(confirmed)
  {
    var x := MakeIncident(d, w);
    var p := BuildFeedback(Some(x), Some(district), confirmed).value;
    PredictionHoraGainsSeconds(w.hour, w.minute);
    assert p.hora == FormatHora(w.hour, w.minute) + ":00";
    PayloadStored(p);
  }

  /** The browser's time rewrite turns a generated `HH:MM` into `HH:MM:00`. */
  lemma PredictionHoraGainsSeconds(h: Hour, m: Minute)
    ensures FeedbackHora(FormatHora(h, m)) == FormatHora(h, m) + ":00"
  {
    var hh, mm := ZeroPad(h, 2), ZeroPad(m, 2);
    assert FormatHora(h, m) == hh + ":" + mm;
    NotInDigits(hh, ':');
    NotInDigits(mm, ':');
    FeedbackHoraAppendsSeconds(hh, mm);
  }

  /** A complete payload whose id is a `pred-` text is stored as posted
      when the connection and the insert succeed and the retraining call
      returns. */
  lemma PayloadStored(p: FeedbackPayload)
    requires p.incidenteId.TextId? && StartsWith(p.incidenteId.text, "pred-")
    ensures var r := RegisterFeedback(PayloadJson(p), FeedbackDb(true, true, true));
      && r.Stored?
      && r.row.incidenteId == p.incidenteId.text
      && r.row.fecha == JString(p.fecha)
      && r.row.hora == JString(p.hora)
      && r.row.confirmado == JBool(p.confirmado)
  {
    var j := PayloadJson(p);
    assert forall f :: f in RequiredFields ==> f in j.fields;
    assert j.fields["incidente_id"] == JString(p.incidenteId.text);
    assert Truthy(j);
  }
}
