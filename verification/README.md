# District incident browser: filter controller and incidents service

This project models the core of a crime-incident browser. It has two parts.

- **The browser page** (`Delegations.jsx`). The user picks a district (delegación), a view period (`day`, `week` or `month`), and either a date or a month and year. The page derives three things from these: the end date of a week, the `fecha` query parameter, and an "is prediction" flag. It then requests `/incidentes`. For a predicted incident the user can post feedback to `/retroalimentacion`.
- **The Flask service** (`app.py`). Its `/incidentes` route works in three steps:
  1. It checks `delegacion_id`. It then defaults and validates `fecha` for each `periodo`.
  2. It compares the requested day, or the first day of the requested month, with "now".
  3. It either reads history or calls the prediction generator.

  The generator draws random incidents:
  - 3–8 for a day;
  - 2–6 for each of seven days in a week;
  - 1–5 for each day of a month.

  It then sorts them by (`fecha`, `hora`). The `/retroalimentacion` route validates the feedback body before it stores it.

Everything is pure. The model represents the parts of the system as follows:

- **The page state** is an immutable record, and each handler is a transition on it.
- **Dates** are integer triples.
- **"Now"** is a parameter. The page and the service take the same value.
- **Random draws** are inputs with the source's ranges.
- **The database** is an oracle. A `connected` flag says whether connecting succeeds.
  - For the history queries and the feedback route, further flags say whether a query or the insert succeeds, and whether the retraining call after a stored feedback returns. That retraining catches its own training failures, too few rows included. Only its own connection or cursor raising escapes it, and that raise is the case the flag stands for.
  - For the generator, the oracle says whether the district exists and holds the risk-level table. Its other queries are taken to succeed (see "## Left out").
- **Python semantics** are modelled where they matter:
  - `datetime.strptime(s, "%Y-%m-%d")` is modelled exactly for ASCII text: the field regexes, the check that no text is left over, and the check that the date exists.
  - So are `str.split`, `str.strip` and `int()`, with ASCII digits only. `str.strip` removes every character `str.isspace` accepts, U+3000 included. `int()` skips less: it does not skip the separators U+001C–U+001F, so `int("\x1c1")` raises `ValueError`.
  - `int()` also has the 4300-digit limit of Python 3.11 and later (`sys.int_info.default_max_str_digits`). Leading zeros count towards the limit; underscores do not. A longer numeral raises `ValueError`.
  - `datetime(y, m, 1)` distinguishes the `OverflowError` from the `ValueError`.
  - Every exception that escapes a route goes to the global handler, which answers 500.

Modules, in dependency order:

| file | module | models |
|---|---|---|
| `options.dfy` | `Options` | optional values |
| `text.dfy` | `Text` | decimal numerals and zero padding, `split`, `partition`, `strip`, Python `int()`, lexicographic order |
| `calendar.dfy` | `Calendar` | Gregorian dates, day arithmetic, instants, `YYYY-MM-DD` and `YYYY-MM` text, `strptime` |
| `view_state.dfy` | `FilterView` | the page state, its handlers, the end-date effect, the invariants |
| `incidents_query.dfy` | `IncidentsQuery` | the `fecha` parameter, the prediction flag, the request URL |
| `records.dfy` | `Records` | incident rows and JSON values |
| `feedback_client.dfy` | `FeedbackClient` | the feedback payload, the risk badge class |
| `incidents_route.dfy` | `IncidentsRoute` | query-string reading, parameter validation and routing of `/incidentes` |
| `predicted_incidents.dfy` | `PredictedIncidents` | one generated incident, per-day expansion, counts |
| `key_sort.dfy` | `KeySort` | the sort by (`fecha`, `hora`) |
| `predictor.dfy` | `Predictor` | the generator as written and corrected, week and month days, shape lemmas |
| `feedback_server.dfy` | `FeedbackServer` | validation and storage in `/retroalimentacion` |
| `incidents_server.dfy` | `IncidentsServer` | the whole `/incidentes` reply, as written and corrected |
| `client_server.dfy` | `ClientServer` | the page's requests as the service reads them |

## Model

| member | source | states |
|---|---|---|
| FilterView.OnPeriodChange | nombre-del-proyecto/src/pages/Delegations.jsx:104-110 | a period change sets the period, clears the date, end date, month and year, and keeps the district |
| FilterView.OnDateChange | nombre-del-proyecto/src/pages/Delegations.jsx:79-88 | a valid pick stores the date and empties the month and year; an invalid pick leaves every field unchanged |
| FilterView.OnMonthChange | nombre-del-proyecto/src/pages/Delegations.jsx:90-93 | a month pick stores the month and clears the date; year, period, district and end date are unchanged |
| FilterView.OnYearChange | nombre-del-proyecto/src/pages/Delegations.jsx:95-98 | a year pick stores the year and clears the date; month, period, district and end date are unchanged |
| FilterView.OnDistrictClick | nombre-del-proyecto/src/pages/Delegations.jsx:100-102 | selecting a district changes nothing else |
| FilterView.YearOptions | nombre-del-proyecto/src/pages/Delegations.jsx:132-136 | six years, the first the current one, each one more than the previous |
| FilterView.YearOptionsAreValues | nombre-del-proyecto/src/pages/Delegations.jsx:237-240 | each year option, as the text the selector emits, is a four-digit year (for current years 1000–9994) |
| FilterView.MonthOptionsAreValues | nombre-del-proyecto/src/pages/Delegations.jsx:250-253 | the i-th month option is month i+1 zero-padded to two digits, a value between 01 and 12 |
| FilterView.YearValueRange | nombre-del-proyecto/src/pages/Delegations.jsx:233-238 | a non-empty year value names a year from 1000 to 9999 |
| FilterView.WeekEnd | nombre-del-proyecto/src/pages/Delegations.jsx:69-77 | an end date exists iff the period is week and a date is set; it is a valid date after the start |
| FilterView.WeekEndSixDaysLater | nombre-del-proyecto/src/pages/Delegations.jsx:71-73 | the end date's day number is the start's plus exactly six |
| FilterView.EndDateEffect | nombre-del-proyecto/src/pages/Delegations.jsx:69-77 | the effect changes only the end date; when the date or period changed it sets the derived end date |
| FilterView.Handle | nombre-del-proyecto/src/pages/Delegations.jsx:79-110 | only a district click changes the district and only a period choice the period; only a period choice touches the end date, clearing it; a changed date is cleared or is the pick; date-excludes-month is preserved |
| FilterView.Step | nombre-del-proyecto/src/pages/Delegations.jsx:69-110 | a handler and then the effect keep the dates valid; the effect changes only the end date; a stored pick sets the date and its derived end date |
| FilterView.InitialCoherent | nombre-del-proyecto/src/pages/Delegations.jsx:12-20 | the initial state satisfies the invariant |
| FilterView.StepKeepsCoherent | nombre-del-proyecto/src/pages/Delegations.jsx:79-110 | every handler followed by the effect preserves "date set implies month and year empty" and "end date is the derived one", for every event |
| FilterView.StepKeepsReachable | nombre-del-proyecto/src/pages/Delegations.jsx:229-291 | events the page offers also keep month/year out of day and week view, keep the date out of month view, and keep selector values well formed |
| FilterView.Run | nombre-del-proyecto/src/pages/Delegations.jsx:79-110 | any sequence of offered events from a reachable state ends in a reachable state |
| FilterView.RunFromInitial | nombre-del-proyecto/src/pages/Delegations.jsx:12-110 | after any events from the initial state, a date never coexists with a month or year, and the end date exists iff week view has a date and is then six days later |
| IncidentsQuery.MonthStart | nombre-del-proyecto/src/pages/Delegations.jsx:48-49 | the picked year and month name the first day of a month in years 1–9999 |
| IncidentsQuery.DateParam | nombre-del-proyecto/src/pages/Delegations.jsx:36-43 | `YYYY-MM` of the picked month in month view with both picked; otherwise text that parses back to the picked date; otherwise empty |
| IncidentsQuery.IsPrediction | nombre-del-proyecto/src/pages/Delegations.jsx:46-51 | nothing picked is never a prediction; a date after today is one; a month pick is one only if it is a later month than now's |
| IncidentsQuery.MonthPredictionIsLaterMonth | nombre-del-proyecto/src/pages/Delegations.jsx:46-51 | a picked month is a prediction iff it is a later month than now's, so the current month never is |
| IncidentsQuery.DatePredictionIsLaterDay | nombre-del-proyecto/src/pages/Delegations.jsx:46-51 | a picked date is a prediction iff it is a later day than today |
| IncidentsQuery.IncidentsEffect | nombre-del-proyecto/src/pages/Delegations.jsx:33-55 | no request without a district; otherwise a request to the incidents endpoint carrying the prediction flag |
| IncidentsQuery.StepWithFetch | nombre-del-proyecto/src/pages/Delegations.jsx:33-66 | a request is issued iff a district is selected and an input of the effect changed (a stored date pick always counts), and it is the effect's request for the new state |
| IncidentsQuery.ScenarioDayRequest | nombre-del-proyecto/src/pages/Delegations.jsx:53-55 | district 3, day view, 2025-01-10 gives `delegacion_id=3&fecha=2025-01-10&periodo=day` |
| IncidentsQuery.ScenarioMonthParam | nombre-del-proyecto/src/pages/Delegations.jsx:39-40 | year 2025 and month 03 in month view give `2025-03` |
| FeedbackClient.RiskLevelId | nombre-del-proyecto/src/pages/Delegations.jsx:153-156 | `Medio` maps to 2, `Alto` to 3, every other name to 1 |
| FeedbackClient.FeedbackHora | nombre-del-proyecto/src/pages/Delegations.jsx:148-164 | the posted time always ends in `:00` |
| FeedbackClient.FeedbackHoraAppendsSeconds | nombre-del-proyecto/src/pages/Delegations.jsx:148-164 | `H:M` becomes `H:M:00` |
| FeedbackClient.FeedbackHoraDropsSeconds | nombre-del-proyecto/src/pages/Delegations.jsx:148-164 | `H:M:S` becomes `H:M:00` |
| FeedbackClient.BuildFeedback | nombre-del-proyecto/src/pages/Delegations.jsx:145-167 | nothing without a selected incident; otherwise id, type, place and date copied, the district's id, the answer, the time rewritten with `:00` seconds, and the risk id following the name in both directions |
| FeedbackClient.PayloadJson | nombre-del-proyecto/src/pages/Delegations.jsx:158-174 | the posted body is an object whose keys are exactly the seven fields the service requires plus `confirmado`; the id, date, time and answer are posted as given |
| FeedbackClient.ScenarioHighRisk | nombre-del-proyecto/src/pages/Delegations.jsx:155-156 | an `Alto` incident is posted with risk id 3 |
| FeedbackClient.RiskBadgeClass | nombre-del-proyecto/src/pages/Delegations.jsx:118-129 | each of danger, warning and success maps to its own class and back; every other code gets `bg-secondary` |
| Calendar.DaysInMonthText | Pyhton/app.py:480-488 | the text rule gives 28–31 days, and 31 for every string other than the five it names |
| Calendar.DaysInMonthTextAgrees | Pyhton/app.py:480-488 | on two-digit month strings the text rule equals the Gregorian month length |
| Calendar.AddDays | Pyhton/app.py:464-465 | adding days gives a valid date, strictly later when the count is positive |
| Calendar.AddDaysOrdinal | nombre-del-proyecto/src/pages/Delegations.jsx:71-72 | adding n days adds exactly n to the day number |
| Calendar.StartsAfter | Pyhton/app.py:153-154 | midnight of a day is after now iff the day is later than today |
| Calendar.ParseIsoDate | Pyhton/app.py:147-150 | an accepted text is 8 to 10 characters, starts with four digits and `-` that give the year, and names a date in years 1–9999 |
| Calendar.ParseFormatIsoDate | Pyhton/app.py:587 | the `YYYY-MM-DD` text of a date parses back to it under `%Y-%m-%d` |
| Calendar.ParseIsoDateUnpadded | Pyhton/app.py:148 | `%Y-%m-%d` accepts unpadded fields: `2025-1-5` |
| Calendar.ParseIsoDateRejectsFeb30 | Pyhton/app.py:147-150 | `2025-02-30` is refused |
| Text.PyInt | Pyhton/app.py:133 | blank text is refused, and so are a plain numeral of more than 4300 digits and text that starts with a separator U+001C–U+001F, which `int()` does not skip |
| Text.PyIntOfDigits | Pyhton/app.py:133 | `int()` of a decimal numeral of 1 to 4300 digits, leading zeros included, is its value |
| Text.PyIntTooLong | Pyhton/app.py:133 | a numeral of more than 4300 digits is refused, whatever its value |
| Text.Split | Pyhton/app.py:133 | at least one part, no part contains the separator, and joining the parts with it gives the text back |
| Text.Strip | Pyhton/app.py:127 | the result is the infix left after removing leading and trailing `str.isspace` whitespace, and it neither starts nor ends with such whitespace |
| Text.StripIdeographicSpace | Pyhton/app.py:127 | the ideographic space U+3000 alone strips to the empty string, so a `fecha` of only U+3000 is blank |
| Text.StripIdempotent | Pyhton/app.py:127 | stripping twice is stripping once |
| IncidentsRoute.Pairs | Pyhton/app.py:117-119 | one pair per non-empty piece; keys contain no `=`; pieces free of `&` give keys and values free of `&` |
| IncidentsRoute.ArgsOf | Pyhton/app.py:117-119 | an empty query has none of the three arguments; every value read contains no `&` |
| IncidentsRoute.Lookup | Pyhton/app.py:117-119 | a key's value is present iff some pair has the key, and it is the first value given for it: no earlier pair has the key |
| IncidentsRoute.ArgsOfThree | Pyhton/app.py:117-119 | a query of the three arguments in order, with values free of `&`, reads back as those values |
| IncidentsRoute.ParseMonthParam | Pyhton/app.py:131-136 | an accepted month parameter splits into exactly two parts and names year 1–9999 and month 1–12 |
| IncidentsRoute.ParseMonthKey | Pyhton/app.py:131-136 | `YYYY-MM` of a year and month is accepted as that year and month |
| IncidentsRoute.MonthOfNumbers | Pyhton/app.py:133-134 | the first of the month is built exactly when both parts parsed as integers in range 1–9999 and 1–12, and then from those integers |
| IncidentsRoute.ParseMonthDigits | Pyhton/app.py:133-134 | any two numerals of at most 4300 digits, joined by `-`, whose values are a valid year and month are accepted as that year and month |
| IncidentsRoute.ParseMonthOverflow | Pyhton/app.py:133-135 | a month numeral of at most 4300 digits beyond the C `int` range raises instead of being refused |
| IncidentsRoute.ParseMonthSeparatorRefused | Pyhton/app.py:133-136 | a month written `YYYY-` followed by a separator U+001C–U+001F and the month digits is a format error (400) |
| IncidentsRoute.ParseMonthTooManyDigits | Pyhton/app.py:133-136 | a year or month numeral of more than 4300 digits is a format error (400), whatever its value |
| IncidentsRoute.RouteIncidents | Pyhton/app.py:116-154 | 400 for a missing or empty district iff so; the unknown-period branch iff the period is not day, week or month; with a district, a month request is refused with the month-format message iff its `fecha` (the current month when blank) does not give a valid year and month, and crashes iff `datetime` overflows; a day or week request is refused with the date-format message iff its `fecha` (today when blank) fails `%Y-%m-%d`; a prediction carries the district and period, and its day or first month day is after today |
| IncidentsRoute.BlankDateReadsHistory | Pyhton/app.py:126-145 | without `fecha` a known period reads history: today and the current month are never in the future |
| IncidentsRoute.DateRoute | Pyhton/app.py:142-154 | a parsable day or week date goes to prediction iff it is after today, else to that date's history query |
| IncidentsRoute.MonthRoute | Pyhton/app.py:126-140 | a `YYYY-MM` month goes to prediction iff its first day is after today, else to that month's history query |
| PredictedIncidents.FormatHora | Pyhton/app.py:584 | the time is two digits, `:`, two digits |
| PredictedIncidents.ParseFormatHora | Pyhton/app.py:584 | the time text reads back as the hour and minute |
| PredictedIncidents.HoraOrder | Pyhton/app.py:584 | text order of two times is chronological order |
| PredictedIncidents.PredictionId | Pyhton/app.py:581 | the id is ten characters, `pred-` then digits |
| PredictedIncidents.PredictionIdNumber | Pyhton/app.py:581 | the digits of the id are the drawn number |
| PredictedIncidents.MakeIncident | Pyhton/app.py:580-589 | a generated incident is a prediction, its id starts with `pred-`, its date and time read back as the drawn ones, and its risk name and colour come from the drawn level |
| PredictedIncidents.DayIncidents | Pyhton/app.py:453-460 | one incident per draw, all on the given date |
| PredictedIncidents.TotalBounds | Pyhton/app.py:450-501 | with lo..hi draws per day, the total is between lo and hi times the number of days |
| PredictedIncidents.Expand | Pyhton/app.py:462-474 | the expansion has one incident per draw, each on one of the given dates |
| PredictedIncidents.ExpandCount | Pyhton/app.py:462-474 | for distinct dates, each date has exactly as many incidents as draws planned for it |
| PredictedIncidents.ExpandCountAbsent | Pyhton/app.py:462-474 | a date not in the list has no incidents |
| PredictedIncidents.FormatIsoDateInjective | Pyhton/app.py:587 | different dates have different texts |
| PredictedIncidents.ExpandRisks | Pyhton/app.py:566-578 | every generated risk name and colour is a row of the risk table |
| KeySort.Insert | Pyhton/app.py:507 | inserting into a sorted list keeps it sorted and adds exactly the element |
| KeySort.SortByKey | Pyhton/app.py:507 | the result is sorted by (`fecha`, `hora`) and is a permutation of the input |
| KeySort.SortCount | Pyhton/app.py:507 | sorting keeps the number of incidents on every date |
| KeySort.DateTextOrder | Pyhton/app.py:507 | text order of `YYYY-MM-DD` is chronological order |
| KeySort.KeyOrderIsChronological | Pyhton/app.py:507 | the sort key orders generated incidents by date, then hour, then minute |
| Predictor.WeekDates | Pyhton/app.py:464-465 | seven dates starting at the base date, all in range |
| Predictor.WeekDaysInRange | Pyhton/app.py:464-465 | when the sixth day after the base stays within year 9999, all seven days are in range |
| Predictor.WeekDatesConsecutive | Pyhton/app.py:464-465 | the week's dates are base+0..base+6 by day number, each the next day of the previous, all distinct |
| Predictor.MonthDates | Pyhton/app.py:491-492 | as many dates as the month has days, all in range |
| Predictor.MonthDatesAreTheMonth | Pyhton/app.py:491-492 | a date is listed iff it is a day of that year and month; the list is strictly increasing |
| Predictor.MonthDatesAsWritten | Pyhton/app.py:478-492 | the expansion keyed on the month text succeeds iff the text rule gives no more days than the month has, and then lists that many days |
| Predictor.MonthDatesAsWrittenPadded | Pyhton/app.py:480-492 | with the two-digit month text it lists exactly the month's days |
| Predictor.UnpaddedFebruaryFails | Pyhton/app.py:480-492 | with month text `2` in 2025 it fails, since 31 days are asked of February |
| Predictor.UnpaddedFebruaryParses | Pyhton/app.py:131-136 | the route accepts `2025-2` as February 2025 |
| Predictor.Generate | Pyhton/app.py:448-507 | the generated list is sorted, has one incident per planned draw, each a prediction on one of the dates |
| Predictor.GenerateCount | Pyhton/app.py:448-507 | for distinct dates, each date has exactly its planned number of incidents |
| Predictor.GenerateRisks | Pyhton/app.py:566-578 | every generated risk comes from the table |
| Predictor.IsoDateHasThreeParts | Pyhton/app.py:478 | a string that `%Y-%m-%d` accepts splits at `-` into at least three parts |
| Predictor.MonthPredictionAlwaysFails | Pyhton/app.py:447-478 | as written, a month prediction is never produced: 404 for an unknown district, an exception otherwise |
| Predictor.MonthKeyDoesNotParse | Pyhton/app.py:447 | a month parameter the route accepts is refused by `%Y-%m-%d` |
| Predictor.SpanDates | Pyhton/app.py:450-492 | a span's days are in range and at most 31; only a week past year 9999 has none |
| Predictor.Predict | Pyhton/app.py:369-509 | 404 iff connected and the district is missing; a found district with an unparsable `fecha` raises; for day and week with a parsable `fecha`, incidents iff the risk table is non-empty and, for a week, its last day is within year 9999; any list is sorted and made of predictions with parsable dates |
| Predictor.CorrectedPredict | Pyhton/app.py:369-509 | incidents iff connected, district found, risk table non-empty and the days exist; 404 iff connected and the district is missing; the incidents sorted |
| Predictor.CorrectedAgreesOnDayAndWeek | Pyhton/app.py:447-474 | for day and week the corrected generator answers exactly as the generator as written |
| Predictor.DayShape | Pyhton/app.py:450-460 | a day prediction has 3 to 8 incidents, all on the base date, with risks from the table |
| Predictor.WeekShape | Pyhton/app.py:462-474 | a week prediction has 14 to 42 incidents, 2 to 6 on each of the seven days, all within base..base+6 |
| Predictor.WeekCounts | Pyhton/app.py:462-474 | each day of the week has exactly its planned number of incidents |
| Predictor.MonthShape | Pyhton/app.py:476-501 | a month prediction has n to 5n incidents for an n-day month, 1 to 5 on each day, all in that month |
| FeedbackServer.FirstMissing | Pyhton/app.py:600-603 | no index iff every name is present; otherwise the first absent name in order |
| FeedbackServer.RegisterFeedback | Pyhton/app.py:594-649 | 400 "Datos inválidos" iff the body is falsy or not an object; a non-empty object lacking a required field is refused naming the first one missing in checking order; the not-a-prediction refusal iff every field is there and the id is text not starting with `pred-`; stored iff all seven fields are present, the id is text starting with `pred-`, the connection and the insert succeed and the retraining call returns; the stored row keeps the id and defaults `confirmado` to true |
| FeedbackServer.StoreComplete | Pyhton/app.py:604-644 | with every field present: the not-a-prediction refusal iff the id is text not starting with `pred-`, and no other refusal; an exception iff the id is not text or the connection fails; a registration error only after connecting, marked committed iff the insert went through; stored iff the id is text starting with `pred-`, the connection and the insert succeed and the retraining call returns; the row keeps the posted id and `confirmado` defaults to true |
| FeedbackServer.FirstMissingFieldNamed | Pyhton/app.py:600-603 | a body lacking `tipo` and `hora` is told about `tipo` |
| FeedbackServer.NumericIdCrashes | Pyhton/app.py:606 | a numeric `incidente_id` raises, answering 500 |
| IncidentsServer.Status | Pyhton/app.py:115-243 | the status is 200 exactly for a list or history rows |
| IncidentsServer.OutcomeReply | Pyhton/app.py:380-383 | the reply lists incidents iff the generator produced some |
| IncidentsServer.ReadHistory | Pyhton/app.py:156-243 | rows iff the route reads history and the connection and query succeed; an unknown period gives 400 only once connected |
| IncidentsServer.Serve | Pyhton/app.py:115-243 | every reply is 200, 400, 404 or 500; a list only for a prediction route and rows only for a history route |
| IncidentsServer.SpanOf | Pyhton/app.py:126-154 | a prediction route names a valid span of the same period |
| IncidentsServer.CorrectedServe | Pyhton/app.py:115-243 | the corrected service differs from the service as written only on prediction routes |
| IncidentsServer.FutureMonthNeverListed | Pyhton/app.py:139-140 | a future `YYYY-MM` request answers 404 for an unknown district and 500 otherwise |
| IncidentsServer.FutureMonthListedWhenCorrected | Pyhton/app.py:139-140 | with the corrected generator, a future month with a known district and a risk table is listed |
| ClientServer.ClientArgsReadBack | nombre-del-proyecto/src/pages/Delegations.jsx:53-55 | the service reads the page's district id, date parameter and period name back from its request |
| ClientServer.ClientRouteAgrees | nombre-del-proyecto/src/pages/Delegations.jsx:36-54 | every request a reachable page sends is accepted, and the service predicts iff the page labels the result a prediction |
| ClientServer.FutureMonthView | nombre-del-proyecto/src/pages/Delegations.jsx:48-54 | a future month is flagged as a prediction by the page, but the service never lists it; the corrected service does |
| ClientServer.PredictionFeedbackStored | nombre-del-proyecto/src/pages/Delegations.jsx:145-174 | feedback on a generated prediction, when the connection and the insert succeed and the retraining call returns, is stored with the prediction's id, date, time plus `:00` and the user's answer |

## Left out

- Database contents and SQL: history rows are represented by the query they come from (`HistoryQuery`), not by rows. Connecting, the history queries, the feedback insert and whether the retraining call after a stored feedback returns are oracle flags.
- `get_db_connection` (in `conexion.py`, outside this model) raises when it cannot connect. The explicit "No se pudo conectar" branches in `app.py` are therefore unreachable, and a failed connection is a 500 through the global handler. The status is the same either way.
- Model training and inference (`entrenar_modelo`, `cargar_o_entrenar_modelo`, pickle files, pandas): the risk level of a draw is any row of the risk table.
- Random distributions: the weighted hour and type choices and `random.choice` of a place are drawn values. Only their ranges are modelled, not their probabilities. The type and place lists themselves are not modelled.
- Flask, CORS, content types and `request.json` parsing: the feedback body arrives as an already-decoded JSON value.
- Percent-decoding and `+` handling of the query string. Query values are read literally; the page's values contain neither.
- Response message texts of exceptions (`str(e)`, the traceback): an exception is `Crashed`, `Crash` or `ServerError`.
- JavaScript `Date` behaviour: time zones, `toISOString`'s shift to UTC, `new Date(string)` parsing and `toLocaleDateString`. Dates are calendar triples, and the page and the service share one "now".
- FilterView.OnDateChange: an invalid pick is any triple outside the `datetime` range, not an unparsable input string.
- Years outside 1–9999: Python's `datetime` cannot hold them, and the page treats a pick beyond year 9999 as an invalid pick (the date input sets only a lower bound; whether `new Date` reads a longer year depends on the browser).
- Calendar.ParseIsoDate: `strptime`'s `\d` also accepts non-ASCII decimal digits (Arabic-Indic `٢٠٢٥-01-1٠`, for instance). The model accepts ASCII digits only, so it refuses such text with 400 where the service accepts it.
- Text.PyInt: `int()` also reads non-ASCII decimal digits. The model refuses them, so a month written with them is a 400 in the model.
- IncidentsRoute.RouteIncidents: its clock (`Calendar.ValidInstant`) is read only from year 1000 on, and so for `BlankDateReadsHistory` and the rest of the route lemmas. Below that year `strftime("%Y")` writes an unpadded year on glibc and a padded one elsewhere, so the blank `fecha` default is platform-dependent there.
- Calendar.FormatIsoDate: always writes a four-digit year, which is `strftime("%Y")` only from year 1000 on. Dates the route predicts are after a clock from year 1000 on; the generator's own shape lemmas, stated for any date, would differ from glibc's text for earlier years.
- KeySort.SortByKey: proved sorted and a permutation, but not stable. Python's sort is stable; among incidents with equal (`fecha`, `hora`) the order is not stated.
- IncidentsServer.Serve: its contract states only the status set and which routes can list or read history. The particular outcomes are stated by `FutureMonthNeverListed`, `ClientRouteAgrees` and the shape lemmas.
- FeedbackClient.PayloadJson: its contract states the key set and the values of the id, date, time and answer. The other values are stated through `PredictionFeedbackStored`.
- Predictor.Predict: once connected, the generator's district, type, place and risk-level queries (app.py:377, 397, 413, 440) and the model-loading call that may retrain (app.py:386, reaching `entrenar_modelo`'s own connection) are taken to succeed. Their raise, which the service answers with 500, is not modelled; only the connection itself is a flag.
- Rendering, the list of districts, the other pages, the stale-response race between overlapping requests, and the 3-second reset of the feedback form: presentation, timing and concurrency.
- The float JSON of historical rows, and the other endpoints of `app.py` (statistics, migration, risk zones).

## Findings

| source | as written | input that shows it | evidently intended | confidence | as-written member | corrected member |
|---|---|---|---|---|---|---|
| Pyhton/app.py:447 | the generator parses `fecha` with `"%Y-%m-%d"` before it dispatches on period, but the month route passes `YYYY-MM`; and a full date would split into three parts at line 478 | `delegacion_id=1&fecha=2099-05&periodo=month` for a known district: 500 instead of a list | a month prediction lists every day of the requested month with 1–5 incidents each | not executed | Predictor.MonthPredictionAlwaysFails | Predictor.MonthShape |
| Pyhton/app.py:480-492 | the month length is chosen by comparing the month text with `"02"`, `"04"`, `"06"`, `"09"`, `"11"`; the route accepts an unpadded month, which then gets 31 days | `fecha=2025-2` (once line 447 is fixed): `datetime(2025, 2, 29)` raises | the month length follows the month number | not executed | Predictor.UnpaddedFebruaryFails | Predictor.MonthDatesAreTheMonth |

The page's incidents request is issued only while a district is selected, which `StepWithFetch` states. A repeated pick of the same date is stored as a new object and also triggers a request.
