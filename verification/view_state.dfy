/** The filter controller of the district incident browser: which district
    is selected, the view period, the picked date and the week end date
    derived from it, and the month and year picked in month view. The
    view's state is an immutable record; each handler is a pure
    transition, followed by the end-date effect that re-derives the week
    end whenever the date or the period changed. */
module FilterView {
  import opened Options
  import opened Text
  import opened Calendar

  datatype Period = Day | Week | Month {
    /** The period's name on the wire: `day`, `week` or `month`. */
    function Name(): string {
      match this
      case Day => "day"
      case Week => "week"
      case Month => "month"
    }
  }

  /** A district (delegación) from the district list. */
  datatype District = District(id: nat, name: string)

  datatype ViewState = ViewState(
    district: Option<District>,
    period: Period,
    date: Option<Date>,
    endDate: Option<Date>,
    month: string,
    year: string)

  /** No district, day view, nothing picked. */
  const Initial := ViewState(None, Day, None, None, "", "")

  /** A date the view can hold: a calendar date in years 1 to 9999. */
  predicate Pickable(d: Date) {
    InDatetimeRange(d)
  }

  // ---------------------------------------------------------------------
  // Option values of the month and year selectors
  // ---------------------------------------------------------------------

  /** The month selector's twelve values, `"01"` to `"12"`. */
  function MonthOptions(): (r: seq<string>)
    ensures |r| == 12
  {
    seq(12, i requires 0 <= i => PadStart(Dec(i + 1), 2, '0'))
  }

  /** The year selector's years: six consecutive years starting with the
      current one. */
  function YearOptions(currentYear: int): (r: seq<int>)
    ensures |r| == 6 && r[0] == currentYear
    ensures forall i :: 0 < i < |r| ==> r[i] == r[i - 1] + 1
  {
    seq(6, i => currentYear + i)
  }

  /** A value the month selector can emit: empty, or two digits 01–12. */
  predicate MonthValue(v: string) {
    v == "" || (|v| == 2 && AllDigits(v) && 1 <= NumberOf(v) <= 12)
  }

  /** A value the year selector can emit: empty, or a four-digit year. */
  predicate YearValue(v: string) {
    v == "" || (|v| == 4 && AllDigits(v) && v[0] != '0')
  }

  /** A year value names a year from 1000 to 9999. */
  lemma YearValueRange(v: string)
    requires YearValue(v) && v != ""
    ensures 1000 <= NumberOf(v) <= 9999
  {
    NumberOfBound(v);
    assert v[..3][..2][..1] == v[..1] && v[..1][..0] == "";
    assert v[..3][..2] == v[..2] && v[..2][..1] == v[..1];
    assert NumberOf(v[..1]) == DigitValue(v[0]) >= 1;
    assert NumberOf(v[..2]) >= 10;
    assert NumberOf(v[..3]) >= 100;
  }

  /** Every option of the month selector is a month value. */
  lemma MonthOptionsAreValues(i: int)
    requires 0 <= i < 12
    ensures MonthOptions()[i] == ZeroPad(i + 1, 2)
    ensures MonthValue(MonthOptions()[i])
  {
    PadStartDecIsZeroPad2(i + 1);
    ZeroPadValue(i + 1, 2);
  }

  /** Every option of the year selector is a year value while the current
      year lies between 1000 and 9994. */
  lemma YearOptionsAreValues(currentYear: int, i: int)
    requires 1000 <= currentYear <= 9994 && 0 <= i < 6
    ensures YearValue(Dec(YearOptions(currentYear)[i]))
  {
    var y := currentYear + i;
    DecIsZeroPad4(y);
    var s := ZeroPad(y, 4);
    assert s[0] == ZeroPad(y / 10, 3)[0] == ZeroPad(y / 100, 2)[0] == ZeroPad(y / 1000, 1)[0];
    assert y / 10 / 10 == y / 100 && y / 100 / 10 == y / 1000;
    assert ZeroPad(y / 1000, 1)[0] == DigitChar(y / 1000 % 10);
  }

  // ---------------------------------------------------------------------
  // Handlers
  // ---------------------------------------------------------------------

  /** Changing the period resets the date, the month, the year and the end
      date, and keeps the district. */
  function OnPeriodChange(s: ViewState, p: Period): (r: ViewState)
    ensures r.period == p && r.date == None && r.endDate == None
    ensures r.month == "" && r.year == "" && r.district == s.district
  {
    s.(period := p, date := None, month := "", year := "", endDate := None)
  }

  /** Picking a date stores it and clears the month and the year; a pick
      that is not a date (the constructor's "Invalid Date") changes
      nothing. */
  function OnDateChange(s: ViewState, pick: Date): (r: ViewState)
    ensures Pickable(pick) ==> r == s.(date := Some(pick), month := "", year := "")
    ensures !Pickable(pick) ==> r == s
  {
    if Pickable(pick) then s.(date := Some(pick), month := "", year := "") else s
  }

  /** Picking a month stores it and clears the date; the year stays. */
  function OnMonthChange(s: ViewState, value: string): (r: ViewState)
    ensures r.month == value && r.date == None && r.year == s.year
    ensures r.period == s.period && r.district == s.district && r.endDate == s.endDate
  {
    s.(month := value, date := None)
  }

  /** Picking a year stores it and clears the date; the month stays. */
  function OnYearChange(s: ViewState, value: string): (r: ViewState)
    ensures r.year == value && r.date == None && r.month == s.month
    ensures r.period == s.period && r.district == s.district && r.endDate == s.endDate
  {
    s.(year := value, date := None)
  }

  /** Clicking a district selects it; nothing else changes. */
  function OnDistrictClick(s: ViewState, d: District): (r: ViewState)
    ensures r.district == Some(d) && r.(district := s.district) == s
  {
    s.(district := Some(d))
  }

  // ---------------------------------------------------------------------
  // The end-date effect
  // ---------------------------------------------------------------------

  /** The week end date: the start plus six days in week view with a date
      picked, and nothing otherwise. */
  function WeekEnd(period: Period, date: Option<Date>): (r: Option<Date>)
    requires date.Some? ==> ValidDate(date.value)
    ensures r.Some? <==> period == Week && date.Some?
    ensures r.Some? ==> ValidDate(r.value) && Before(date.value, r.value)
  {
    if period == Week && date.Some? then Some(AddDays(date.value, 6)) else None
  }

  /** The week end lies exactly six days after the start. */
  lemma WeekEndSixDaysLater(period: Period, date: Option<Date>)
    requires date.Some? ==> Pickable(date.value)
    ensures var r := WeekEnd(period, date);
      r.Some? ==> r.value.year >= 1 && Ordinal(r.value) == Ordinal(date.value) + 6
  {
    if period == Week && date.Some? {
      AddDaysOrdinal(date.value, 6);
    }
  }

  predicate DatesValid(s: ViewState) {
    && (s.date.Some? ==> Pickable(s.date.value))
    && (s.endDate.Some? ==> ValidDate(s.endDate.value))
  }

  /** The effect keyed on the date and the period: it runs when either
      changed (a stored pick is always a new object, so `renewed` forces it)
      and replaces the end date by the derived one. */
  function EndDateEffect(prev: ViewState, next: ViewState, renewed: bool): (r: ViewState)
    requires DatesValid(next)
    ensures r.(endDate := next.endDate) == next
    ensures next.date != prev.date || next.period != prev.period || renewed ==>
      r.endDate == WeekEnd(next.period, next.date)
  {
    if next.date != prev.date || next.period != prev.period || renewed then
      next.(endDate := WeekEnd(next.period, next.date))
    else next
  }

  // ---------------------------------------------------------------------
  // Events and steps
  // ---------------------------------------------------------------------

  datatype Event =
    | ClickDistrict(district: District)
    | ChoosePeriod(period: Period)
    | PickDate(pick: Date)
    | PickMonth(value: string)
    | PickYear(value: string)

  /** The handler an event runs, before effects. */
  function Handle(s: ViewState, ev: Event): (r: ViewState)
    ensures r.district == if ev.ClickDistrict? then Some(ev.district) else s.district
    ensures r.period == if ev.ChoosePeriod? then ev.period else s.period
    ensures r.endDate != s.endDate ==> ev.ChoosePeriod? && r.endDate == None
    ensures r.date != s.date ==> r.date.None? || (ev.PickDate? && r.date == Some(ev.pick))
    ensures DateExcludesMonth(s) ==> DateExcludesMonth(r)
  {
    match ev
    case ClickDistrict(d) => OnDistrictClick(s, d)
    case ChoosePeriod(p) => OnPeriodChange(s, p)
    case PickDate(d) => OnDateChange(s, d)
    case PickMonth(v) => OnMonthChange(s, v)
    case PickYear(v) => OnYearChange(s, v)
  }

  /** A date pick that is stored is a new `Date` object, which React's
      dependency check always sees as a change. */
  predicate FreshDate(ev: Event) {
    ev.PickDate? && Pickable(ev.pick)
  }

  /** One user action: the handler, then the end-date effect. */
  function Step(s: ViewState, ev: Event): (r: ViewState)
    requires DatesValid(s)
    ensures DatesValid(r)
    ensures r.(endDate := Handle(s, ev).endDate) == Handle(s, ev)
    ensures r.district == if ev.ClickDistrict? then Some(ev.district) else s.district
    ensures FreshDate(ev) ==> r.date == Some(ev.pick) && r.endDate == WeekEnd(r.period, r.date)
  {
    var next := Handle(s, ev);
    EndDateEffect(s, next, FreshDate(ev))
  }

  // ---------------------------------------------------------------------
  // Invariants
  // ---------------------------------------------------------------------

  /** A picked date never coexists with a picked month or year. */
  predicate DateExcludesMonth(s: ViewState) {
    s.date.Some? ==> s.month == "" && s.year == ""
  }

  /** The end date is the one derived from the date and the period. */
  predicate EndDateDerived(s: ViewState)
    requires DatesValid(s)
  {
    s.endDate == WeekEnd(s.period, s.date)
  }

  predicate Coherent(s: ViewState) {
    DatesValid(s) && DateExcludesMonth(s) && EndDateDerived(s)
  }

  lemma InitialCoherent()
    ensures Coherent(Initial)
  {
  }

  /** Every handler, followed by the effect, keeps the view coherent,
      whatever the event and whether or not the page offers it. */
  lemma StepKeepsCoherent(s: ViewState, ev: Event)
    requires Coherent(s)
    ensures Coherent(Step(s, ev))
  {
  }

  /** The events the page offers in a given state: the month and year
      selectors are shown only in month view and offer only their option
      values; the date input is shown only in day and week view. */
  predicate Enabled(s: ViewState, ev: Event) {
    match ev
    case PickMonth(v) => s.period == Month && MonthValue(v)
    case PickYear(v) => s.period == Month && YearValue(v)
    case PickDate(_) => s.period != Month
    case _ => true
  }

  /** What holds in every state the page can reach: coherence, the month
      and year are set only in month view and the date only outside it,
      and both selector values are well formed. */
  predicate Reachable(s: ViewState) {
    && Coherent(s)
    && (s.period != Month ==> s.month == "" && s.year == "")
    && (s.period == Month ==> s.date == None)
    && MonthValue(s.month)
    && YearValue(s.year)
  }

  lemma StepKeepsReachable(s: ViewState, ev: Event)
    requires Reachable(s) && Enabled(s, ev)
    ensures Reachable(Step(s, ev))
  {
  }

  /** The state after a sequence of offered events. */
  function Run(s: ViewState, evs: seq<Event>): (r: ViewState)
    requires Reachable(s)
    ensures Reachable(r)
    decreases |evs|
  {
    if |evs| == 0 then s
    else if Enabled(s, evs[0]) then
      StepKeepsReachable(s, evs[0]);
      Run(Step(s, evs[0]), evs[1..])
    else Run(s, evs[1..])
  }

  /** From the initial view, whatever the user does, a picked date never
      coexists with a month or year, and the end date is exactly six days
      after the start in week view and absent otherwise. */
  lemma RunFromInitial(evs: seq<Event>)
    ensures Reachable(Initial)
    ensures var r := Run(Initial, evs);
      && DateExcludesMonth(r)
      && (r.endDate.Some? <==> r.period == Week && r.date.Some?)
      && (r.endDate.Some? ==> Ordinal(r.endDate.value) == Ordinal(r.date.value) + 6)
  {
    var r := Run(Initial, evs);
    WeekEndSixDaysLater(r.period, r.date);
  }
}
