/** The incidents the predictor makes up: one per set of random draws,
    each a record with a `pred-NNNNN` id, the drawn type, place, time and
    risk level, the day it is for, and the prediction flag; and the flat
    list of them over a run of days. */
module PredictedIncidents {
  import opened Options
  import opened Text
  import opened Calendar
  import opened Records

  type Hour = h: int | 0 <= h <= 23
  type Minute = m: int | 0 <= m <= 59

  /** The range of `random.randint(10000, 99999)`. */
  type IdNumber = n: int | 10000 <= n <= 99999 witness 10000

  /** A row of the risk-level table. */
  datatype RiskLevel = RiskLevel(id: int, nombre: string, codigoColor: string)

  /** What one generated incident draws at random: a type and a place
      from the district's lists, an hour and a minute, a risk level (from
      the trained model or at random, either way a row of the table) and
      the number in its id. */
  datatype Draw = Draw(tipo: string, ubicacion: string, hour: Hour, minute: Minute,
                       risk: RiskLevel, idNumber: IdNumber)

  /** `f"{hour:02d}:{minute:02d}"`. */
  function FormatHora(h: Hour, m: Minute): (s: string)
    ensures |s| == 5 && s[2] == ':' && AllDigits(s[..2]) && AllDigits(s[3..])
  {
    var hh, mm := ZeroPad(h, 2), ZeroPad(m, 2);
    assert (hh + ":" + mm)[..2] == hh && (hh + ":" + mm)[3..] == mm;
    hh + ":" + mm
  }

  /** Reading an `HH:MM` time back. */
  function ParseHora(s: string): (r: Option<(int, int)>)
    ensures r.Some? ==> 0 <= r.value.0 < 100 && 0 <= r.value.1 < 100
  {
    if |s| == 5 && AllDigits(s[..2]) && s[2] == ':' && AllDigits(s[3..]) then
      NumberOfBound(s[..2]);
      NumberOfBound(s[3..]);
      Some((NumberOf(s[..2]), NumberOf(s[3..])))
    else None
  }

  lemma ParseFormatHora(h: Hour, m: Minute)
    ensures ParseHora(FormatHora(h, m)) == Some((h, m))
  {
    var s := FormatHora(h, m);
    assert s[..2] == ZeroPad(h, 2) && s[3..] == ZeroPad(m, 2);
    ZeroPadValue(h, 2);
    ZeroPadValue(m, 2);
  }

  /** Times sort as text exactly as they sort in time. */
  lemma HoraOrder(h1: Hour, m1: Minute, h2: Hour, m2: Minute)
    ensures LexLess(FormatHora(h1, m1), FormatHora(h2, m2)) <==> h1 < h2 || (h1 == h2 && m1 < m2)
  {
    var a, b := ZeroPad(h1, 2), ZeroPad(h2, 2);
    assert FormatHora(h1, m1) == a + (":" + ZeroPad(m1, 2));
    assert FormatHora(h2, m2) == b + (":" + ZeroPad(m2, 2));
    LexLessConcat(a, ":" + ZeroPad(m1, 2), b, ":" + ZeroPad(m2, 2));
    LexLessConcat(":", ZeroPad(m1, 2), ":", ZeroPad(m2, 2));
    ZeroPadOrder(h1, h2, 2);
    ZeroPadOrder(m1, m2, 2);
    if a == b {
      ZeroPadInjective(h1, h2, 2);
    }
  }

  /** `f"pred-{n}"` for a five-digit `n`. */
  function PredictionId(n: IdNumber): (s: string)
    ensures |s| == 10 && StartsWith(s, "pred-") && AllDigits(s[5..])
  {
    DecIsZeroPad5(n);
    assert ("pred-" + Dec(n))[..5] == "pred-" && ("pred-" + Dec(n))[5..] == Dec(n);
    "pred-" + Dec(n)
  }

  /** The number after `pred-` reads back as the drawn number. */
  lemma PredictionIdNumber(n: IdNumber)
    ensures NumberOf(PredictionId(n)[5..]) == n
  {
    assert PredictionId(n)[5..] == Dec(n);
    DecValue(n);
  }

  /** One generated incident for `date`. Its date and time read back as
      the day and the drawn time, its id carries the `pred-` prefix, and
      its risk name and colour are the drawn level's. */
  function MakeIncident(date: Date, draw: Draw): (x: Incident)
    requires InDatetimeRange(date)
    ensures x.esPrediccion
    ensures x.id.TextId? && StartsWith(x.id.text, "pred-")
    ensures ParseIsoDate(x.fecha) == Some(date)
    ensures ParseHora(x.hora) == Some((draw.hour, draw.minute))
    ensures x.riesgo == draw.risk.nombre && x.codigoColor == draw.risk.codigoColor
  {
    ParseFormatIsoDate(date);
    ParseFormatHora(draw.hour, draw.minute);
    Incident(TextId(PredictionId(draw.idNumber)), draw.tipo, draw.ubicacion,
             FormatHora(draw.hour, draw.minute), draw.risk.nombre, draw.risk.codigoColor,
             FormatIsoDate(date), true)
  }

  /** The incidents drawn for one day, in draw order. */
  function DayIncidents(date: Date, draws: seq<Draw>): (r: seq<Incident>)
    requires InDatetimeRange(date)
    ensures |r| == |draws|
    ensures forall j :: 0 <= j < |r| ==> r[j] == MakeIncident(date, draws[j])
  {
    seq(|draws|, j requires 0 <= j < |draws| => MakeIncident(date, draws[j]))
  }

  /** The number of draws in a plan. */
  function Total(plan: seq<seq<Draw>>): nat {
    if |plan| == 0 then 0 else |plan[0]| + Total(plan[1..])
  }

  /** With between `lo` and `hi` draws each day, the total is between
      `lo` and `hi` times the number of days. */
  lemma {:induction false} TotalBounds(plan: seq<seq<Draw>>, lo: nat, hi: nat)
    requires forall i :: 0 <= i < |plan| ==> lo <= |plan[i]| <= hi
    ensures lo * |plan| <= Total(plan) <= hi * |plan|
  {
    if |plan| > 0 {
      TotalBounds(plan[1..], lo, hi);
    }
  }

  predicate AllInRange(dates: seq<Date>) {
    forall i :: 0 <= i < |dates| ==> InDatetimeRange(dates[i])
  }

  /** The incidents of consecutive days, each day's draws in turn, in the
      order the generator appends them. */
  function Expand(dates: seq<Date>, plan: seq<seq<Draw>>): (r: seq<Incident>)
    requires |dates| == |plan| && AllInRange(dates)
    ensures |r| == Total(plan)
    ensures forall k :: 0 <= k < |r| ==>
      r[k].esPrediccion && ParseIsoDate(r[k].fecha).Some? && ParseIsoDate(r[k].fecha).value in dates
  {
    if |dates| == 0 then []
    else
      var head := DayIncidents(dates[0], plan[0]);
      var tail := Expand(dates[1..], plan[1..]);
      assert forall k :: 0 <= k < |tail| ==> ParseIsoDate(tail[k].fecha).value in dates;
      head + tail
  }

  /** How many incidents carry the date text `f`. */
  function CountFecha(s: seq<Incident>, f: string): (n: nat)
    ensures n <= |s|
  {
    if |s| == 0 then 0 else (if s[0].fecha == f then 1 else 0) + CountFecha(s[1..], f)
  }

  lemma {:induction false} CountFechaConcat(a: seq<Incident>, b: seq<Incident>, f: string)
    ensures CountFecha(a + b, f) == CountFecha(a, f) + CountFecha(b, f)
  {
    if |a| > 0 {
      assert (a + b)[1..] == a[1..] + b;
      CountFechaConcat(a[1..], b, f);
    } else {
      assert a + b == b;
    }
  }

  lemma {:induction false} CountDay(date: Date, draws: seq<Draw>, f: string)
    requires InDatetimeRange(date)
    ensures CountFecha(DayIncidents(date, draws), f) == if FormatIsoDate(date) == f then |draws| else 0
  {
    if |draws| > 0 {
      var r := DayIncidents(date, draws);
      assert r[1..] == DayIncidents(date, draws[1..]);
      CountDay(date, draws[1..], f);
    }
  }

  /** Dates in range have distinct text forms. */
  lemma FormatIsoDateInjective(a: Date, b: Date)
    requires InDatetimeRange(a) && InDatetimeRange(b) && FormatIsoDate(a) == FormatIsoDate(b)
    ensures a == b
  {
    ParseFormatIsoDate(a);
    ParseFormatIsoDate(b);
  }

  /** A day's incidents carry another in-range date's text as often as
      that day had draws if it is the same date, and never otherwise. */
  lemma CountDayOf(date: Date, draws: seq<Draw>, other: Date)
    requires InDatetimeRange(date) && InDatetimeRange(other)
    ensures CountFecha(DayIncidents(date, draws), FormatIsoDate(other))
         == if date == other then |draws| else 0
  {
    CountDay(date, draws, FormatIsoDate(other));
    if FormatIsoDate(date) == FormatIsoDate(other) {
      FormatIsoDateInjective(date, other);
    }
  }

  /** Over distinct days, each day's date text occurs exactly as many
      times as that day had draws. */
  lemma {:induction false} ExpandCount(dates: seq<Date>, plan: seq<seq<Draw>>, k: nat)
    requires |dates| == |plan| && AllInRange(dates) && k < |dates|
    requires forall i, j :: 0 <= i < j < |dates| ==> dates[i] != dates[j]
    ensures CountFecha(Expand(dates, plan), FormatIsoDate(dates[k])) == |plan[k]|
  {
    DistinctRest(dates, k);
    if k == 0 {
      ExpandCountHead(dates, plan);
    } else {
      ExpandCount(dates[1..], plan[1..], k - 1);
      ExpandCountStep(dates, plan, k);
    }
  }

  /** The first day's text occurs only in the first day's incidents. */
  lemma ExpandCountHead(dates: seq<Date>, plan: seq<seq<Draw>>)
    requires |dates| == |plan| && AllInRange(dates) && |dates| > 0 && dates[0] !in dates[1..]
    ensures CountFecha(Expand(dates, plan), FormatIsoDate(dates[0])) == |plan[0]|
  {
    ExpandFirst(dates, plan, FormatIsoDate(dates[0]));
    CountDayOf(dates[0], plan[0], dates[0]);
    ExpandCountAbsent(dates[1..], plan[1..], dates[0]);
  }

  /** A later day's text occurs no more often than in the later days. */
  lemma ExpandCountStep(dates: seq<Date>, plan: seq<seq<Draw>>, k: nat)
    requires |dates| == |plan| && AllInRange(dates) && 0 < k < |dates| && dates[0] != dates[k]
    requires CountFecha(Expand(dates[1..], plan[1..]), FormatIsoDate(dates[k])) == |plan[k]|
    ensures CountFecha(Expand(dates, plan), FormatIsoDate(dates[k])) == |plan[k]|
  {
    ExpandFirst(dates, plan, FormatIsoDate(dates[k]));
    CountDayOf(dates[0], plan[0], dates[k]);
  }

  lemma DistinctRest(dates: seq<Date>, k: nat)
    requires k < |dates| && forall i, j :: 0 <= i < j < |dates| ==> dates[i] != dates[j]
    ensures forall i, j :: 0 <= i < j < |dates[1..]| ==> dates[1..][i] != dates[1..][j]
    ensures dates[0] !in dates[1..]
    ensures k > 0 ==> dates[1..][k - 1] == dates[k] && dates[0] != dates[k]
  {
    var rest := dates[1..];
    assert forall j :: 0 <= j < |rest| ==> rest[j] == dates[j + 1];
  }

  /** The first day's incidents come first. */
  lemma ExpandFirst(dates: seq<Date>, plan: seq<seq<Draw>>, f: string)
    requires |dates| == |plan| && AllInRange(dates) && |dates| > 0
    ensures CountFecha(Expand(dates, plan), f)
         == CountFecha(DayIncidents(dates[0], plan[0]), f) + CountFecha(Expand(dates[1..], plan[1..]), f)
  {
    var head, tail := DayIncidents(dates[0], plan[0]), Expand(dates[1..], plan[1..]);
    assert Expand(dates, plan) == head + tail;
    CountFechaConcat(head, tail, f);
  }

  /** A date outside the run does not occur in its incidents. */
  lemma {:induction false} ExpandCountAbsent(dates: seq<Date>, plan: seq<seq<Draw>>, d: Date)
    requires |dates| == |plan| && AllInRange(dates) && InDatetimeRange(d) && d !in dates
    ensures CountFecha(Expand(dates, plan), FormatIsoDate(d)) == 0
  {
    if |dates| > 0 {
      ExpandFirst(dates, plan, FormatIsoDate(d));
      CountDayOf(dates[0], plan[0], d);
      ExpandCountAbsent(dates[1..], plan[1..], d);
    }
  }

  /** Every risk name and colour in the output is a row of the table when
      every draw took its level from the table. */
  predicate RiskFromTable(x: Incident, levels: seq<RiskLevel>) {
    exists l :: l in levels && x.riesgo == l.nombre && x.codigoColor == l.codigoColor
  }

  predicate DrawnFromTable(plan: seq<seq<Draw>>, levels: seq<RiskLevel>) {
    forall i, j :: 0 <= i < |plan| && 0 <= j < |plan[i]| ==> plan[i][j].risk in levels
  }

  lemma {:induction false} ExpandRisks(dates: seq<Date>, plan: seq<seq<Draw>>, levels: seq<RiskLevel>)
    requires |dates| == |plan| && AllInRange(dates) && DrawnFromTable(plan, levels)
    ensures forall k :: 0 <= k < |Expand(dates, plan)| ==> RiskFromTable(Expand(dates, plan)[k], levels)
  {
    if |dates| > 0 {
      var head := DayIncidents(dates[0], plan[0]);
      var tail := Expand(dates[1..], plan[1..]);
      ExpandRisks(dates[1..], plan[1..], levels);
      assert forall j :: 0 <= j < |head| ==> plan[0][j].risk in levels;
      assert forall k :: 0 <= k < |head| ==> RiskFromTable(head[k], levels);
      assert Expand(dates, plan) == head + tail;
    }
  }
}
