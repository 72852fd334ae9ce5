/** `predicciones.sort(key=lambda x: (x['fecha'], x['hora']))`: a stable
    sort of incidents by date text, then time text, both compared as
    strings. */
module KeySort {
  import opened Text
  import opened Calendar
  import opened Records
  import opened PredictedIncidents

  /** The tuple order on `(fecha, hora)`. */
  predicate KeyLess(a: Incident, b: Incident) {
    LexLess(a.fecha, b.fecha) || (a.fecha == b.fecha && LexLess(a.hora, b.hora))
  }

  predicate KeyLessEq(a: Incident, b: Incident) {
    !KeyLess(b, a)
  }

  lemma KeyLessAsymmetric(a: Incident, b: Incident)
    requires KeyLess(a, b)
    ensures KeyLessEq(a, b)
  {
    if LexLess(b.fecha, a.fecha) {
      LexLessTransitive(a.fecha, b.fecha, a.fecha);
      LexLessIrreflexive(a.fecha);
    } else if b.fecha == a.fecha && LexLess(b.hora, a.hora) {
      LexLessIrreflexive(a.fecha);
      LexLessTransitive(a.hora, b.hora, a.hora);
      LexLessIrreflexive(a.hora);
    }
  }

  predicate Sorted(s: seq<Incident>) {
    forall i :: 0 <= i < |s| - 1 ==> KeyLessEq(s[i], s[i + 1])
  }

  /** `x` placed after every element whose key is not greater, so that
      among equal keys the earlier-inserted element stays first. */
  function Insert(x: Incident, s: seq<Incident>): (r: seq<Incident>)
    requires Sorted(s)
    ensures Sorted(r)
    ensures multiset(r) == multiset(s) + multiset{x}
    ensures r[0] == x || (|s| > 0 && r[0] == s[0])
  {
    if |s| == 0 then [x]
    else if KeyLess(x, s[0]) then
      KeyLessAsymmetric(x, s[0]);
      [x] + s
    else
      var rest := Insert(x, s[1..]);
      assert s == [s[0]] + s[1..];
      [s[0]] + rest
  }

  /** The sorted list: each element in turn inserted into the sorted
      list of those before it. */
  function SortByKey(s: seq<Incident>): (r: seq<Incident>)
    ensures Sorted(r)
    ensures multiset(r) == multiset(s)
    ensures |r| == |s|
  {
    if |s| == 0 then []
    else
      var r := Insert(s[|s| - 1], SortByKey(s[..|s| - 1]));
      LastMultiset(s);
      r
  }

  lemma LastMultiset(s: seq<Incident>)
    requires |s| > 0
    ensures multiset(s) == multiset(s[..|s| - 1]) + multiset{s[|s| - 1]}
  {
    assert s == s[..|s| - 1] + [s[|s| - 1]];
  }

  lemma {:induction false} InsertCount(x: Incident, s: seq<Incident>, f: string)
    requires Sorted(s)
    ensures CountFecha(Insert(x, s), f) == CountFecha(s, f) + if x.fecha == f then 1 else 0
  {
    if |s| > 0 && !KeyLess(x, s[0]) {
      InsertCount(x, s[1..], f);
      assert Insert(x, s)[1..] == Insert(x, s[1..]);
    } else if |s| > 0 {
      assert ([x] + s)[1..] == s;
    }
  }

  /** Sorting keeps how many incidents each date has. */
  lemma {:induction false} SortCount(s: seq<Incident>, f: string)
    ensures CountFecha(SortByKey(s), f) == CountFecha(s, f)
  {
    if |s| > 0 {
      var init, x := s[..|s| - 1], s[|s| - 1];
      assert s == init + [x];
      CountFechaConcat(init, [x], f);
      assert SortByKey(s) == Insert(x, SortByKey(init));
      SortCount(init, f);
      InsertCount(x, SortByKey(init), f);
      assert CountFecha([x], f) == if x.fecha == f then 1 else 0;
    }
  }

  /** Dates in range sort as text exactly as they do in time. */
  lemma DateTextOrder(a: Date, b: Date)
    requires InDatetimeRange(a) && InDatetimeRange(b)
    ensures LexLess(FormatIsoDate(a), FormatIsoDate(b)) <==> Before(a, b)
  {
    var ma, da := ZeroPad(a.month, 2), ZeroPad(a.day, 2);
    var mb, db := ZeroPad(b.month, 2), ZeroPad(b.day, 2);
    var ta, tb := "-" + (ma + ("-" + da)), "-" + (mb + ("-" + db));
    FormatIsoDateFields(a);
    FormatIsoDateFields(b);
    assert Pow10(4) == 10000 && Pow10(2) == 100;
    PaddedFieldOrder(a.year, b.year, 4, ta, tb);
    DashOrder(ma + ("-" + da), mb + ("-" + db));
    PaddedFieldOrder(a.month, b.month, 2, "-" + da, "-" + db);
    DashOrder(da, db);
    ZeroPadOrder(a.day, b.day, 2);
  }

  /** A zero-padded field followed by more text orders by the field's
      value first. */
  lemma PaddedFieldOrder(a: nat, b: nat, width: nat, s: string, t: string)
    requires a < Pow10(width) && b < Pow10(width)
    ensures LexLess(ZeroPad(a, width) + s, ZeroPad(b, width) + t) <==> a < b || (a == b && LexLess(s, t))
  {
    LexLessConcat(ZeroPad(a, width), s, ZeroPad(b, width), t);
    ZeroPadOrder(a, b, width);
    if ZeroPad(a, width) == ZeroPad(b, width) {
      ZeroPadInjective(a, b, width);
    }
  }

  lemma DashOrder(s: string, t: string)
    ensures LexLess("-" + s, "-" + t) <==> LexLess(s, t)
  {
    LexLessConcat("-", s, "-", t);
    LexLessIrreflexive("-");
  }

  /** For generated incidents the sort key is chronological order: by
      day, then by hour and minute. */
  lemma KeyOrderIsChronological(d1: Date, w1: Draw, d2: Date, w2: Draw)
    requires InDatetimeRange(d1) && InDatetimeRange(d2)
    ensures KeyLess(MakeIncident(d1, w1), MakeIncident(d2, w2)) <==>
      Before(d1, d2) || (d1 == d2 && (w1.hour < w2.hour || (w1.hour == w2.hour && w1.minute < w2.minute)))
  {
    DateTextOrder(d1, d2);
    HoraOrder(w1.hour, w1.minute, w2.hour, w2.minute);
    if FormatIsoDate(d1) == FormatIsoDate(d2) {
      FormatIsoDateInjective(d1, d2);
    }
  }
}
