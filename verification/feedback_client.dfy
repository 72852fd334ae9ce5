/** The client side of prediction feedback: the payload the view posts
    when the user confirms or rejects a predicted incident, and the badge
    class it shows for a risk colour. */
module FeedbackClient {
  import opened Options
  import opened Text
  import opened Records
  import opened FilterView

  /** The risk level id posted for a risk name: `Medio` is 2, `Alto` is 3,
      and any other name falls back to 1 (low). */
  function RiskLevelId(name: string): (r: int)
    ensures r == 1 || r == 2 || r == 3
    ensures r == 2 <==> name == "Medio"
    ensures r == 3 <==> name == "Alto"
  {
    if name == "Alto" then 3 else if name == "Medio" then 2 else 1
  }

  /** The posted time: the incident's `hora` split on `:`, its first two
      pieces joined again and `:00` appended; a missing minute piece is
      the text `undefined`, as a JavaScript template renders it. */
  function FeedbackHora(hora: string): (r: string)
    ensures |r| >= 3 && r[|r| - 3..] == ":00"
  {
    var parts := Split(hora, ':');
    var hour := parts[0];
    var minute := if |parts| > 1 then parts[1] else "undefined";
    hour + ":" + minute + ":00"
  }

  /** An `H:M` time gains `:00`. */
  lemma FeedbackHoraAppendsSeconds(h: string, m: string)
    requires ':' !in h && ':' !in m
    ensures FeedbackHora(h + ":" + m) == h + ":" + m + ":00"
  {
    SplitFront(h, m, ':');
    SplitNone(m, ':');
  }

  /** An `H:M:S` time has its seconds replaced by `00`. */
  lemma FeedbackHoraDropsSeconds(h: string, m: string, sec: string)
    requires ':' !in h && ':' !in m && ':' !in sec
    ensures FeedbackHora(h + ":" + m + ":" + sec) == h + ":" + m + ":00"
  {
    assert h + ":" + m + ":" + sec == h + [':'] + (m + [':'] + sec);
    SplitFront(h, m + [':'] + sec, ':');
    SplitFront(m, sec, ':');
  }

  /** The body posted to `/retroalimentacion`. */
  datatype FeedbackPayload = FeedbackPayload(
    incidenteId: IncidentId,
    delegacionId: nat,
    tipo: string,
    ubicacion: string,
    fecha: string,
    hora: string,
    nivelRiesgoId: int,
    confirmado: bool)

  /** The payload for the selected incident: nothing without one; the id,
      type, place and date copied, the district's id, the time with `:00`
      appended, the risk name mapped to its id and the user's answer.
      Incidents are listed only under a selected district, so a selected
      incident comes with one. */
  function BuildFeedback(incident: Option<Incident>, district: Option<District>, confirmed: bool)
    : (r: Option<FeedbackPayload>)
    requires incident.Some? ==> district.Some?
    ensures r.None? <==> incident.None?
    ensures r.Some? ==>
      var i := incident.value;
      && r.value.incidenteId == i.id && r.value.tipo == i.tipo
      && r.value.ubicacion == i.ubicacion && r.value.fecha == i.fecha
      && r.value.delegacionId == district.value.id
      && r.value.confirmado == confirmed
      && r.value.hora == FeedbackHora(i.hora)
      && (r.value.nivelRiesgoId == 3 <==> i.riesgo == "Alto")
      && (r.value.nivelRiesgoId == 2 <==> i.riesgo == "Medio")
      && (r.value.nivelRiesgoId == 1 <==> i.riesgo != "Alto" && i.riesgo != "Medio")
  {
    if incident.None? then None
    else
      var i := incident.value;
      Some(FeedbackPayload(i.id, district.value.id, i.tipo, i.ubicacion, i.fecha,
                           FeedbackHora(i.hora), RiskLevelId(i.riesgo), confirmed))
  }

  /** `JSON.stringify` of the payload. */
  function PayloadJson(p: FeedbackPayload): (j: Json)
    ensures j.JObject?
    ensures j.fields.Keys == {"incidente_id", "delegacion_id", "tipo", "ubicacion", "fecha", "hora",
                              "nivel_riesgo_id", "confirmado"}
    ensures j.fields["incidente_id"] == IdJson(p.incidenteId)
    ensures j.fields["hora"] == JString(p.hora) && j.fields["fecha"] == JString(p.fecha)
    ensures j.fields["confirmado"] == JBool(p.confirmado)
  {
    var m := map[
      "incidente_id" := IdJson(p.incidenteId),
      "delegacion_id" := JNumber(p.delegacionId),
      "tipo" := JString(p.tipo),
      "ubicacion" := JString(p.ubicacion),
      "fecha" := JString(p.fecha),
      "hora" := JString(p.hora),
      "nivel_riesgo_id" := JNumber(p.nivelRiesgoId),
      "confirmado" := JBool(p.confirmado)];
    JObject(m)
  }

  /** Scenario: a high-risk incident is posted with risk level id 3. */
  lemma ScenarioHighRisk(i: Incident, d: District, confirmed: bool)
    requires i.riesgo == "Alto"
    ensures BuildFeedback(Some(i), Some(d), confirmed).value.nivelRiesgoId == 3
  {
  }

  /** The badge class for a risk colour code: the three known codes get
      their own classes, anything else the neutral one. */
  function RiskBadgeClass(colorCode: string): (r: string)
    ensures r == "bg-secondary" <==>
      colorCode != "danger" && colorCode != "warning" && colorCode != "success"
    ensures colorCode == "danger" <==> r == "bg-danger"
    ensures colorCode == "warning" <==> r == "bg-warning text-dark"
    ensures colorCode == "success" <==> r == "bg-success"
  {
    match colorCode
    case "danger" => "bg-danger"
    case "warning" => "bg-warning text-dark"
    case "success" => "bg-success"
    case _ => "bg-secondary"
  }
}
