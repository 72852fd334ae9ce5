/** The server's `/retroalimentacion` route: validating the posted JSON
    body and storing the confirmed or rejected prediction. */
module FeedbackServer {
  import opened Options
  import opened Text
  import opened Records

  /** The fields a feedback body must carry, in the order they are
      checked. */
  const RequiredFields: seq<string> :=
    ["incidente_id", "delegacion_id", "tipo", "ubicacion", "fecha", "hora", "nivel_riesgo_id"]

  const InvalidBody := "Datos inválidos"
  const NotAPrediction := "Solo se puede registrar " + "retroalimentación para predicciones"

  function MissingField(field: string): string {
    "Falta el campo '" + field + "'"
  }

  /** The stored row: the values as posted, and `confirmado` defaulting to
      true when absent. */
  datatype FeedbackRow = FeedbackRow(
    incidenteId: string,
    delegacionId: Json,
    tipo: Json,
    ubicacion: Json,
    fecha: Json,
    hora: Json,
    nivelRiesgoId: Json,
    confirmado: Json)

  /** What the database does: connect, run the insert, and whether the
      retraining call after the commit returns. The retraining catches
      its own training failures, too few rows included, and returns
      `None`; only its connection or its cursor raising escapes it
      (app.py:247, 252), which is when `retrainReturns` is false. */
  datatype FeedbackDb = FeedbackDb(connected: bool, insertSucceeds: bool, retrainReturns: bool)

  /** The answer: stored (200); refused with a message (400); the
      registration error (500), after which the row may already be
      committed; or an exception for the global handler (500). */
  datatype FeedbackReply =
    | Stored(row: FeedbackRow)
    | Refused(message: string)
    | StoreError(committed: bool)
    | Crash

  /** Python's truthiness of a JSON value. */
  predicate Truthy(j: Json) {
    match j
    case JNull => false
    case JBool(b) => b
    case JNumber(n) => n != 0
    case JString(s) => s != ""
    case JArray(items) => items != []
    case JObject(fields) => fields != map[]
  }

  /** The position of the first of `names` that `fields` lacks. */
  function FirstMissing(fields: map<string, Json>, names: seq<string>): (r: Option<nat>)
    ensures r.None? <==> forall i :: 0 <= i < |names| ==> names[i] in fields
    ensures r.Some? ==> r.value < |names| && names[r.value] !in fields
    ensures r.Some? ==> forall j :: 0 <= j < r.value ==> names[j] in fields
  {
    if |names| == 0 then None
    else if names[0] !in fields then Some(0)
    else
      match FirstMissing(fields, names[1..])
      case None => None
      case Some(k) =>
        assert forall j :: 1 <= j < k + 1 ==> names[j] == names[1..][j - 1];
        Some(k + 1)
  }

  /** The route: the body must be a non-empty object; the first missing
      required field is named; `incidente_id` must be text (anything else
      has no `startswith` and raises) beginning with `pred-`; then the
      connection, the insert and the retraining call. */
  function RegisterFeedback(body: Json, db: FeedbackDb): (r: FeedbackReply)
    ensures r == Refused(InvalidBody) <==> !Truthy(body) || !body.JObject?
    ensures r.Stored? <==>
      && body.JObject? && body.fields != map[]
      && (forall f :: f in RequiredFields ==> f in body.fields)
      && body.fields["incidente_id"].JString?
      && StartsWith(body.fields["incidente_id"].s, "pred-")
      && db.connected && db.insertSucceeds && db.retrainReturns
    ensures body.JObject? && body.fields != map[] && FirstMissing(body.fields, RequiredFields).Some? ==>
      r == Refused(MissingField(RequiredFields[FirstMissing(body.fields, RequiredFields).value]))
    ensures r == Refused(NotAPrediction) <==>
      && body.JObject? && body.fields != map[]
      && (forall f :: f in RequiredFields ==> f in body.fields)
      && body.fields["incidente_id"].JString?
      && !StartsWith(body.fields["incidente_id"].s, "pred-")
    ensures r.Stored? ==>
      && r.row.incidenteId == body.fields["incidente_id"].s
      && r.row.confirmado == (if "confirmado" in body.fields then body.fields["confirmado"] else JBool(true))
  {
    MissingFieldIsItsOwnMessage();
    if !Truthy(body) || !body.JObject? then Refused(InvalidBody)
    else
      match FirstMissing(body.fields, RequiredFields)
      case Some(k) => Refused(MissingField(RequiredFields[k]))
      case None => StoreComplete(body.fields, db)
  }

  /** The route once every required field is present: the id check, the
      connection, the insert and the retraining call. */
  function StoreComplete(data: map<string, Json>, db: FeedbackDb): (r: FeedbackReply)
    requires forall f :: f in RequiredFields ==> f in data
    ensures r.Refused? ==> r.message == NotAPrediction
    ensures r == Refused(NotAPrediction) <==>
      data["incidente_id"].JString? && !StartsWith(data["incidente_id"].s, "pred-")
    ensures r.Crash? <==>
      || !data["incidente_id"].JString?
      || (StartsWith(data["incidente_id"].s, "pred-") && !db.connected)
    ensures r.StoreError? ==>
      && data["incidente_id"].JString? && StartsWith(data["incidente_id"].s, "pred-") && db.connected
      && r.committed == db.insertSucceeds
    ensures r.Stored? <==>
      && data["incidente_id"].JString?
      && StartsWith(data["incidente_id"].s, "pred-")
      && db.connected && db.insertSucceeds && db.retrainReturns
    ensures r.Stored? ==>
      && r.row.incidenteId == data["incidente_id"].s
      && r.row.confirmado == (if "confirmado" in data then data["confirmado"] else JBool(true))
  {
    var id := data["incidente_id"];
    if !id.JString? then Crash
    else if !StartsWith(id.s, "pred-") then Refused(NotAPrediction)
    else if !db.connected then Crash
    else if !db.insertSucceeds then StoreError(false)
    else if !db.retrainReturns then StoreError(true)
    else
      var confirmado := if "confirmado" in data then data["confirmado"] else JBool(true);
      Stored(FeedbackRow(id.s, data["delegacion_id"], data["tipo"], data["ubicacion"],
                         data["fecha"], data["hora"], data["nivel_riesgo_id"], confirmado))
  }

  /** A missing-field message is neither of the other two refusals. */
  lemma MissingFieldIsItsOwnMessage()
    ensures forall f :: MissingField(f) != InvalidBody && MissingField(f) != NotAPrediction
  {
    forall f
      ensures MissingField(f) != InvalidBody && MissingField(f) != NotAPrediction
    {
      assert MissingField(f)[0] == 'F';
      assert InvalidBody[0] == 'D';
      assert NotAPrediction[0] == 'S';
    }
  }

  /** The missing-field message names the first absent field in the
      checking order: a body lacking both `tipo` and `hora` is told about
      `tipo`. */
  lemma FirstMissingFieldNamed(fields: map<string, Json>)
    requires fields != map[]
    requires "incidente_id" in fields && "delegacion_id" in fields
    requires "tipo" !in fields && "hora" !in fields
    ensures RegisterFeedback(JObject(fields), FeedbackDb(true, true, true)) == Refused(MissingField("tipo"))
  {
    assert RequiredFields[0] == "incidente_id" && RequiredFields[1] == "delegacion_id";
    assert RequiredFields[2] == "tipo";
    var r := FirstMissing(fields, RequiredFields);
    assert r.Some? && r.value <= 2;
    assert r == Some(2);
  }

  /** An id that is not text makes the route raise rather than refuse. */
  lemma NumericIdCrashes(fields: map<string, Json>, n: int, db: FeedbackDb)
    requires forall f :: f in RequiredFields ==> f in fields
    requires fields["incidente_id"] == JNumber(n)
    ensures RegisterFeedback(JObject(fields), db) == Crash
  {
    assert "incidente_id" in fields;
    assert fields != map[];
  }
}
