/** The records the client and the server exchange: incidents as the
    incidents endpoint returns them, and JSON values for request bodies. */
module Records {

  /** An incident id: historical rows carry the database's integer id,
      generated predictions a text id `pred-NNNNN`. */
  datatype IncidentId = NumberId(n: int) | TextId(text: string)

  /** One incident row: `id`, `tipo`, `ubicacion`, `hora` (`HH:MM`),
      `riesgo` (the risk level's name), `codigo_color`, `fecha` and, on
      predictions, `es_prediccion`. */
  datatype Incident = Incident(
    id: IncidentId,
    tipo: string,
    ubicacion: string,
    hora: string,
    riesgo: string,
    codigoColor: string,
    fecha: string,
    esPrediccion: bool)

  /** A JSON value; numbers are integers in this model. */
  datatype Json =
    | JNull
    | JBool(b: bool)
    | JNumber(n: int)
    | JString(s: string)
    | JArray(items: seq<Json>)
    | JObject(fields: map<string, Json>)

  function IdJson(id: IncidentId): Json {
    match id
    case NumberId(n) => JNumber(n)
    case TextId(t) => JString(t)
  }
}
