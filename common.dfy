/** Vocabulary shared by every store slice: optional values, payloads the
    source types as `any`, and the normalisation of a failed HTTP call to the
    single string (or value) a thunk rejects with. */
module Common {

  datatype Option<+T> = None | Some(value: T)

  /** A JSON value, for the payload fields the source declares as `any`. */
  datatype Json =
    | JNull
    | JBool(b: bool)
    | JNumber(n: real)
    | JString(s: string)
    | JArray(items: seq<Json>)
    | JObject(fields: map<string, Json>)

  /** A rejected HTTP call as the thunks see it: the response body, if a
      response arrived at all (`err.response?.data`, whatever JSON or text
      it holds, `""` for an empty body), and the transport-level
      `err.message`. */
  datatype HttpError = HttpError(data: Option<Json>, message: string)

  /** JavaScript truthiness of an optional string: present and not "". */
  predicate Truthy(s: Option<string>)
  {
    s.Some? && s.value != ""
  }

  /** JavaScript truthiness of a JSON value. */
  predicate JsonTruthy(j: Json)
  {
    match j
    case JNull => false
    case JBool(b) => b
    case JNumber(n) => n != 0.0
    case JString(s) => s != ""
    case JArray(_) => true
    case JObject(_) => true
  }

  /** `body?.message` when it is a string; any other body has none. */
  function BodyMessage(body: Json): Option<string>
  {
    if body.JObject? && "message" in body.fields && body.fields["message"].JString?
    then Some(body.fields["message"].s)
    else None
  }

  /** `err.response?.data?.message`, kept only when it is truthy. */
  function ServerMessage(err: HttpError): (m: Option<string>)
    ensures m.Some? ==> m.value != ""
    ensures m.Some? <==> err.data.Some? && Truthy(BodyMessage(err.data.value))
    ensures m.Some? ==> BodyMessage(err.data.value) == m
  {
    match err.data
    case None => None
    case Some(body) => if Truthy(BodyMessage(body)) then BodyMessage(body) else None
  }

  /** `err.response?.data?.message || fallback`: the server's message when it
      sent a non-empty one, otherwise the fallback. */
  function MessageOr(err: HttpError, fallback: string): (r: string)
    ensures ServerMessage(err).Some? ==> r == ServerMessage(err).value
    ensures ServerMessage(err).None? ==> r == fallback
    ensures fallback != "" ==> r != ""
  {
    match ServerMessage(err)
    case Some(m) => m
    case None => fallback
  }

  /** `err.response?.data?.message || err.message`, the fallback of the slices
      that have no fixed per-operation default. */
  function MessageOrTransport(err: HttpError): (r: string)
    ensures ServerMessage(err).Some? ==> r == ServerMessage(err).value
    ensures ServerMessage(err).None? ==> r == err.message
    ensures r == err.message || (r != "" && ServerMessage(err) == Some(r))
    ensures err.data.None? ==> r == err.message
  {
    MessageOr(err, err.message)
  }
}
