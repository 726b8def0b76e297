/**
 * The values the endpoints exchange: JSON documents (what `json.loads` yields and
 * `jsonify` sends), HTTP responses, and the outcome of screening a script.
 */
module Http {
  import opened Wrappers

  /** A JSON document; numbers are kept as their literal text. */
  datatype Json =
    | JNull
    | JBool(b: bool)
    | JNumber(literal: string)
    | JString(text: string)
    | JArray(items: seq<Json>)
    | JObject(fields: map<string, Json>)

  /** `json.loads`: the document a text denotes, or None where it raises `JSONDecodeError` (its other exceptions are not modelled). */
  type Parser = string -> Option<Json>

  /** What the endpoint hands to Flask: a status code and a JSON body. */
  datatype Response = Response(status: int, body: Json)

  /**
   * One request handled: the response, and the program text given to the sandbox
   * (None when the request was answered before anything ran).
   */
  datatype Handled = Handled(response: Response, launched: Option<string>)

  /** Verdict of a `validate_script`: it returns True, or raises `ValueError(message)`. */
  datatype Verdict = Accepted | Rejected(message: string)

  /** The body `{"error": message}`. */
  function ErrorBody(message: string): Json {
    JObject(map["error" := JString(message)])
  }

  /** `jsonify({"error": message}), status`. */
  function ErrorResponse(status: int, message: string): Response {
    Response(status, ErrorBody(message))
  }

  /** Different messages give different error responses. */
  lemma ErrorResponsesDiffer(status: int, a: string, b: string)
    requires a != b
    ensures ErrorResponse(status, a) != ErrorResponse(status, b)
  {
    assert ErrorResponse(status, a).body.fields["error"] != ErrorResponse(status, b).body.fields["error"];
  }

  const MissingScriptMessage := "Missing 'script' field in JSON body"
  const InternalErrorMessage := "Internal server error"
}
