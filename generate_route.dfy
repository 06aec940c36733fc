/**
 * The `POST /api/generate` handler: a stub that validates the request body
 * and echoes `imageUrl` back. The body is whatever JSON the request parsed
 * to (the declared body type is a cast and checks nothing), or nothing when
 * parsing failed.
 */
module GenerateRoute {
  import opened Wrappers

  /** A parsed JSON value; numbers are the parsed value, taken exactly. */
  datatype Json =
    | JNull
    | JBool(b: bool)
    | JNumber(n: real)
    | JString(s: string)
    | JArray(items: seq<Json>)
    | JObject(fields: map<string, Json>)

  /** An HTTP response: status and JSON body. */
  datatype Response = Response(status: nat, body: Json)

  const InvalidJson: string := "Invalid JSON"
  const ImageUrlRequired: string := "imageUrl is required"

  /** JavaScript truthiness of a JSON value. */
  predicate Truthy(v: Json)
  {
    match v
    case JNull => false
    case JBool(b) => b
    case JNumber(n) => n != 0.0
    case JString(s) => s != ""
    case JArray(_) => true
    case JObject(_) => true
  }

  /** `body?.imageUrl`: `None` stands for `undefined`. */
  function ImageUrlOf(body: Json): Option<Json>
  {
    if body.JObject? && "imageUrl" in body.fields then Some(body.fields["imageUrl"]) else None
  }

  function ErrorResponse(message: string): Response
  {
    Response(400, JObject(map["error" := JString(message)]))
  }

  function EchoResponse(imageUrl: Json): Response
  {
    Response(200, JObject(map["ok" := JBool(true), "received" := JObject(map["imageUrl" := imageUrl])]))
  }

  /** The handler; `parsed` is `None` when `req.json()` rejected. */
  function Post(parsed: Option<Json>): (r: Response)
    ensures r.status == 200 || r.status == 400
    ensures r.body.JObject?
    ensures r.status == 400 <==> "error" in r.body.fields
    ensures r.status == 200 <==> "ok" in r.body.fields
    ensures parsed.None? ==> r == ErrorResponse(InvalidJson)
  {
    match parsed
    case None => ErrorResponse(InvalidJson)
    case Some(body) =>
      var imageUrl := ImageUrlOf(body);
      if imageUrl.None? || !Truthy(imageUrl.value) then ErrorResponse(ImageUrlRequired)
      else EchoResponse(imageUrl.value)
  }

  /** The three ways a request can be answered. */
  datatype Decision = RejectInvalidJson | RejectMissingImageUrl | Echo(imageUrl: Json)

  /** Which answer a request deserves, by the shape of its parsed body. */
  function Decide(parsed: Option<Json>): Decision
  {
    match parsed
    case None => RejectInvalidJson
    case Some(JObject(fields)) =>
      if "imageUrl" in fields && Truthy(fields["imageUrl"]) then Echo(fields["imageUrl"])
      else RejectMissingImageUrl
    case Some(_) => RejectMissingImageUrl
  }

  /** How a client reads a response back; `None` for a response the handler never produces. */
  function ReadResponse(r: Response): Option<Decision>
  {
    if r == ErrorResponse(InvalidJson) then Some(RejectInvalidJson)
    else if r == ErrorResponse(ImageUrlRequired) then Some(RejectMissingImageUrl)
    else if r.status == 200 && r.body.JObject? && r.body.fields.Keys == {"ok", "received"}
      && r.body.fields["ok"] == JBool(true) && r.body.fields["received"].JObject?
      && r.body.fields["received"].fields.Keys == {"imageUrl"}
    then Some(Echo(r.body.fields["received"].fields["imageUrl"]))
    else None
  }

  /**
   * Every request gets exactly one of the three answers, the one `Decide`
   * names, and the client reads it back unchanged (the echoed value included).
   */
  lemma PostAnswersDecision(parsed: Option<Json>)
    ensures ReadResponse(Post(parsed)) == Some(Decide(parsed))
  {
  }

  /** The success form carries status 200, `ok: true` and the value unchanged, and no `error` field. */
  lemma EchoCarriesInput(parsed: Option<Json>)
    requires Decide(parsed).Echo?
    ensures Post(parsed).status == 200
    ensures "error" !in Post(parsed).body.fields
    ensures Post(parsed).body.fields["ok"] == JBool(true)
    ensures Post(parsed).body.fields["received"] == JObject(map["imageUrl" := Decide(parsed).imageUrl])
  {
  }

  /**
   * `imageUrl` is required unless it is present and truthy: a null or
   * non-object body, a missing key, `null`, `false`, `0` and `""` all get the
   * "imageUrl is required" answer; a whitespace-only string is echoed.
   */
  lemma ImageUrlRequirement()
    ensures Post(Some(JNull)) == ErrorResponse(ImageUrlRequired)
    ensures Post(Some(JString("x"))) == ErrorResponse(ImageUrlRequired)
    ensures Post(Some(JObject(map[]))) == ErrorResponse(ImageUrlRequired)
    ensures Post(Some(JObject(map["imageUrl" := JString("")]))) == ErrorResponse(ImageUrlRequired)
    ensures Post(Some(JObject(map["imageUrl" := JNull]))) == ErrorResponse(ImageUrlRequired)
    ensures Post(Some(JObject(map["imageUrl" := JBool(false)]))) == ErrorResponse(ImageUrlRequired)
    ensures Post(Some(JObject(map["imageUrl" := JNumber(0.0)]))) == ErrorResponse(ImageUrlRequired)
    ensures Post(Some(JObject(map["imageUrl" := JString(" ")]))) == EchoResponse(JString(" "))
  {
  }

  /** A status 400 answer is exactly a rejection, and carries one of the two fixed messages. */
  lemma RejectionsAreFixedErrors(parsed: Option<Json>)
    ensures Post(parsed).status == 400 <==> !Decide(parsed).Echo?
    ensures Decide(parsed) == RejectInvalidJson ==> Post(parsed) == ErrorResponse(InvalidJson)
    ensures Decide(parsed) == RejectMissingImageUrl ==> Post(parsed) == ErrorResponse(ImageUrlRequired)
  {
  }
}
