/** Responses as the handlers build them with `NextResponse`. */
module Http {
  import opened JsonValue

  /** `NextResponse.next()` passes the request on, `NextResponse.json(v)`
      answers with a JSON body, `NextResponse.redirect(url)` redirects. */
  datatype Body = Next | JsonBody(value: Json) | Redirect(location: string)

  datatype Response = Response(status: int, body: Body, headers: map<string, string>)

  /** `NextResponse.next()`. */
  const PassThrough: Response := Response(200, Next, map[])

  /** The header `Response.json` sets on every JSON answer. */
  const ContentType := "content-type"

  /** `NextResponse.json(value, { status })`: a fresh response whose only header
      is the JSON content type. */
  function JsonResponse(value: Json, status: int): (r: Response)
    ensures r.status == status && r.body == JsonBody(value)
    ensures r.headers == map[ContentType := "application/json"]
  {
    Response(status, JsonBody(value), map[ContentType := "application/json"])
  }

  /** `{ status: 'error', message }`, the body of every error answer. */
  function ErrorBody(message: string): Json {
    JObject(map["status" := JString("error"), "message" := JString(message)])
  }

  function ErrorResponse(message: string, status: int): Response {
    JsonResponse(ErrorBody(message), status)
  }

  /** The `message` field of a JSON response body, `""` when there is none. */
  function MessageOf(r: Response): string {
    if r.body.JsonBody? && r.body.value.JObject? && "message" in r.body.value.fields
       && r.body.value.fields["message"].JString?
    then r.body.value.fields["message"].s
    else ""
  }
}
