/** The parts of the Fetch API requests and responses the worker uses. */
module Http {
  import opened Wrappers
  import opened Js

  /** An incoming request: its method (`verb`), its `Origin` and `CF-Connecting-IP`
      headers (None when absent), the pathname of its URL, and what
      `request.json()` yields for its body (None when that throws). */
  datatype Request = Request(
    verb: string,
    origin: Option<string>,
    clientIp: Option<string>,
    pathname: string,
    body: Option<JsValue>)

  /** A response body: none at all, or the JSON serialisation of a value. */
  datatype Body = NoBody | JsonBody(value: JsValue)

  datatype Response = Response(status: int, headers: map<string, string>, body: Body)

  const ContentType: string := "Content-Type"

  /** `jsonResponse`: the value as a JSON body, with a JSON content type
      that the given headers are spread over (so they win on a clash). */
  function JsonResponse(data: JsValue, status: int, headers: map<string, string>): (r: Response)
    ensures r.status == status && r.body == JsonBody(data)
    ensures r.headers.Keys == headers.Keys + {ContentType}
    ensures forall k :: k in headers ==> r.headers[k] == headers[k]
    ensures ContentType !in headers ==> r.headers[ContentType] == "application/json"
  {
    Response(status, map[ContentType := "application/json"] + headers, JsonBody(data))
  }
}
