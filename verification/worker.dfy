/** The worker's `fetch` handler: CORS preflight, origin enforcement, rate
    limiting, routing, the body check, and the provider call, stopping at
    the first response. */
module Worker {
  import opened Wrappers
  import opened Js
  import opened Cors
  import opened RateLimit
  import opened Grok
  import opened Http

  const TranslatePath: string := "/api/translate"

  const OriginNotAllowed: string := "Origin not allowed"
  const TooManyRequests: string := "請求太頻繁了，前任都沒你這麼煩。請稍後再試。"
  const MethodNotAllowed: string := "Method not allowed"
  const NotFound: string := "Not found"
  const MissingMessage: string := "Missing required field: message"
  const TranslationFailed: string := "翻譯機過熱，可能是前任的怨念太深導致系統崩潰，請稍後再試。"

  /** The error payload `{ error: message }`. */
  function ErrorPayload(message: string): JsValue
  {
    Obj(map["error" := Str(message)])
  }

  /** The fixed messages the handler may put in an error payload. */
  ghost predicate FixedError(v: JsValue)
  {
    v in {ErrorPayload(OriginNotAllowed), ErrorPayload(TooManyRequests),
          ErrorPayload(MethodNotAllowed), ErrorPayload(NotFound),
          ErrorPayload(MissingMessage), ErrorPayload(TranslationFailed)}
  }

  /** An Origin header that is present, non-empty and untrusted: the only
      kind the handler refuses outright. */
  predicate OriginRefused(origin: Option<string>)
    ensures OriginRefused(origin) ==>
      origin.Some? && origin.value != "" && origin.value !in AllowedOrigins && !EndsWith(origin.value, PagesSuffix)
    ensures (origin.Some? && origin.value != "" && origin.value !in AllowedOrigins
             && !EndsWith(origin.value, PagesSuffix)) ==> OriginRefused(origin)
  {
    origin.Some? && origin.value != "" && !IsAllowedOrigin(origin)
  }

  /** A response together with the message, if any, that was sent to the
      provider while producing it. */
  datatype Served = Served(response: Response, sent: Option<JsValue>)

  /** The steps after the request was counted: method, path, body, provider
      call, each of the last three inside the handler's try/catch, so that
      anything they throw becomes the fixed 500 reply. */
  function Serve(req: Request, cors: map<string, string>, reply: ProviderReply): (s: Served)
    ensures s.response.status in {200, 400, 404, 405, 500}
    ensures s.response.body.JsonBody?
    ensures s.response.status != 200 ==> FixedError(s.response.body.value)
  {
    if req.verb != "POST" then
      Served(JsonResponse(ErrorPayload(MethodNotAllowed), 405, cors), None)
    else if req.pathname != TranslatePath then
      Served(JsonResponse(ErrorPayload(NotFound), 404, cors), None)
    else if req.body.None? then
      Served(JsonResponse(ErrorPayload(TranslationFailed), 500, cors), None)
    else
      var message := Get(req.body.value, "message");
      if message.None? then
        Served(JsonResponse(ErrorPayload(TranslationFailed), 500, cors), None)
      else if !Truthy(message.value) then
        Served(JsonResponse(ErrorPayload(MissingMessage), 400, cors), None)
      else
        match TranslateWithGrok(reply)
        case Ok(translation) => Served(JsonResponse(translation, 200, cors), Some(message.value))
        case Err(_) => Served(JsonResponse(ErrorPayload(TranslationFailed), 500, cors), Some(message.value))
  }

  /** The result of handling one request: the response, the limiter's table
      afterwards, and the message sent to the provider, if any. */
  datatype Exchange = Exchange(response: Response, entries: map<string, Window>, sent: Option<JsValue>)

  /** The whole handler as a transition from the limiter's table before the
      request to the response and the table after it. */
  function Handle(req: Request, entries: map<string, Window>, now: int, reply: ProviderReply): (x: Exchange)
    ensures x.response.status in {200, 400, 403, 404, 405, 429, 500}
    ensures x.sent.Some? ==> req.verb == "POST" && req.pathname == TranslatePath
  {
    var cors := CorsHeaders(req.origin);
    if req.verb == "OPTIONS" then
      Exchange(Response(200, cors, NoBody), entries, None)
    else if OriginRefused(req.origin) then
      Exchange(JsonResponse(ErrorPayload(OriginNotAllowed), 403, cors), entries, None)
    else
      var admission := Admit(entries, ClientKey(req.clientIp), now);
      if !admission.allowed then
        Exchange(JsonResponse(ErrorPayload(TooManyRequests), 429, cors), entries, None)
      else
        var served := Serve(req, cors, reply);
        Exchange(served.response, admission.entries, served.sent)
  }

  /** The `fetch` handler, acting on the shared limiter. */
  method Fetch(limiter: RateLimiter, req: Request, now: int, reply: ProviderReply)
    returns (response: Response, sent: Option<JsValue>)
    modifies limiter
    ensures Exchange(response, limiter.entries, sent) == Handle(req, old(limiter.entries), now, reply)
    ensures old(limiter.Valid()) ==> limiter.Valid()
  {
    var cors := CorsHeaders(req.origin);
    sent := None;
    if req.verb == "OPTIONS" {
      return Response(200, cors, NoBody), None;
    }
    if OriginRefused(req.origin) {
      return JsonResponse(ErrorPayload(OriginNotAllowed), 403, cors), None;
    }
    var ip := ClientKey(req.clientIp);
    var allowed := limiter.CheckAndConsume(ip, now);
    if !allowed {
      return JsonResponse(ErrorPayload(TooManyRequests), 429, cors), None;
    }
    var served := Serve(req, cors, reply);
    response, sent := served.response, served.sent;
  }
}
