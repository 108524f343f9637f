/** What the handler promises, stated over `Handle`. */
module HandlerProperties {
  import opened Wrappers
  import opened Js
  import opened Cors
  import opened RateLimit
  import opened Grok
  import opened Http
  import opened Worker

  /** A preflight request gets the CORS headers, no body and status 200,
      whatever its origin, path or body, and is not counted. */
  lemma PreflightAnswered(req: Request, entries: map<string, Window>, now: int, reply: ProviderReply)
    requires req.verb == "OPTIONS"
    ensures Handle(req, entries, now, reply) ==
      Exchange(Response(200, CorsHeaders(req.origin), NoBody), entries, None)
  {
  }

  /** A non-preflight request is refused with 403 exactly when its Origin is
      present, non-empty and untrusted; such a refusal is not counted and
      calls nothing. A request without an Origin header is never refused
      with 403. */
  lemma ForbiddenExactlyForUntrustedOrigin(req: Request, entries: map<string, Window>, now: int, reply: ProviderReply)
    ensures var x := Handle(req, entries, now, reply);
      && (x.response.status == 403 <==> req.verb != "OPTIONS" && OriginRefused(req.origin))
      && (x.response.status == 403 ==>
            x.entries == entries && x.sent.None? &&
            x.response.body == JsonBody(ErrorPayload(OriginNotAllowed)))
      && (req.origin.None? ==> x.response.status != 403)
  {
  }

  /** Past the preflight and origin checks, the request is refused with 429
      exactly when the limiter refuses its client key; a refusal leaves the
      table as it was. Otherwise the table becomes the limiter's, whatever
      the method, path, body or provider outcome: the slot is spent before
      routing. */
  lemma RateLimitedExactlyWhenRefused(req: Request, entries: map<string, Window>, now: int, reply: ProviderReply)
    requires req.verb != "OPTIONS" && !OriginRefused(req.origin)
    ensures var x := Handle(req, entries, now, reply);
      var a := Admit(entries, ClientKey(req.clientIp), now);
      && (x.response.status == 429 <==> !a.allowed)
      && (!a.allowed ==> x.entries == entries && x.sent.None?)
      && (a.allowed ==> x.entries == a.entries)
  {
  }

  /** Every response that comes from routing, the body check or the
      provider call (400, 404, 405, 500) was counted against the client. */
  lemma CountedUnlessEarlyExit(req: Request, entries: map<string, Window>, now: int, reply: ProviderReply)
    ensures var x := Handle(req, entries, now, reply);
      x.response.status in {400, 404, 405, 500} ==>
        x.entries == Admit(entries, ClientKey(req.clientIp), now).entries
  {
  }

  /** Once counted, a request that is not a POST gets 405 before the path is
      looked at, and a POST to any path but /api/translate gets 404. */
  lemma RoutedAfterCounting(req: Request, entries: map<string, Window>, now: int, reply: ProviderReply)
    requires req.verb != "OPTIONS" && !OriginRefused(req.origin)
    requires Admit(entries, ClientKey(req.clientIp), now).allowed
    ensures var x := Handle(req, entries, now, reply);
      && (x.response.status == 405 <==> req.verb != "POST")
      && (x.response.status == 404 <==> req.verb == "POST" && req.pathname != TranslatePath)
      && (x.response.status in {404, 405} ==> x.sent.None?)
  {
  }

  /** For a counted POST to /api/translate: a body that is not JSON, or is
      JSON null, yields 500; a missing or falsy `message` yields 400 without
      calling the provider; otherwise the message is sent as it is, and the
      reply is 200 with the provider's object unchanged when it passes
      validation and 500 with the fixed message when it does not. */
  lemma TranslateOutcome(req: Request, entries: map<string, Window>, now: int, reply: ProviderReply)
    requires req.verb == "POST" && req.pathname == TranslatePath && !OriginRefused(req.origin)
    requires Admit(entries, ClientKey(req.clientIp), now).allowed
    ensures var x := Handle(req, entries, now, reply);
      && (req.body.None? || req.body.value.Null? ==>
            x.response.status == 500 && x.sent.None?)
      && (req.body.Some? && !req.body.value.Null? && !req.body.value.Undefined? ==>
            var message := Get(req.body.value, "message").value;
            && (!Truthy(message) ==>
                  x.response.status == 400 && x.sent.None? &&
                  x.response.body == JsonBody(ErrorPayload(MissingMessage)))
            && (Truthy(message) ==>
                  && x.sent == Some(message)
                  && (x.response.status == 200 <==> TranslateWithGrok(reply).Ok?)
                  && (TranslateWithGrok(reply).Ok? ==>
                        x.response.body == JsonBody(reply.parsed.value))
                  && (TranslateWithGrok(reply).Err? ==>
                        x.response.status == 500 &&
                        x.response.body == JsonBody(ErrorPayload(TranslationFailed)))))
  {
  }

  /** A non-empty message made only of blanks is not missing: it reaches
      the provider as it is and never gets 400. */
  lemma BlankMessageForwarded(req: Request, entries: map<string, Window>, now: int, reply: ProviderReply, s: string)
    requires req.verb == "POST" && req.pathname == TranslatePath && !OriginRefused(req.origin)
    requires Admit(entries, ClientKey(req.clientIp), now).allowed
    requires s != "" && forall i :: 0 <= i < |s| ==> s[i] in {' ', '\t', '\n', '\r'}
    requires req.body.Some? && req.body.value.Obj?
    requires "message" in req.body.value.fields && req.body.value.fields["message"] == Str(s)
    ensures Handle(req, entries, now, reply).response.status in {200, 500}
    ensures Handle(req, entries, now, reply).sent == Some(Str(s))
  {
  }

  /** Every response carries the four CORS headers as computed from the
      Origin; every response but the preflight's also carries the JSON
      content type and a JSON body. Error bodies are always one of the
      fixed payloads, so no provider detail reaches the client. */
  lemma HeadersOnEveryResponse(req: Request, entries: map<string, Window>, now: int, reply: ProviderReply)
    ensures var x := Handle(req, entries, now, reply);
      var cors := CorsHeaders(req.origin);
      && (forall h :: h in cors ==> h in x.response.headers && x.response.headers[h] == cors[h])
      && (req.verb != "OPTIONS" ==>
            && x.response.headers.Keys == cors.Keys + {ContentType}
            && x.response.headers[ContentType] == "application/json"
            && x.response.body.JsonBody?)
      && (x.response.status != 200 ==> x.response.body.JsonBody? && FixedError(x.response.body.value))
  {
    var cors := CorsHeaders(req.origin);
    if req.verb != "OPTIONS" && !OriginRefused(req.origin) {
      var a := Admit(entries, ClientKey(req.clientIp), now);
      if a.allowed {
        var served := Serve(req, cors, reply);
        assert Handle(req, entries, now, reply).response == served.response;
      }
    }
  }

  /** Whatever the request, no counter in the handler's table exceeds
      capacity afterwards if none did before. */
  lemma HandlePreservesWellFormed(req: Request, entries: map<string, Window>, now: int, reply: ProviderReply)
    requires WellFormed(entries)
    ensures WellFormed(Handle(req, entries, now, reply).entries)
  {
    AdmitPreservesWellFormed(entries, ClientKey(req.clientIp), now);
  }

  /** One call to the handler: the request, the clock, and the provider's
      reply. */
  datatype Call = Call(req: Request, now: int, reply: ProviderReply)

  /** The responses to a series of calls sharing one limiter table. */
  function Replay(entries: map<string, Window>, calls: seq<Call>): (rs: seq<Response>)
    ensures |rs| == |calls|
    decreases |calls|
  {
    if calls == [] then []
    else
      var x := Handle(calls[0].req, entries, calls[0].now, calls[0].reply);
      [x.response] + Replay(x.entries, calls[1..])
  }

  /** A call that reaches the limiter under `key`. */
  predicate ReachesLimiter(c: Call, key: string)
  {
    c.req.verb != "OPTIONS" && !OriginRefused(c.req.origin) && ClientKey(c.req.clientIp) == key
  }

  /** The times of a series of calls. */
  function Times(calls: seq<Call>): seq<int>
  {
    seq(|calls|, i requires 0 <= i < |calls| => calls[i].now)
  }

  /** When every call reaches the limiter under one key, the handler answers
      429 exactly where the limiter alone refuses. */
  lemma {:induction false} ReplayFollowsLimiter(entries: map<string, Window>, calls: seq<Call>, key: string)
    requires forall i :: 0 <= i < |calls| ==> ReachesLimiter(calls[i], key)
    ensures forall i :: 0 <= i < |calls| ==>
      (Replay(entries, calls)[i].status == 429 <==> !AdmitAll(entries, key, Times(calls))[i])
    decreases |calls|
  {
    if calls != [] {
      var c := calls[0];
      var x := Handle(c.req, entries, c.now, c.reply);
      var a := Admit(entries, key, c.now);
      RateLimitedExactlyWhenRefused(c.req, entries, c.now, c.reply);
      assert x.entries == a.entries;
      assert x.response.status == 429 <==> !a.allowed;
      ReplayFollowsLimiter(x.entries, calls[1..], key);
      assert Times(calls)[1..] == Times(calls[1..]);
      var rest := Replay(x.entries, calls[1..]);
      var restVerdicts := AdmitAll(a.entries, key, Times(calls[1..]));
      assert Replay(entries, calls) == [x.response] + rest;
      assert AdmitAll(entries, key, Times(calls)) == [a.allowed] + restVerdicts;
      RefusalsAlign(x.response, a.allowed, rest, restVerdicts);
    }
  }

  /** Responses and verdicts that agree on refusals still agree after one
      more agreeing pair is put in front. */
  lemma RefusalsAlign(r: Response, v: bool, rs: seq<Response>, vs: seq<bool>)
    requires |rs| == |vs| && (r.status == 429 <==> !v)
    requires forall i :: 0 <= i < |rs| ==> (rs[i].status == 429 <==> !vs[i])
    ensures forall i :: 0 <= i < |rs| + 1 ==> (([r] + rs)[i].status == 429 <==> !([v] + vs)[i])
  {
    forall i | 0 <= i < |rs| + 1
      ensures ([r] + rs)[i].status == 429 <==> !([v] + vs)[i]
    {
      if i > 0 {
        assert ([r] + rs)[i] == rs[i - 1] && ([v] + vs)[i] == vs[i - 1];
      }
    }
  }

  /** A client the limiter has not seen that sends requests, all within one
      window of its first, has its first nine counted and each later one
      refused with 429. */
  lemma {:induction false} TenthRequestGets429(entries: map<string, Window>, calls: seq<Call>, key: string)
    requires key !in entries && calls != []
    requires forall i :: 0 <= i < |calls| ==> ReachesLimiter(calls[i], key)
    requires forall i :: 0 <= i < |calls| ==> calls[i].now - calls[0].now <= WindowMs
    ensures forall i :: 0 <= i < |calls| ==>
      (Replay(entries, calls)[i].status == 429 <==> i >= MaxRequests)
  {
    ReplayFollowsLimiter(entries, calls, key);
    TenthRequestRefused(entries, key, Times(calls));
  }
}
