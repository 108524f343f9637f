# ex-translate edge worker, modelled in Dafny

The project models the Cloudflare Worker `fetch` handler of ex-translate. The handler takes a
message a user received from an ex-partner and forwards it to the xAI Grok chat-completion API,
which returns a "true meaning" and a toxicity score. The handler itself does the following:

- it answers CORS preflights;
- it refuses untrusted origins;
- it rate-limits each client with a fixed-window counter kept in memory;
- it routes `POST /api/translate`;
- it checks the request body;
- it validates the provider's JSON reply and relays it, or collapses every failure to one fixed 500 reply.

Modules, one per part of `worker/src/index.ts`:

- `Wrappers`: `Option` and `Result`.
- `Js`: the JavaScript values the handler inspects. `Truthy` is JavaScript's `!x` test, `IsNumber`
  is `typeof x === 'number'`, and `Get` reads a property (it throws on null and undefined).
- `Cors`: `isAllowedOrigin` and the CORS header map.
- `RateLimit`: the fixed-window limiter. `Admit` is the pure transition on the key-to-counter map.
  The class `RateLimiter` holds that map in a field, and its method `CheckAndConsume` updates it in
  place as the module-level `ipRequests` map is updated.
- `Grok`: the checks `translateWithGrok` makes on the provider's reply.
- `Http`: requests, responses, and `jsonResponse`.
- `Worker`: `Handle` is the whole handler as a transition from (request, limiter map, clock,
  provider reply) to (response, new map, message sent to the provider). `Fetch` is the imperative
  handler acting on a shared `RateLimiter`, proved equal to `Handle`.
- `HandlerProperties`: lemmas about `Handle`, including a run of calls that share one limiter.

Some behaviours of the code are easy to misread; the model follows the code:

- A message made only of blanks is accepted: the code tests only `!message`. Nor is `message`
  checked to be a string, although the `TranslateRequest` interface declares it as one
  (`worker/src/index.ts:10-12`); any truthy JSON value is forwarded.
- `toxicity_level` is not range-checked, although the prompt asks the provider for a score of
  0-100 (`worker/src/index.ts:134`), and `true_meaning` is not type-checked. Only truthiness
  and `typeof === 'number'` are tested.
- A body that is not JSON gives 500, not 400, because `request.json()` runs inside the `try`.
  A body that is JSON `null` also gives 500, because destructuring `null` throws a TypeError.
- A request is counted against the limit before the method and path checks, so 404 and 405
  replies use up a slot.
- An empty `Origin` header is treated like an absent one: it is never refused with 403, and the
  CORS header is `"null"`.

## Model

| member | source | states |
|---|---|---|
| `Js.Get` | worker/src/index.ts:96 | reading a property of null/undefined throws (None); an object yields its own field when it has one and undefined when not; any other value yields undefined |
| `Cors.EndsWithConcat` | worker/src/index.ts:39 | `s.endsWith(x)` holds exactly when `s` is some string followed by `x` |
| `Cors.IsAllowedOrigin` | worker/src/index.ts:35-40 | an accepted origin is present and non-empty |
| `Cors.AllowedOriginCharacterised` | worker/src/index.ts:28-40 | an origin is accepted iff it is present and is one of the three listed origins or some string followed by `.ex-translate.pages.dev` |
| `Cors.CorsHeaders` | worker/src/index.ts:42-47 | exactly the four CORS headers, with the fixed methods, allowed headers and max-age values |
| `Cors.AllowOriginEchoesTrustedOnly` | worker/src/index.ts:43 | Allow-Origin is the origin itself when accepted and `"null"` otherwise; any other value implies an accepted origin |
| `RateLimit.ClientKey` | worker/src/index.ts:60 | the key is the CF-Connecting-IP value when present and non-empty, and the single shared key `unknown` when the header is absent or empty; it is never empty |
| `RateLimit.Admit` | worker/src/index.ts:60-81 | a refusal leaves the table unchanged; an admission adds the key if new and leaves its count at most 9; the full closed form is `AdmitCharacterised`, with `AdmitPreservesWellFormed` and `TenthRequestRefused` |
| `RateLimit.AdmitCharacterised` | worker/src/index.ts:62-81 | refused iff an unexpired window (age at most 60000 ms, boundary included) is at 9; a refusal changes nothing; an admission adds one to the window or opens a new window at `now` with count 1; no other key changes |
| `RateLimit.AdmitPreservesWellFormed` | worker/src/index.ts:70-81 | every stored count stays between 1 and 9 |
| `RateLimit.ExpiredWindowForgiven` | worker/src/index.ts:64-68 | more than 60000 ms after the window start the client is admitted and its counter restarts at 1 |
| `RateLimit.AdmitAllWithinWindow` | worker/src/index.ts:65-81 | inside an unexpired window holding `c` requests, the i-th further request is admitted iff `c + i < 9` |
| `RateLimit.TenthRequestRefused` | worker/src/index.ts:21-81 | a new client's requests within one window of its first: exactly the first nine are admitted |
| `RateLimit.RateLimiter.constructor` | worker/src/index.ts:23 | the table starts empty |
| `RateLimit.RateLimiter.CheckAndConsume` | worker/src/index.ts:60-81 | the in-place update of the table and the verdict agree with `Admit`, and the 1..9 bound is kept |
| `Grok.TranslateWithGrok` | worker/src/index.ts:161-182 | accepted iff status 200-299, content truthy, content parses, and the result is an object with truthy `true_meaning` and numeric `toxicity_level`; an accepted result is returned unchanged; a non-ok status and missing content give their own errors |
| `Grok.NoRangeOrTypeCheck` | worker/src/index.ts:177-182 | any truthy `true_meaning` and any number, in or out of 0-100, are accepted |
| `Http.JsonResponse` | worker/src/index.ts:185-193 | the value is the body and the status is kept; the headers are Content-Type `application/json` with the given headers spread over it |
| `Worker.OriginRefused` | worker/src/index.ts:55 | an origin is refused iff it is present, non-empty, not one of the listed origins and without the preview suffix |
| `Worker.Handle` | worker/src/index.ts:26-114 | the whole handler: the status is one of 200, 400, 403, 404, 405, 429, 500; the provider is only called for a POST to /api/translate; the behaviour of each step is stated by the `HandlerProperties` lemmas |
| `Worker.Serve` | worker/src/index.ts:83-113 | after counting, only 200, 400, 404, 405 or 500 are produced, always with a JSON body, and every non-200 body is one of the fixed error payloads |
| `Worker.Fetch` | worker/src/index.ts:26-114 | the handler acting on the shared limiter gives the response, new table and provider message that `Handle` specifies, and keeps every count within 1..9 |
| `HandlerProperties.PreflightAnswered` | worker/src/index.ts:49-52 | OPTIONS gets 200, exactly the CORS headers and no body; the table is unchanged and nothing is sent |
| `HandlerProperties.ForbiddenExactlyForUntrustedOrigin` | worker/src/index.ts:54-57 | 403 iff not OPTIONS and the Origin is present, non-empty and untrusted; then the table is unchanged; no Origin never gives 403 |
| `HandlerProperties.RateLimitedExactlyWhenRefused` | worker/src/index.ts:59-81 | past the origin check, 429 iff the limiter refuses the client key; a refusal leaves the table unchanged, otherwise the table is the limiter's |
| `HandlerProperties.CountedUnlessEarlyExit` | worker/src/index.ts:79-91 | every 400, 404, 405 or 500 reply was counted against the client |
| `HandlerProperties.RoutedAfterCounting` | worker/src/index.ts:83-91 | once counted, 405 iff the method is not POST; 404 iff a POST to another path; neither calls the provider |
| `HandlerProperties.TranslateOutcome` | worker/src/index.ts:93-113 | unparsable or null body gives 500; a falsy message gives 400 with no provider call; otherwise the message is sent, and the reply is 200 with the provider's object unchanged iff it validates, else 500 with the fixed message |
| `HandlerProperties.BlankMessageForwarded` | worker/src/index.ts:98-103 | any non-empty message made only of blanks, in any body object, is forwarded unchanged to the provider and never gets 400 |
| `HandlerProperties.HeadersOnEveryResponse` | worker/src/index.ts:42-113 | every response has the four CORS headers; every non-preflight response also has Content-Type `application/json` and a JSON body; non-200 bodies are fixed payloads |
| `HandlerProperties.HandlePreservesWellFormed` | worker/src/index.ts:59-81 | if every stored count is within 1..9 before a request, it still is afterwards, whatever the request |
| `HandlerProperties.ReplayFollowsLimiter` | worker/src/index.ts:59-81 | over a series of calls reaching the limiter under one key, the handler answers 429 exactly where the limiter alone refuses |
| `HandlerProperties.TenthRequestGets429` | worker/src/index.ts:21-81 | a new client's counted requests within one window: the tenth and later get 429, the first nine do not |

## Left out

- The outbound `fetch` to the xAI API, `response.json()`, `response.text()`, `request.json()`
  and `JSON.parse` are foreign calls. Their outcomes are inputs: `ProviderReply` for the provider
  and `Request.body` for the request. The request message appears only as the value sent to the
  provider.
- The system prompt, model name, `temperature` and `max_tokens` are configuration sent to the
  provider. They are not modelled.
- `Date.now()` is the parameter `now`. `new URL(request.url).pathname` is the field `pathname`.
- `console.error` logging is not modelled.
- HTTP header names are compared exactly, without case folding. Request method names are taken
  as given, without the Fetch API's normalisation.
- JSON numbers are reals. Overflow to Infinity and the sign of zero are not modelled.
- `Js.Get`: does not model properties inherited from prototypes. The handler reads three names
  (`message`, `true_meaning`, `toxicity_level`), and it reads them only from values that
  `request.json()` or `JSON.parse` produced. The prototypes such a value can have are those of
  Object, Array, String, Number and Boolean, and none of them defines any of the three names.
- The limiter's map is shared across concurrent requests only within one isolate. Separate
  isolates, eviction and restarts are runtime behaviour and are not modelled; the model is
  sequential.
- `App.tsx`, `components/ResultDisplay.tsx`, `services/geminiService.ts` and `types.ts` are the
  front end, an alternative client library wrapper and type declarations. They are not part of
  this model.
