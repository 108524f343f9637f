/** The checks `translateWithGrok` applies to the completion provider's
    reply. The outbound HTTP call, `response.json()` and `JSON.parse` are
    foreign: their outcomes arrive as a ProviderReply. */
module Grok {
  import opened Wrappers
  import opened Js

  /** What the provider call produced.
      Rejected: the call threw before a content value was obtained (the
      network request failed, the body was not JSON, or it had no `choices`
      array).
      Reply: the HTTP status, the value at `choices[0].message.content`
      (Undefined when missing), and what JSON.parse made of that content
      (None when it threw). */
  datatype ProviderReply =
    | Rejected
    | Reply(status: int, content: JsValue, parsed: Option<JsValue>)

  /** Why `translateWithGrok` threw. */
  datatype TranslateError =
    | CallFailed
    | RequestFailed(status: int)
    | NoContent
    | ContentNotJson
    | NullResult
    | InvalidFormat

  /** `response.ok`: the status is in the range 200-299. */
  predicate StatusOk(status: int)
  {
    200 <= status <= 299
  }

  /** A parsed result the worker accepts, stated on the object's own fields:
      an object whose `true_meaning` is present and truthy and whose
      `toxicity_level` is present and a number. Neither the type of
      `true_meaning` nor the range of `toxicity_level` is checked. */
  ghost predicate AcceptableTranslation(v: JsValue)
  {
    && v.Obj?
    && "true_meaning" in v.fields && Truthy(v.fields["true_meaning"])
    && "toxicity_level" in v.fields && v.fields["toxicity_level"].Num?
  }

  /** The validation steps of `translateWithGrok`, in order; the parsed
      result is returned unchanged when it passes. */
  function TranslateWithGrok(reply: ProviderReply): (r: Result<JsValue, TranslateError>)
    ensures r.Ok? <==>
      && reply.Reply? && StatusOk(reply.status) && Truthy(reply.content)
      && reply.parsed.Some? && AcceptableTranslation(reply.parsed.value)
    ensures r.Ok? ==> r.value == reply.parsed.value
    ensures reply.Reply? && !StatusOk(reply.status) ==> r == Err(RequestFailed(reply.status))
    ensures reply.Reply? && StatusOk(reply.status) && !Truthy(reply.content) ==> r == Err(NoContent)
  {
    match reply
    case Rejected => Err(CallFailed)
    case Reply(status, content, parsed) =>
      if !StatusOk(status) then Err(RequestFailed(status))
      else if !Truthy(content) then Err(NoContent)
      else if parsed.None? then Err(ContentNotJson)
      else
        var meaning := Get(parsed.value, "true_meaning");
        var toxicity := Get(parsed.value, "toxicity_level");
        if meaning.None? || toxicity.None? then Err(NullResult)
        else if !Truthy(meaning.value) || !IsNumber(toxicity.value) then Err(InvalidFormat)
        else Ok(parsed.value)
  }

  /** A toxicity score outside 0-100, or a non-string `true_meaning`, is
      passed through: only presence, truthiness and number-ness are
      checked. The content text and its parse are independent inputs of
      the reply; only the truthiness of the content and the parsed value
      matter. */
  lemma NoRangeOrTypeCheck(meaning: JsValue, level: real)
    requires Truthy(meaning)
    ensures var v := Obj(map["true_meaning" := meaning, "toxicity_level" := Num(level)]);
      TranslateWithGrok(Reply(200, Str("<the provider's JSON text>"), Some(v))) == Ok(v)
  {
  }
}
