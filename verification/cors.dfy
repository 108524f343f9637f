/** The worker's cross-origin policy: which request origins are trusted, and
    the CORS headers computed from the request's `Origin` header. */
module Cors {
  import opened Wrappers

  /** The three origins trusted verbatim. */
  const AllowedOrigins: seq<string> := [
    "http://localhost:3000",
    "http://127.0.0.1:3000",
    "https://extranslator.samolab.com"
  ]

  /** Any origin ending with this is trusted (preview deployments). */
  const PagesSuffix: string := ".ex-translate.pages.dev"

  const AllowOriginHeader: string := "Access-Control-Allow-Origin"
  const AllowMethodsHeader: string := "Access-Control-Allow-Methods"
  const AllowHeadersHeader: string := "Access-Control-Allow-Headers"
  const MaxAgeHeader: string := "Access-Control-Max-Age"

  /** `s.endsWith(suffix)`, by comparing the tail of `s`. */
  predicate EndsWith(s: string, suffix: string)
  {
    |suffix| <= |s| && s[|s| - |suffix|..] == suffix
  }

  /** `s.endsWith(suffix)` holds exactly when `s` is some string followed by
      `suffix`. */
  lemma EndsWithConcat(s: string, suffix: string)
    ensures EndsWith(s, suffix) <==> exists prefix :: s == prefix + suffix
  {
    if EndsWith(s, suffix) {
      var prefix := s[..|s| - |suffix|];
      assert s == prefix + suffix;
    }
    if exists prefix :: s == prefix + suffix {
      var prefix :| s == prefix + suffix;
      assert s[|prefix|..] == suffix;
    }
  }

  /** `isAllowedOrigin`: a missing or empty origin is refused; otherwise the
      origin is one of the listed ones or ends with the preview suffix. */
  function IsAllowedOrigin(origin: Option<string>): (ok: bool)
    ensures ok ==> origin.Some? && |origin.value| > 0
  {
    if origin.None? || origin.value == "" then false
    else if origin.value in AllowedOrigins then true
    else EndsWith(origin.value, PagesSuffix)
  }

  /** The origin policy in closed form: an origin is trusted exactly when it
      is present and is one of the three listed strings or is some string
      followed by ".ex-translate.pages.dev". */
  lemma AllowedOriginCharacterised(origin: Option<string>)
    ensures IsAllowedOrigin(origin) <==>
      origin.Some? &&
      (|| origin.value == "http://localhost:3000"
       || origin.value == "http://127.0.0.1:3000"
       || origin.value == "https://extranslator.samolab.com"
       || exists prefix :: origin.value == prefix + ".ex-translate.pages.dev")
  {
    if origin.Some? {
      EndsWithConcat(origin.value, PagesSuffix);
    }
  }

  /** The CORS headers attached to every response. */
  function CorsHeaders(origin: Option<string>): (h: map<string, string>)
    ensures h.Keys == {AllowOriginHeader, AllowMethodsHeader, AllowHeadersHeader, MaxAgeHeader}
    ensures h[AllowMethodsHeader] == "GET, POST, OPTIONS"
    ensures h[AllowHeadersHeader] == "Content-Type"
    ensures h[MaxAgeHeader] == "86400"
  {
    map[
      AllowOriginHeader := if IsAllowedOrigin(origin) then origin.value else "null",
      AllowMethodsHeader := "GET, POST, OPTIONS",
      AllowHeadersHeader := "Content-Type",
      MaxAgeHeader := "86400"
    ]
  }

  /** The allowed-origin header echoes the request's origin when that origin
      is trusted, and is the literal "null" otherwise; in particular it never
      echoes an untrusted origin other than the literal "null" itself. */
  lemma AllowOriginEchoesTrustedOnly(origin: Option<string>)
    ensures IsAllowedOrigin(origin) ==> CorsHeaders(origin)[AllowOriginHeader] == origin.value
    ensures !IsAllowedOrigin(origin) ==> CorsHeaders(origin)[AllowOriginHeader] == "null"
    ensures CorsHeaders(origin)[AllowOriginHeader] != "null" ==>
      origin.Some? && CorsHeaders(origin)[AllowOriginHeader] == origin.value && IsAllowedOrigin(origin)
  {
  }
}
