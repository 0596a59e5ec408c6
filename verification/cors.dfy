/** The `origin` callback handed to the `cors` middleware: a request's `Origin`
    header is let through when it is missing, empty, or on a two-entry list. */
module Cors {
  import opened JsValues

  /** The local development front end. */
  const LocalDevOrigin: string := "http://localhost:8081"

  const CorsErrorMessage: string := "Not allowed by CORS"

  /** `allowedOrigins`: the configured `ORIGIN_URL` (which may be undefined) and
      the local development origin. */
  function AllowedOrigins(originUrl: Option<string>): (list: seq<Option<string>>)
    ensures |list| == 2 && list[0] == originUrl && list[1] == Some(LocalDevOrigin)
  {
    [originUrl, Some(LocalDevOrigin)]
  }

  /** What the callback passes on: `callback(null, true)` or `callback(new Error(..))`. */
  datatype Decision = Allow | Reject(error: string)

  /** The callback: `!origin || allowedOrigins.includes(origin)`. */
  function CheckOrigin(origin: Option<string>, originUrl: Option<string>): (d: Decision)
    ensures d.Allow? <==>
      || origin.None?
      || origin == Some("")
      || origin == originUrl
      || origin == Some(LocalDevOrigin)
    ensures d.Reject? ==> d.error == CorsErrorMessage
  {
    if Falsy(origin) || origin in AllowedOrigins(originUrl) then Allow
    else Reject(CorsErrorMessage)
  }

  /** A request without an `Origin` header, and one whose header is the empty
      string, pass whatever is configured. */
  lemma MissingOrEmptyOriginAllowed(originUrl: Option<string>)
    ensures CheckOrigin(None, originUrl) == Allow
    ensures CheckOrigin(Some(""), originUrl) == Allow
  {
  }

  /** With `ORIGIN_URL` unset, the only non-empty origin that passes is the local
      development one: the undefined list entry matches no header. */
  lemma UnconfiguredOriginUrl(origin: string)
    ensures CheckOrigin(Some(origin), None) == Allow <==> origin == "" || origin == LocalDevOrigin
  {
  }

  /** Every non-empty origin outside the list is rejected with the same error,
      and the decision is the same for every request carrying that origin. */
  lemma OtherOriginsRejected(origin: string, originUrl: Option<string>)
    requires origin != "" && Some(origin) != originUrl && origin != LocalDevOrigin
    ensures CheckOrigin(Some(origin), originUrl) == Reject("Not allowed by CORS")
  {
  }
}
