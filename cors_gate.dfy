/**
 * The CORS middleware: its origin callback decides who may use the proxy at
 * all, before any routing.
 */
module CorsGate {
  import opened Wrappers
  import opened Http

  /** The one web origin, besides "null" and none at all, that may call the proxy. */
  const LocalOrigin: string := "http://localhost:3000"

  /** Status of the answer to an accepted preflight (`optionsSuccessStatus`). */
  const PreflightStatus: int := 200

  /** Every value of the `Origin` header the gate lets through. */
  const AllowedOrigins: set<Option<string>> := {None, Some(""), Some("null"), Some(LocalOrigin)}

  /** The origin callback: absent or empty, the literal "null", or the local origin. */
  function OriginAllowed(origin: Option<string>): (allowed: bool)
    ensures allowed <==> origin in AllowedOrigins
  {
    !Truthy(origin) || origin.value == "null" || origin.value == LocalOrigin
  }

  /** A foreign site is turned away. */
  lemma ForeignOriginRejected()
    ensures !OriginAllowed(Some("https://evil.example"))
  {
  }

  /** The match is exact: another port or a trailing slash is a different origin. */
  lemma LocalOriginMatchedExactly()
    ensures OriginAllowed(Some(LocalOrigin))
    ensures !OriginAllowed(Some("http://localhost:3001"))
    ensures !OriginAllowed(Some("http://localhost:3000/"))
  {
  }
}
