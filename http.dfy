/**
 * The parts of an Express request and response that the proxy looks at.
 * Header names are the lower-case names Node.js uses as keys of `req.headers`.
 */
module Http {
  import opened Wrappers

  /** A parsed request body (JSON or URL-encoded form): field name to value. */
  datatype Body = Body(fields: map<string, string>)

  /** What the proxy writes back to its caller. */
  datatype ReplyBody =
    | UpstreamData             // the upstream response's data, sent as received
    | ErrorJson(error: string) // a JSON object whose `error` field is this text
    | NoContent                // an empty body (the answer to a CORS preflight)

  datatype Reply = Reply(status: int, body: ReplyBody)

  /** The answer of the application's error-handling middleware to any error passed to `next`. */
  const ServerErrorReply: Reply := Reply(500, ErrorJson("Internal server error"))

  /** JavaScript truthiness of a string that may be `undefined`: defined and not empty. */
  predicate Truthy(v: Option<string>)
  {
    v.Some? && v.value != ""
  }

  /** `headers[name]`, which is `undefined` when the header was not sent. */
  function Header(headers: map<string, string>, name: string): Option<string>
  {
    if name in headers then Some(headers[name]) else None
  }

  /** The test `if (req.headers[name])`. */
  predicate Present(headers: map<string, string>, name: string)
  {
    Truthy(Header(headers, name))
  }

  /**
   * The Express request object. Everything but `targetUrl` is fixed when the
   * request arrives; `targetUrl` is written by the target validation.
   */
  class Request {
    const httpMethod: string   // req.method, upper case as Node.js gives it
    const queryUrl: Option<string>   // req.query.url
    const body: Option<Body>         // req.body, absent when no body parser filled it
    const headers: map<string, string>
    var targetUrl: Option<string>    // req.targetUrl

    constructor (httpMethod: string, queryUrl: Option<string>, body: Option<Body>, headers: map<string, string>)
      ensures this.httpMethod == httpMethod && this.queryUrl == queryUrl
      ensures this.body == body && this.headers == headers
      ensures targetUrl == None
    {
      this.httpMethod := httpMethod;
      this.queryUrl := queryUrl;
      this.body := body;
      this.headers := headers;
      targetUrl := None;
    }
  }
}
