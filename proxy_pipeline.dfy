/**
 * One request to `/proxy`, end to end: the CORS origin gate, then the target
 * validation, then the upstream request and the relayed answer.
 *
 * The HTTP client is the parameter `upstream`; `sent` is the request handed
 * to it, and None means the client was never called.
 */
module ProxyPipeline {
  import opened Wrappers
  import opened Http
  import opened CorsGate
  import opened TargetValidation
  import opened UpstreamRequest

  method HandleRequest(req: Request, parse: string -> Option<string>, upstream: Config -> UpstreamOutcome)
    returns (reply: Reply, sent: Option<Config>)
    modifies req
    // a rejected origin goes to the error middleware before anything else runs
    ensures !OriginAllowed(Header(req.headers, "origin")) ==>
      reply == ServerErrorReply && sent == None && req.targetUrl == old(req.targetUrl)
    // an accepted preflight is answered by the CORS middleware itself
    ensures OriginAllowed(Header(req.headers, "origin")) && req.httpMethod == "OPTIONS" ==>
      reply == Reply(PreflightStatus, NoContent) && sent == None && req.targetUrl == old(req.targetUrl)
    ensures OriginAllowed(Header(req.headers, "origin")) && req.httpMethod != "OPTIONS" ==>
      var v := Validate(req.queryUrl, req.body, parse);
      && (!v.Accepted? ==> reply == RejectionReply(v) && sent == None && req.targetUrl == old(req.targetUrl))
      && (v.Accepted? ==>
            && req.targetUrl == Some(v.targetUrl)
            && sent.Some?
            && sent.value.url == v.targetUrl
            && sent.value.httpMethod == Lower(req.httpMethod)
            && HeaderPolicy(req.headers, sent.value.headers)
            && (sent.value.data.Some? <==> req.httpMethod == "POST" && req.body.Some?)
            && (sent.value.data.Some? ==> sent.value.data == req.body)
            && reply == Relay(upstream(sent.value)))
  {
    sent := None;
    if !OriginAllowed(Header(req.headers, "origin")) {
      return ServerErrorReply, None;
    }
    if req.httpMethod == "OPTIONS" {
      return Reply(PreflightStatus, NoContent), None;
    }
    var verdict := ValidateTargetUrl(req, parse);
    if !verdict.Accepted? {
      return RejectionReply(verdict), None;
    }
    var config := BuildConfig(req);
    sent := Some(config);
    reply := Relay(upstream(config));
  }
}
