/**
 * The `proxyRequest` handler: the request sent upstream (method, URL,
 * headers, body) and the answer written back from the upstream outcome.
 *
 * The HTTP client itself is not modelled: its outcome is an input.
 */
module UpstreamRequest {
  import opened Wrappers
  import opened Http

  /** The pinned `User-Agent` of every upstream request. */
  const UserAgent: string := "cors-proxy/1.0"

  /** The `Content-Type` sent when the caller gave none. */
  const DefaultContentType: string := "application/x-www-form-urlencoded"

  /** The API-key headers copied upstream, in the order they are examined. */
  const ApiKeyHeaders: seq<string> := ["api-key", "key", "apikey"]

  /** Every name an upstream request can carry as a header. */
  const OutboundNames: set<string> := {"User-Agent", "Content-Type", "Accept", "api-key", "key", "apikey"}

  /** The request given to the HTTP client. */
  datatype Config = Config(httpMethod: string, url: string, headers: map<string, string>, data: Option<Body>)

  /** What the HTTP client did: answered with a success status, answered with an error status, or got no answer. */
  datatype UpstreamOutcome = Success(status: int) | HttpError(status: int) | TransportError

  function LowerChar(c: char): char
  {
    if 'A' <= c <= 'Z' then (c as int + 32) as char else c
  }

  /** `toLowerCase` on the ASCII letters of a method name. */
  function Lower(s: string): (r: string)
    ensures |r| == |s|
    ensures forall i :: 0 <= i < |s| ==> r[i] == LowerChar(s[i])
  {
    if s == [] then [] else [LowerChar(s[0])] + Lower(s[1..])
  }

  /** Lower-casing leaves no upper-case letter, so doing it twice changes nothing. */
  lemma LowerIdempotent(s: string)
    ensures forall i :: 0 <= i < |Lower(s)| ==> !('A' <= Lower(s)[i] <= 'Z')
    ensures Lower(Lower(s)) == Lower(s)
  {
  }

  /** Node gives "POST"; the client is handed "post". */
  lemma PostLowered()
    ensures Lower("POST") == "post"
  {
  }

  /** `req.headers['content-type'] || DefaultContentType`. */
  function ContentTypeOf(inbound: map<string, string>): string
  {
    if Present(inbound, "content-type") then inbound["content-type"] else DefaultContentType
  }

  /** The names among `names` that the caller sent with a truthy value. */
  function Forwarded(inbound: map<string, string>, names: seq<string>): set<string>
  {
    set h | h in names && Present(inbound, h)
  }

  /** Examining one more name adds it exactly when the caller sent it. */
  lemma ForwardedSnoc(inbound: map<string, string>, names: seq<string>, name: string)
    ensures Forwarded(inbound, names + [name])
            == Forwarded(inbound, names) + (if Present(inbound, name) then {name} else {})
  {
    assert forall h :: h in names + [name] <==> h in names || h == name;
  }

  /**
   * The header policy: exactly the pinned `User-Agent`, the `Content-Type`
   * (with its default), each API-key header the caller sent, and `Accept`
   * when the caller sent one; copied values are the caller's.
   */
  predicate HeaderPolicy(inbound: map<string, string>, out: map<string, string>)
  {
    && out.Keys == {"User-Agent", "Content-Type"}
                   + Forwarded(inbound, ApiKeyHeaders)
                   + (if Present(inbound, "accept") then {"Accept"} else {})
    && out["User-Agent"] == UserAgent
    && out["Content-Type"] == ContentTypeOf(inbound)
    && (forall h :: h in Forwarded(inbound, ApiKeyHeaders) ==> out[h] == inbound[h])
    && (Present(inbound, "accept") ==> out["Accept"] == inbound["accept"])
  }

  /** The policy leaves no choice: two header maps that both follow it are equal. */
  lemma HeaderPolicyDeterministic(inbound: map<string, string>, a: map<string, string>, b: map<string, string>)
    requires HeaderPolicy(inbound, a) && HeaderPolicy(inbound, b)
    ensures a == b
  {
    forall k | k in a.Keys
      ensures a[k] == b[k]
    {
      if k == "User-Agent" || k == "Content-Type" || k == "Accept" {
      } else {
        assert k in Forwarded(inbound, ApiKeyHeaders);
      }
    }
  }

  /** No header outside the fixed names is ever forwarded, whatever the caller sent. */
  lemma OnlyListedHeadersForwarded(inbound: map<string, string>, out: map<string, string>, name: string)
    requires HeaderPolicy(inbound, out)
    requires name !in OutboundNames
    ensures name !in out
  {
  }

  /** An `apikey` header is forwarded as it came; an unlisted `x-custom` header is dropped. */
  lemma ApiKeyForwardedCustomDropped(out: map<string, string>)
    requires HeaderPolicy(map["apikey" := "XYZ", "x-custom" := "foo"], out)
    ensures "apikey" in out && out["apikey"] == "XYZ"
    ensures "x-custom" !in out && "X-Custom" !in out
    ensures out["Content-Type"] == DefaultContentType
  {
    var inbound := map["apikey" := "XYZ", "x-custom" := "foo"];
    assert "apikey" in ApiKeyHeaders && Present(inbound, "apikey");
    assert "apikey" in Forwarded(inbound, ApiKeyHeaders);
  }

  /** The `forEach` over the API-key header names: copy each one the caller sent. */
  method CopyApiKeyHeaders(inbound: map<string, string>, initial: map<string, string>) returns (headers: map<string, string>)
    requires CopiedSoFar(inbound, initial, [])
    ensures CopiedSoFar(inbound, headers, ApiKeyHeaders)
  {
    headers := initial;
    var i := 0;
    while i < |ApiKeyHeaders|
      invariant 0 <= i <= |ApiKeyHeaders|
      invariant CopiedSoFar(inbound, headers, ApiKeyHeaders[..i])
    {
      var name := ApiKeyHeaders[i];
      ghost var before := headers;
      if Present(inbound, name) {
        headers := headers[name := inbound[name]];
      }
      ApiKeyStep(inbound, before, ApiKeyHeaders[..i], name, headers);
      assert ApiKeyHeaders[..i + 1] == ApiKeyHeaders[..i] + [name];
      i := i + 1;
    }
    assert ApiKeyHeaders[..i] == ApiKeyHeaders;
  }

  /**
   * Builds the client configuration: method lower-cased, the recorded target
   * URL, the headers step by step, and the body only for POST.
   */
  method BuildConfig(req: Request) returns (config: Config)
    requires req.targetUrl.Some?
    ensures config.httpMethod == Lower(req.httpMethod)
    ensures config.url == req.targetUrl.value
    ensures config.data.Some? <==> req.httpMethod == "POST" && req.body.Some?
    ensures config.data.Some? ==> config.data == req.body
    ensures HeaderPolicy(req.headers, config.headers)
  {
    var headers := map[
      "User-Agent" := UserAgent,
      "Content-Type" := ContentTypeOf(req.headers)
    ];
    var data: Option<Body> := None;
    if req.httpMethod == "POST" && req.body.Some? {
      data := req.body;
    }
    InitialHeadersCopied(req.headers);
    headers := CopyApiKeyHeaders(req.headers, headers);
    ghost var copied := headers;
    if Present(req.headers, "accept") {
      headers := headers["Accept" := req.headers["accept"]];
    }
    AcceptCompletesPolicy(req.headers, copied, headers);
    config := Config(Lower(req.httpMethod), req.targetUrl.value, headers, data);
  }

  /**
   * The state of BuildConfig's header map after examining `names`: the two
   * initial headers and every name examined so far that the caller sent.
   */
  predicate CopiedSoFar(inbound: map<string, string>, headers: map<string, string>, names: seq<string>)
  {
    && headers.Keys == {"User-Agent", "Content-Type"} + Forwarded(inbound, names)
    && headers["User-Agent"] == UserAgent
    && headers["Content-Type"] == ContentTypeOf(inbound)
    && (forall h :: h in Forwarded(inbound, names) ==> headers[h] == inbound[h])
  }

  /** BuildConfig's header map before the loop: nothing examined yet. */
  lemma InitialHeadersCopied(inbound: map<string, string>)
    ensures CopiedSoFar(inbound, map["User-Agent" := UserAgent, "Content-Type" := ContentTypeOf(inbound)], [])
  {
    assert Forwarded(inbound, []) == {};
  }

  /** One turn of BuildConfig's loop: copying an API-key header the caller sent. */
  lemma ApiKeyStep(inbound: map<string, string>, headers: map<string, string>, names: seq<string>, name: string, next: map<string, string>)
    requires CopiedSoFar(inbound, headers, names)
    requires name in ApiKeyHeaders
    requires next == if Present(inbound, name) then headers[name := inbound[name]] else headers
    ensures CopiedSoFar(inbound, next, names + [name])
  {
    ForwardedSnoc(inbound, names, name);
    assert name != "User-Agent" && name != "Content-Type";
  }

  /** The last step of BuildConfig: adding `Accept` to the copied headers completes the policy. */
  lemma AcceptCompletesPolicy(inbound: map<string, string>, copied: map<string, string>, out: map<string, string>)
    requires CopiedSoFar(inbound, copied, ApiKeyHeaders)
    requires out == if Present(inbound, "accept") then copied["Accept" := inbound["accept"]] else copied
    ensures HeaderPolicy(inbound, out)
  {
    assert "Accept" !in Forwarded(inbound, ApiKeyHeaders);
  }

  /**
   * The answer to the caller: a success is relayed with its status and data;
   * an error status from upstream is relayed as that status with an error
   * report; no answer at all becomes 500.
   */
  function Relay(outcome: UpstreamOutcome): (r: Reply)
    ensures outcome.TransportError? ==> r.status == 500
    ensures !outcome.TransportError? ==> r.status == outcome.status
    ensures r.body == UpstreamData <==> outcome.Success?
  {
    match outcome
    case Success(status) => Reply(status, UpstreamData)
    case HttpError(status) => Reply(status, ErrorJson("Proxy request failed"))
    case TransportError => Reply(500, ErrorJson("Proxy error"))
  }

  /** The caller sees 500 exactly when upstream gave no answer or itself answered 500. */
  lemma ServerErrorIff(outcome: UpstreamOutcome)
    ensures Relay(outcome).status == 500 <==> outcome.TransportError? || outcome.status == 500
  {
  }

  /**
   * An upstream 404 reaches the caller as 404, not as a proxy failure.
   * With the client's default status rule a 404 arrives as `HttpError(404)`;
   * the `Success(404)` clause covers a client configured to resolve it.
   */
  lemma NotFoundRelayed()
    ensures Relay(HttpError(404)).status == 404
    ensures Relay(Success(404)).status == 404
  {
  }
}
