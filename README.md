# CORS proxy: request validation and relay

A Dafny model of the Express CORS proxy in `cors_proxy_server.js`. One
endpoint, `/proxy`, takes a target URL from the query string or the body,
checks it, forwards the request to one of a fixed set of upstream hosts, and
relays the outcome to the caller. The model covers every decision on that
path:

- the CORS origin callback, which decides who may call the proxy
  (`CorsGate`);
- the `validateTargetUrl` middleware: target selection, normalisation,
  parsing and the hostname allowlist, and the recording of `req.targetUrl`
  (`TargetValidation`);
- the `proxyRequest` handler: the method, URL, header map and body handed to
  the HTTP client, and the status written back for each client outcome
  (`UpstreamRequest`);
- the request as a whole, from origin gate to reply (`ProxyPipeline`).

The Express request is a class (`Http.Request`) because the validation
middleware writes `req.targetUrl` into it. The outbound header dictionary is
built step by step in `BuildConfig`, by a loop over the API-key header names,
as the handler builds it. Everything else consists of functions over values.

Two collaborators are parameters, not models:

- `parse: string -> Option<string>` stands for `new url.URL(t).hostname`.
  It gives None when the constructor throws.
- `upstream: Config -> UpstreamOutcome` stands for the axios call. In
  `HandleRequest`, `sent == None` means the client was never called.

The model follows what the code does, including where a proxy might be
expected to behave otherwise:

- `User-Agent` is pinned to `cors-proxy/1.0` and never passed through.
- The handler sets no default `Accept`.
- Extra query parameters are not merged into the target.
- A body goes upstream only for `POST`.
- An upstream error status (any status axios rejects) reaches the caller as
  that status. The body is then a JSON error report, not the upstream body
  as received. Upstream response headers are not forwarded.
- A rejected origin is passed to the error middleware, which answers 500.

`req.body` is optional in the model. When no body parser ran, Express 5
leaves it `undefined`. If `req.query.url` is also falsy, reading
`req.body.url` then throws, and the error middleware answers 500. The model
calls that verdict `BodyUnreadable`. With Express 4 it cannot occur.

## Model

| member | source | states |
|---|---|---|
| CorsGate.OriginAllowed | cors_proxy_server.js:33-41 | an origin passes iff it is absent, empty, the literal "null" or exactly "http://localhost:3000" (membership in the reference set AllowedOrigins) |
| CorsGate.ForeignOriginRejected | cors_proxy_server.js:34-40 | a foreign origin such as "https://evil.example" is rejected |
| CorsGate.LocalOriginMatchedExactly | cors_proxy_server.js:34 | the local origin passes; the same host on another port, or with a trailing slash, does not |
| TargetValidation.RejectionReply | cors_proxy_server.js:57-165 | missing and invalid targets get 400 (lines 57-73), a host off the allowlist gets 403 (lines 76-79), an unreadable body gets the error middleware's 500 (lines 152-165), each with a JSON error body |
| TargetValidation.StripLeadingSlashes | cors_proxy_server.js:62 | the result is a suffix of the input, everything removed was '/', and the result does not start with '/' |
| TargetValidation.Normalize | cors_proxy_server.js:62-65 | the normalised target always starts with "http://" or "https://"; it is the stripped input when that already has a scheme, and "https://" followed by the stripped input otherwise |
| TargetValidation.NormalizeIdempotent | cors_proxy_server.js:62-65 | normalising a normalised target changes nothing |
| TargetValidation.NoSchemeGetsHttps | cors_proxy_server.js:62-65 | a target that begins with neither '/' nor 'h' becomes "https://" followed by the target |
| TargetValidation.SchemeAdded | cors_proxy_server.js:63-65 | "ipinfo.io/8.8.8.8" normalises to "https://ipinfo.io/8.8.8.8" |
| TargetValidation.LeadingSlashIgnored | cors_proxy_server.js:62 | a leading '/' does not change the normalised target |
| TargetValidation.SchemeKept | cors_proxy_server.js:62-63 | every target that, once stripped, starts with "http://" or "https://" is kept as it is |
| TargetValidation.HttpTargetKept | cors_proxy_server.js:63 | "http://ipinfo.io/json" is kept as it is, not turned into an https URL |
| TargetValidation.StripNoLeadingSlash | cors_proxy_server.js:62 | a string that does not start with '/' is unchanged by the stripping |
| TargetValidation.BodyUrl | cors_proxy_server.js:56 | no contract: its body is the definition of `req.body.url` (undefined when the body has no `url` field); MissingTargetIff and TargetSelection state how it is used |
| TargetValidation.HasScheme | cors_proxy_server.js:63 | no contract: its body is the definition of the regex test `^https?://` (case-sensitive prefix test); Normalize, SchemeKept and NoSchemeGetsHttps state its role |
| TargetValidation.Check | cors_proxy_server.js:62-81 | an accepted verdict carries the normalised target, whose host parses and is on the allowlist; a present target is never reported missing or unreadable. UnparsableIsInvalid and AllowListExact state its outcomes |
| TargetValidation.Validate | cors_proxy_server.js:46-84 | an accepted target starts with a scheme, is a fixed point of normalisation, parses, and its hostname is on the allowlist; the body is unreadable exactly when the query `url` is falsy and there is no body object |
| TargetValidation.MissingTargetIff | cors_proxy_server.js:56-60 | the verdict is MissingTarget iff the query `url` is falsy, a body exists, and its `url` is falsy |
| TargetValidation.MissingTargetSkipsParsing | cors_proxy_server.js:56-60 | a missing target is reported whatever the URL parser would say, so nothing is parsed |
| TargetValidation.TargetSelection | cors_proxy_server.js:56 | a truthy query `url` is checked and the body's ignored; otherwise a truthy body `url` is checked |
| TargetValidation.UnparsableIsInvalid | cors_proxy_server.js:67-73 | a normalised target that does not parse gives InvalidUrl, before any allowlist check |
| TargetValidation.OnlySlashesIsInvalid | cors_proxy_server.js:57-73 | "///" passes the missing check, normalises to "https://", and is InvalidUrl when that does not parse |
| TargetValidation.AllowListExact | cors_proxy_server.js:75-81 | a parsed host is accepted iff it is an element of the allowlist; otherwise the verdict is DomainNotAllowed |
| TargetValidation.AllowListExamples | cors_proxy_server.js:12-25 | "api.shodan.io" is allowed; its subdomain, a longer name containing it, and its parent domain are not |
| TargetValidation.AcceptedIsNormalized | cors_proxy_server.js:56-83 | an accepted target is the normalised form of the selected raw target (query first, else body) |
| TargetValidation.ValidateTargetUrl | cors_proxy_server.js:46-84 | the middleware's early returns give the verdict Validate specifies, and `req.targetUrl` is written only on acceptance, with the normalised target |
| UpstreamRequest.Lower | cors_proxy_server.js:90 | the lower-cased method has the input's length and each character lower-cased |
| UpstreamRequest.LowerIdempotent | cors_proxy_server.js:90 | the lower-cased method holds no upper-case letter, so lower-casing again changes nothing |
| UpstreamRequest.PostLowered | cors_proxy_server.js:90 | "POST" is handed to the client as "post" |
| UpstreamRequest.ContentTypeOf | cors_proxy_server.js:94 | no contract: its body is the definition of the caller's `content-type` when truthy, else 'application/x-www-form-urlencoded'; HeaderPolicy and ApiKeyForwardedCustomDropped use it |
| UpstreamRequest.HeaderPolicy | cors_proxy_server.js:92-115 | no contract: the reference definition of the outbound header map (exact key set and each value); BuildConfig and HandleRequest ensure it, HeaderPolicyDeterministic shows it fixes the map |
| UpstreamRequest.HeaderPolicyDeterministic | cors_proxy_server.js:92-115 | the header policy fixes the outbound header map completely |
| UpstreamRequest.OnlyListedHeadersForwarded | cors_proxy_server.js:92-115 | no inbound header outside User-Agent, Content-Type, Accept, api-key, key and apikey is put in the client's header map |
| UpstreamRequest.ApiKeyForwardedCustomDropped | cors_proxy_server.js:92-110 | an inbound `apikey: XYZ` goes upstream unchanged, `x-custom` is dropped, and Content-Type defaults to form encoding |
| UpstreamRequest.InitialHeadersCopied | cors_proxy_server.js:92-95 | the initial header map holds the pinned User-Agent and the Content-Type (the caller's, or the form-encoding default) and no API-key header |
| UpstreamRequest.ForwardedSnoc | cors_proxy_server.js:106-110 | examining one more API-key name adds it to the forwarded names exactly when the caller sent it with a non-empty value |
| UpstreamRequest.ApiKeyStep | cors_proxy_server.js:107-109 | one turn of the loop copies the examined header iff the caller sent it, and keeps everything copied so far |
| UpstreamRequest.CopyApiKeyHeaders | cors_proxy_server.js:106-110 | after the loop, exactly the API-key headers the caller sent have been added, with the caller's values, next to the two initial headers |
| UpstreamRequest.AcceptCompletesPolicy | cors_proxy_server.js:113-115 | adding Accept when the caller sent one completes the header policy |
| UpstreamRequest.BuildConfig | cors_proxy_server.js:89-115 | the client gets the lower-cased method and the recorded target. The headers are exactly the policy's: pinned User-Agent, Content-Type or its default, each present API-key header and Accept with the caller's values. A body is attached iff the method is POST and a body exists |
| UpstreamRequest.Relay | cors_proxy_server.js:117-144 | a success relays the upstream status and data; an error with a response relays that status; a transport failure gives 500 |
| UpstreamRequest.ServerErrorIff | cors_proxy_server.js:119-144 | the caller sees 500 iff upstream gave no response or itself answered 500 |
| UpstreamRequest.NotFoundRelayed | cors_proxy_server.js:119-133 | an upstream 404 reaches the caller as 404 |
| Http.Request.constructor | cors_proxy_server.js:56-81 | the Express request object `req`: method, query `url`, body and headers as they arrived, and no `targetUrl` until the validation writes one (line 81) |
| ProxyPipeline.HandleRequest | cors_proxy_server.js:32-149 | rejected origin: 500, with no validation and no upstream call. Accepted OPTIONS: answered 200 by the CORS middleware. Rejected target: its 400/403/500 reply and no upstream call. Accepted target: recorded, one upstream request built by the policy and carrying `req.body` iff POST with a body, and its outcome relayed |

## Left out

- Express setup, the body parsers, routing of paths other than `/proxy`, and `app.listen` are framework plumbing. The error middleware appears only as its 500 reply (`Http.ServerErrorReply`).
- A body that fails to parse is not modelled. The body parsers run before the CORS middleware and pass the error to the error middleware.
- Non-string `url` values are not modelled: repeated query parameters give an array, and a JSON body can hold any value. Both make `replace` throw. The model's `url` values are strings.
- The WHATWG URL parser inside `url.URL` (host lower-casing, IDNA, ports) is the parameter `parse`.
- The HTTP client's own default request headers are not modelled. axios adds, for example, `Accept: application/json, text/plain, */*` when none is set, and `Accept-Encoding`, `Host` and `Content-Length`; the model stops at the header map the handler gives it.
- The axios call and its `https.Agent` with certificate checks disabled are foreign code. Their outcome is the input `UpstreamOutcome`.
- Relay: does not model axios's default rule that only 2xx statuses resolve, because that rule belongs to the client. `Success` may carry any status.
- Relay: treats the upstream data as opaque. Under Express 4, `res.send` given a lone number (data that axios parsed to a bare number such as `42`) takes it as the status, so the caller then sees that number, or 500 when it is not a valid status; the model relays the upstream status.
- ServerErrorIff: holds for the modelled outcomes only; the numeric-data case of Express 4 described on the line above is outside it.
- Lower: lower-cases ASCII letters only, because Node delivers method names as ASCII tokens. JavaScript's full Unicode `toLowerCase` is not modelled.
- The CORS middleware's response headers (`Access-Control-*`) and its preflight headers are not modelled. The preflight appears as status 200 with no body.
- Error JSON bodies are reduced to their `error` field. Messages, stack traces, echoed headers and upstream data are left out, and so are the contents of relayed data.
- Logging (`console.log`, `console.error`) and timestamps are I/O.
- async/await sequencing is left out because requests share no state. The only state a request changes is its own `req.targetUrl`.
