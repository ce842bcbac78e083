/**
 * The `validateTargetUrl` middleware: pick the target, normalise it, parse
 * it, and check its hostname against the allowlist.
 *
 * URL parsing (Node's `url.URL`) is not modelled: every member takes it as a
 * parameter `parse` that yields the hostname, or None when parsing throws.
 */
module TargetValidation {
  import opened Wrappers
  import opened Http

  /** The upstream hosts the proxy may reach. */
  const AllowList: seq<string> := [
    "api.shodan.io",
    "ipinfo.io",
    "safebrowsing.googleapis.com",
    "dns.google.com",
    "api.hudsonrock.com",
    "cavalier.hudsonrock.com",
    "internetdb.shodan.io",
    "api.greynoise.io",
    "urlscan.io",
    "proxy",
    "api.securitytrails.com",
    "urlhaus-api.abuse.ch"
  ]

  const HttpPrefix: string := "http://"
  const HttpsPrefix: string := "https://"

  /** How the middleware ends. */
  datatype Verdict =
    | MissingTarget            // 400 "No target URL provided"
    | InvalidUrl               // 400 "Invalid URL format"
    | DomainNotAllowed         // 403 "Target domain not in allow list"
    | Accepted(targetUrl: string)
    | BodyUnreadable           // `req.body.url` read while there is no body object: the TypeError goes to the error middleware

  /** The answer written for a request the middleware does not pass on. */
  function RejectionReply(v: Verdict): (r: Reply)
    requires !v.Accepted?
    ensures r.body.ErrorJson?
    ensures r.status == 400 <==> v == MissingTarget || v == InvalidUrl
    ensures r.status == 403 <==> v == DomainNotAllowed
    ensures r.status == 500 <==> v == BodyUnreadable
  {
    match v
    case MissingTarget => Reply(400, ErrorJson("No target URL provided"))
    case InvalidUrl => Reply(400, ErrorJson("Invalid URL format"))
    case DomainNotAllowed => Reply(403, ErrorJson("Target domain not in allow list"))
    case BodyUnreadable => ServerErrorReply
  }

  /** `req.body.url` of a body object. */
  function BodyUrl(body: Body): Option<string>
  {
    if "url" in body.fields then Some(body.fields["url"]) else None
  }

  /** `s.replace(/^\/+/, '')`: every leading '/' removed, nothing else touched. */
  function StripLeadingSlashes(s: string): (r: string)
    ensures |r| <= |s| && r == s[|s| - |r|..]
    ensures forall i :: 0 <= i < |s| - |r| ==> s[i] == '/'
    ensures r == [] || r[0] != '/'
  {
    if s != [] && s[0] == '/' then StripLeadingSlashes(s[1..]) else s
  }

  /** `s.match(/^https?:\/\//)` succeeds (the test is case-sensitive). */
  predicate HasScheme(s: string)
  {
    HttpPrefix <= s || HttpsPrefix <= s
  }

  /** Leading slashes stripped, then "https://" put in front unless a scheme is there. */
  function Normalize(raw: string): (t: string)
    ensures HasScheme(t)
    ensures HasScheme(StripLeadingSlashes(raw)) ==> t == StripLeadingSlashes(raw)
    ensures !HasScheme(StripLeadingSlashes(raw)) ==> t == HttpsPrefix + StripLeadingSlashes(raw)
  {
    var s := StripLeadingSlashes(raw);
    if HasScheme(s) then s else HttpsPrefix + s
  }

  /** Normalisation, parsing and the allowlist, applied to a raw target that is present. */
  function Check(raw: string, parse: string -> Option<string>): (v: Verdict)
    ensures v != MissingTarget && v != BodyUnreadable
    ensures v.Accepted? ==> v.targetUrl == Normalize(raw)
    ensures v.Accepted? ==> parse(v.targetUrl).Some? && parse(v.targetUrl).value in AllowList
  {
    var t := Normalize(raw);
    match parse(t)
    case None => InvalidUrl
    case Some(host) => if host in AllowList then Accepted(t) else DomainNotAllowed
  }

  /** The whole middleware: `req.query.url || req.body.url`, then Check. */
  function Validate(queryUrl: Option<string>, body: Option<Body>, parse: string -> Option<string>): (v: Verdict)
    ensures v.Accepted? ==> HasScheme(v.targetUrl) && Normalize(v.targetUrl) == v.targetUrl
    ensures v.Accepted? ==> parse(v.targetUrl).Some? && parse(v.targetUrl).value in AllowList
    ensures v == BodyUnreadable <==> !Truthy(queryUrl) && body.None?
  {
    if Truthy(queryUrl) then Check(queryUrl.value, parse)
    else if body.None? then BodyUnreadable
    else
      var raw := BodyUrl(body.value);
      if Truthy(raw) then Check(raw.value, parse)
      else MissingTarget
  }

  /** A string that does not begin with '/' is left alone by the stripping. */
  lemma StripNoLeadingSlash(s: string)
    requires s == [] || s[0] != '/'
    ensures StripLeadingSlashes(s) == s
  {
  }

  /** Normalising twice is normalising once. */
  lemma NormalizeIdempotent(raw: string)
    ensures Normalize(Normalize(raw)) == Normalize(raw)
  {
    var t := Normalize(raw);
    assert t[0] == 'h' by {
      if HttpPrefix <= t { assert t[0] == HttpPrefix[0]; } else { assert t[0] == HttpsPrefix[0]; }
    }
    StripNoLeadingSlash(t);
  }

  /** A target without a scheme is sent over https. */
  lemma SchemeAdded()
    ensures Normalize("ipinfo.io/8.8.8.8") == "https://ipinfo.io/8.8.8.8"
  {
    NoSchemeGetsHttps("ipinfo.io/8.8.8.8");
  }

  /** A target that starts with neither '/' nor 'h' just gets "https://" in front. */
  lemma NoSchemeGetsHttps(raw: string)
    requires raw != [] && raw[0] != '/' && raw[0] != 'h'
    ensures Normalize(raw) == HttpsPrefix + raw
  {
    StripNoLeadingSlash(raw);
    assert !(HttpPrefix <= raw) by { assert HttpPrefix[0] == 'h'; }
    assert !(HttpsPrefix <= raw) by { assert HttpsPrefix[0] == 'h'; }
  }

  /** Leading slashes do not matter: they go before the scheme is looked for. */
  lemma LeadingSlashIgnored(raw: string)
    ensures Normalize("/" + raw) == Normalize(raw)
  {
    assert ("/" + raw)[1..] == raw;
  }

  /** A target that, once stripped, already has a scheme is kept as it is. */
  lemma SchemeKept(raw: string)
    requires HasScheme(StripLeadingSlashes(raw))
    ensures Normalize(raw) == StripLeadingSlashes(raw)
  {
  }

  /** For instance, "http://ipinfo.io/json" is not turned into an https URL. */
  lemma HttpTargetKept()
    ensures Normalize("http://ipinfo.io/json") == "http://ipinfo.io/json"
  {
    StripNoLeadingSlash("http://ipinfo.io/json");
    assert HttpPrefix <= "http://ipinfo.io/json";
    SchemeKept("http://ipinfo.io/json");
  }

  /** The target is missing exactly when neither the query nor the body gives a non-empty `url`. */
  lemma MissingTargetIff(queryUrl: Option<string>, body: Option<Body>, parse: string -> Option<string>)
    ensures Validate(queryUrl, body, parse) == MissingTarget <==>
      !Truthy(queryUrl) && body.Some? && !Truthy(BodyUrl(body.value))
  {
  }

  /** A missing target is reported whatever the parser would say: nothing is parsed. */
  lemma MissingTargetSkipsParsing(queryUrl: Option<string>, body: Option<Body>, p1: string -> Option<string>, p2: string -> Option<string>)
    requires Validate(queryUrl, body, p1) == MissingTarget
    ensures Validate(queryUrl, body, p2) == MissingTarget
  {
  }

  /** A non-empty query `url` wins over the body's; otherwise the body's is checked. */
  lemma TargetSelection(queryUrl: Option<string>, body: Option<Body>, parse: string -> Option<string>)
    ensures Truthy(queryUrl) ==> Validate(queryUrl, body, parse) == Check(queryUrl.value, parse)
    ensures !Truthy(queryUrl) && body.Some? && Truthy(BodyUrl(body.value)) ==>
      Validate(queryUrl, body, parse) == Check(BodyUrl(body.value).value, parse)
  {
  }

  /** A target that does not parse is invalid, whatever the allowlist holds. */
  lemma UnparsableIsInvalid(raw: string, parse: string -> Option<string>)
    requires parse(Normalize(raw)) == None
    ensures Check(raw, parse) == InvalidUrl
  {
  }

  /** "///" is present as a target, but normalises to "https://", which the parser refuses. */
  lemma OnlySlashesIsInvalid(body: Option<Body>, parse: string -> Option<string>)
    requires parse("https://") == None
    ensures Validate(Some("///"), body, parse) == InvalidUrl
  {
    var s := StripLeadingSlashes("///");
    assert s == "";
    assert !HasScheme(s);
    assert Normalize("///") == HttpsPrefix;
    assert Truthy(Some("///"));
  }

  /** A parsed host passes exactly when it is an element of the allowlist. */
  lemma AllowListExact(raw: string, parse: string -> Option<string>, host: string)
    requires parse(Normalize(raw)) == Some(host)
    ensures host in AllowList ==> Check(raw, parse) == Accepted(Normalize(raw))
    ensures host !in AllowList ==> Check(raw, parse) == DomainNotAllowed
  {
  }

  /** No subdomain and no longer name containing an allowed host is allowed. */
  lemma AllowListExamples()
    ensures "api.shodan.io" in AllowList
    ensures "evil.api.shodan.io" !in AllowList
    ensures "api.shodan.io.evil.com" !in AllowList
    ensures "shodan.io" !in AllowList
  {
  }

  /** The recorded target is the normalised one, never the raw input unless they agree. */
  lemma AcceptedIsNormalized(queryUrl: Option<string>, body: Option<Body>, parse: string -> Option<string>)
    ensures var v := Validate(queryUrl, body, parse);
      v.Accepted? && Truthy(queryUrl) ==> v.targetUrl == Normalize(queryUrl.value)
    ensures var v := Validate(queryUrl, body, parse);
      v.Accepted? && !Truthy(queryUrl) ==>
        && body.Some? && Truthy(BodyUrl(body.value))
        && v.targetUrl == Normalize(BodyUrl(body.value).value)
  {
    if Truthy(queryUrl) {
      assert Validate(queryUrl, body, parse) == Check(queryUrl.value, parse);
    } else if body.Some? && Truthy(BodyUrl(body.value)) {
      var raw := BodyUrl(body.value);
      assert Validate(queryUrl, body, parse) == Check(raw.value, parse);
    }
  }

  /**
   * The middleware as written: early returns, and `req.targetUrl` recorded
   * only on acceptance.
   */
  method ValidateTargetUrl(req: Request, parse: string -> Option<string>) returns (v: Verdict)
    modifies req
    ensures v == Validate(req.queryUrl, req.body, parse)
    ensures req.targetUrl == if v.Accepted? then Some(v.targetUrl) else old(req.targetUrl)
  {
    var raw: Option<string>;
    if Truthy(req.queryUrl) {
      raw := req.queryUrl;
    } else if req.body.None? {
      return BodyUnreadable;
    } else {
      raw := BodyUrl(req.body.value);
    }
    if !Truthy(raw) {
      return MissingTarget;
    }
    var targetUrl := Normalize(raw.value);
    var parsed := parse(targetUrl);
    if parsed.None? {
      return InvalidUrl;
    }
    if parsed.value !in AllowList {
      return DomainNotAllowed;
    }
    req.targetUrl := Some(targetUrl);
    v := Accepted(targetUrl);
  }
}
