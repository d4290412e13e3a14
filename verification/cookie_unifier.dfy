/** The cookie unifier: a finalizing mechanism that renders a set of cookie
    templates against the subject and hands each result to the upstream
    request. */
module CookieUnifier {
  import opened Heimdall
  import opened Cookies

  datatype CookieUnifier = CookieUnifier(id: string, cookies: CookieMap) {

    function HandlerID(): string {
      id
    }

    function ContinueOnError(): bool {
      false
    }
  }

  /** newCookieUnifier: succeeds exactly when the configuration decodes to
      a non-empty cookie map, and then keeps the given id and exactly that
      map; every failure is a configuration error. */
  function New(id: string, raw: Config, decode: CookieDecoder): (r: Result<CookieUnifier, Error>)
    ensures r.Success? <==> decode(raw).Success? && |decode(raw).value| > 0
    ensures r.Success? ==> r.value.id == id && r.value.cookies == decode(raw).value
    ensures r.Failure? ==> Is(r.error, Configuration) && r.error.origin == None
    ensures decode(raw).Failure? ==> r.error.reason == UnmarshalConfig
    ensures decode(raw).Success? && |decode(raw).value| == 0 ==> r.error.reason == NoCookieDefinitions
  {
    match DecodeCookies(raw, decode)
    case Failure(e) => Failure(e)
    case Success(cookies) => Success(CookieUnifier(id, cookies))
  }

  /** Execute: a nil subject is an internal error and nothing is emitted;
      otherwise every configured cookie is rendered and added for the
      upstream request, stopping at the first template that does not
      render. Errors carry the unifier's id as their context. */
  method Execute(u: CookieUnifier, ctx: Context, sub: Option<Subject>, render: Renderer)
    returns (upstream: seq<Cookie>, err: Option<Error>)
    ensures sub.None? ==> upstream == [] && err == Some(Chain(Internal, NilSubject, Some(u.id), None))
    ensures sub.Some? ==> Rendered(upstream, err, u.cookies, render, ctx.request, sub.value, Some(u.id))
  {
    if sub.None? {
      return [], Some(Chain(Internal, NilSubject, Some(u.id), None));
    }
    upstream, err := RenderCookies(u.cookies, render, ctx.request, sub.value, Some(u.id));
  }

  /** WithConfig: an empty overlay yields the receiver itself; a non-empty
      one builds a new unifier with the same id whose cookies are exactly
      the overlay's, the prototype's cookies playing no part. */
  function WithConfig(u: CookieUnifier, config: Config, decode: CookieDecoder): (r: Result<CookieUnifier, Error>)
    ensures |config| == 0 ==> r == Success(u)
    ensures r.Success? ==> r.value.HandlerID() == u.HandlerID() && !r.value.ContinueOnError()
    ensures |config| > 0 ==> (r.Success? <==> decode(config).Success? && |decode(config).value| > 0)
    ensures |config| > 0 && r.Success? ==> r.value.cookies == decode(config).value
    ensures r.Failure? ==> Is(r.error, Configuration)
  {
    if |config| == 0 then Success(u) else New(u.id, config, decode)
  }

  /** The overlay fully replaces the cookie map: two prototypes with the same
      id yield the same configured unifier, whatever cookies they held. */
  lemma WithConfigReplacesCookies(u1: CookieUnifier, u2: CookieUnifier, config: Config, decode: CookieDecoder)
    requires u1.id == u2.id && |config| > 0
    ensures WithConfig(u1, config, decode) == WithConfig(u2, config, decode)
  {
  }

  /** Applying the same overlay twice gives what applying it once gives. */
  lemma WithConfigIdempotent(u: CookieUnifier, config: Config, decode: CookieDecoder)
    requires WithConfig(u, config, decode).Success?
    ensures WithConfig(WithConfig(u, config, decode).value, config, decode) == WithConfig(u, config, decode)
  {
  }
}
