/** What the cookie unifier and the cookie mutator share: decoding and
    validating the `cookies` configuration, and rendering every configured
    cookie template against the request and the subject. */
module Cookies {
  import opened Heimdall

  /** A cookie value template, kept as its source text. */
  type Template = string

  /** Cookie name to value template. */
  type CookieMap = map<string, Template>

  /** The strict decoding of a raw configuration into the `cookies` field;
      a foreign collaborator, so any total function will do. */
  type CookieDecoder = Config -> Result<CookieMap, Error>

  /** Template rendering over the request and the subject; foreign too. */
  type Renderer = (Template, Request, Subject) -> Result<string, Error>

  /** A cookie handed to the request context. */
  datatype Cookie = Cookie(name: string, value: string)

  /** Decodes and validates a cookie configuration: a decoding failure is a
      configuration error caused by it, an empty cookie set is a
      configuration error of its own, and otherwise the decoded map is kept
      as it is. */
  function DecodeCookies(raw: Config, decode: CookieDecoder): (r: Result<CookieMap, Error>)
    ensures r.Success? <==> decode(raw).Success? && |decode(raw).value| > 0
    ensures r.Success? ==> r.value == decode(raw).value
    ensures r.Failure? ==> Is(r.error, Configuration)
    ensures decode(raw).Failure? ==>
      r == Failure(Chain(Configuration, UnmarshalConfig, None, Some(decode(raw).error)))
    ensures decode(raw).Success? && |decode(raw).value| == 0 ==>
      r == Failure(Chain(Configuration, NoCookieDefinitions, None, None))
  {
    match decode(raw)
    case Failure(e) => Failure(Chain(Configuration, UnmarshalConfig, None, Some(e)))
    case Success(cookies) =>
      if |cookies| == 0 then Failure(Chain(Configuration, NoCookieDefinitions, None, None))
      else Success(cookies)
  }

  /** `c` is a configured cookie carrying the rendering of its template. */
  predicate RendersTo(cookies: CookieMap, render: Renderer, req: Request, sub: Subject, c: Cookie) {
    c.name in cookies && render(cookies[c.name], req, sub) == Success(c.value)
  }

  predicate NamesDistinct(emitted: seq<Cookie>) {
    forall i, j :: 0 <= i < j < |emitted| ==> emitted[i].name != emitted[j].name
  }

  /** The template of `name` does not render; `err` is the internal error
      naming that cookie, and no cookie of that name was emitted. */
  predicate AbortedOn(emitted: seq<Cookie>, err: Error, cookies: CookieMap, render: Renderer,
                      req: Request, sub: Subject, origin: Option<string>, name: string)
  {
    && name in cookies
    && render(cookies[name], req, sub).Failure?
    && err == Chain(Internal, RenderFailed(name), origin, Some(render(cookies[name], req, sub).error))
    && forall i :: 0 <= i < |emitted| ==> emitted[i].name != name
  }

  /** The outcome of rendering `cookies`, whatever the iteration order:
      every emitted cookie is configured, rendered and emitted once; the run
      succeeds exactly when every template renders, and then every cookie
      was emitted; otherwise it stopped at a template that does not render,
      with an internal error naming that cookie and without emitting it. */
  ghost predicate Rendered(emitted: seq<Cookie>, err: Option<Error>, cookies: CookieMap, render: Renderer,
                           req: Request, sub: Subject, origin: Option<string>)
  {
    && (forall i :: 0 <= i < |emitted| ==> RendersTo(cookies, render, req, sub, emitted[i]))
    && NamesDistinct(emitted)
    && (err.None? <==> forall n :: n in cookies ==> render(cookies[n], req, sub).Success?)
    && (err.None? ==> forall n :: n in cookies ==> Cookie(n, render(cookies[n], req, sub).value) in emitted)
    && (err.None? ==> |emitted| == |cookies|)
    && (err.Some? ==> |emitted| < |cookies|)
    && (err.Some? ==> exists n :: n in cookies && AbortedOn(emitted, err.value, cookies, render, req, sub, origin, n))
  }

  /** The render loop of `Execute`. Map iteration order is unspecified, so
      each step picks any cookie not yet rendered. */
  method RenderCookies(cookies: CookieMap, render: Renderer, req: Request, sub: Subject, origin: Option<string>)
    returns (emitted: seq<Cookie>, err: Option<Error>)
    ensures Rendered(emitted, err, cookies, render, req, sub, origin)
  {
    var remaining := cookies.Keys;
    emitted := [];
    while remaining != {}
      invariant remaining <= cookies.Keys
      invariant forall i :: 0 <= i < |emitted| ==> RendersTo(cookies, render, req, sub, emitted[i])
      invariant forall i :: 0 <= i < |emitted| ==> emitted[i].name !in remaining
      invariant NamesDistinct(emitted)
      invariant forall n :: n in cookies && n !in remaining ==>
        render(cookies[n], req, sub).Success? && Cookie(n, render(cookies[n], req, sub).value) in emitted
      invariant |emitted| + |remaining| == |cookies|
      decreases remaining
    {
      var name :| name in remaining;
      var rendered := render(cookies[name], req, sub);
      if rendered.Failure? {
        err := Some(Chain(Internal, RenderFailed(name), origin, Some(rendered.error)));
        assert AbortedOn(emitted, err.value, cookies, render, req, sub, origin, name);
        return;
      }
      emitted := emitted + [Cookie(name, rendered.value)];
      remaining := remaining - {name};
    }
    err := None;
  }
}
