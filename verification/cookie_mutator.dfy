/** The cookie mutator: a finalizing mechanism that renders a set of cookie
    templates against the subject and adds each result to the response.
    Its construction, overlay and execution follow the cookie unifier, with
    response cookies in place of upstream ones and no handler id. */
module CookieMutator {
  import opened Heimdall
  import opened Cookies

  datatype CookieMutator = CookieMutator(cookies: CookieMap)

  /** newCookieMutator: succeeds exactly when the configuration decodes to
      a non-empty cookie map, and then holds exactly that map. */
  function New(raw: Config, decode: CookieDecoder): (r: Result<CookieMutator, Error>)
    ensures r.Success? <==> decode(raw).Success? && |decode(raw).value| > 0
    ensures r.Success? ==> r.value.cookies == decode(raw).value
    ensures r.Failure? ==> Is(r.error, Configuration)
    ensures decode(raw).Failure? ==> r.error.reason == UnmarshalConfig
    ensures decode(raw).Success? && |decode(raw).value| == 0 ==> r.error.reason == NoCookieDefinitions
  {
    match DecodeCookies(raw, decode)
    case Failure(e) => Failure(e)
    case Success(cookies) => Success(CookieMutator(cookies))
  }

  /** Execute: a nil subject is an internal error and nothing is added;
      otherwise every configured cookie is rendered and added to the
      response, stopping at the first template that does not render. */
  method Execute(m: CookieMutator, ctx: Context, sub: Option<Subject>, render: Renderer)
    returns (response: seq<Cookie>, err: Option<Error>)
    ensures sub.None? ==> response == [] && err == Some(Chain(Internal, NilSubject, None, None))
    ensures sub.Some? ==> Rendered(response, err, m.cookies, render, ctx.request, sub.value, None)
  {
    if sub.None? {
      return [], Some(Chain(Internal, NilSubject, None, None));
    }
    response, err := RenderCookies(m.cookies, render, ctx.request, sub.value, None);
  }

  /** WithConfig: an empty overlay yields the prototype itself; a non-empty
      one builds a new mutator whose cookies are exactly the overlay's. */
  function WithConfig(m: CookieMutator, config: Config, decode: CookieDecoder): (r: Result<CookieMutator, Error>)
    ensures |config| == 0 ==> r == Success(m)
    ensures |config| > 0 ==> (r.Success? <==> decode(config).Success? && |decode(config).value| > 0)
    ensures |config| > 0 && r.Success? ==> r.value.cookies == decode(config).value
    ensures r.Failure? ==> Is(r.error, Configuration)
  {
    if |config| == 0 then Success(m) else New(config, decode)
  }

  /** A strict decoder for the mutator's configuration: only the `cookies`
      key is allowed, its value must map names to strings, and a missing or
      null `cookies` decodes to no cookies. It stands for the decoding the
      mechanism is configured with, to replay the scenarios below. */
  function StrictDecoder(raw: Config): Result<CookieMap, Error> {
    if exists k :: k in raw && k != "cookies" then Failure(Foreign("has invalid keys"))
    else if "cookies" !in raw then Success(map[])
    else match raw["cookies"]
      case Null => Success(map[])
      case Object(fields) =>
        if forall n :: n in fields ==> fields[n].Str? then Success(map n | n in fields :: fields[n].text)
        else Failure(Foreign("expected type 'string'"))
      case _ => Failure(Foreign("expected a map"))
  }

  /** Without any configuration the mutator is refused: no cookies. */
  lemma NewWithoutConfiguration()
    ensures New(map[], StrictDecoder) == Failure(Chain(Configuration, NoCookieDefinitions, None, None))
  {
  }

  /** A key besides `cookies` is refused as an unmarshalling failure. */
  lemma NewWithUnsupportedAttributes()
    ensures var r := New(map["cookies" := Object(map["foo" := Str("bar")]), "foo" := Str("bar")], StrictDecoder);
      r.Failure? && Is(r.error, Configuration) && r.error.reason == UnmarshalConfig
  {
    var raw := map["cookies" := Object(map["foo" := Str("bar")]), "foo" := Str("bar")];
    assert "foo" in raw && "foo" != "cookies";
  }

  /** A valid configuration yields exactly the configured templates. */
  lemma NewWithValidConfig()
    ensures New(map["cookies" := Object(map["foo" := Str("bar"), "bar" := Str("{{ .ID }}")])], StrictDecoder)
      == Success(CookieMutator(map["foo" := "bar", "bar" := "{{ .ID }}"]))
  {
    var fields := map["foo" := Str("bar"), "bar" := Str("{{ .ID }}")];
    var raw := map["cookies" := Object(fields)];
    assert raw.Keys == {"cookies"};
    assert !exists k :: k in raw && k != "cookies";
    assert (map n | n in fields :: fields[n].text) == map["foo" := "bar", "bar" := "{{ .ID }}"];
  }

  /** Overlaying new cookies onto a prototype gives a different mutator
      holding the overlay's cookie. */
  lemma WithConfigNewCookies()
    ensures var proto := CookieMutator(map["foo" := "bar"]);
      var r := WithConfig(proto, map["cookies" := Object(map["bar" := Str("foo")])], StrictDecoder);
      r.Success? && r.value != proto && "bar" in r.value.cookies && r.value.cookies["bar"] == "foo"
  {
  }

  /** With templates `foo`, `bar` and `baz` rendering to `baz`, `FooBar` and
      `bar`, an execution succeeds and adds exactly these three response
      cookies. */
  lemma ExecuteAddsEveryCookie(response: seq<Cookie>, err: Option<Error>, render: Renderer, req: Request, sub: Subject)
    requires var cookies := map["foo" := "{{ .Attributes.bar }}", "bar" := "{{ .ID }}", "baz" := "bar"];
      && render("{{ .Attributes.bar }}", req, sub) == Success("baz")
      && render("{{ .ID }}", req, sub) == Success("FooBar")
      && render("bar", req, sub) == Success("bar")
      && Rendered(response, err, cookies, render, req, sub, None)
    ensures err == None
    ensures forall c :: c in response <==> c in {Cookie("foo", "baz"), Cookie("bar", "FooBar"), Cookie("baz", "bar")}
    ensures |response| == 3
  {
  }
}
