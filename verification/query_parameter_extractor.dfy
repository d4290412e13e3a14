/** Extraction of authentication data from a named query parameter, and
    writing it back into an outgoing request. */
module QueryParameterExtractor {
  import opened Heimdall

  datatype QueryParameterExtractStrategy = QueryParameterExtractStrategy(name: string)

  /** The extracted data: the parameter it came from and its value. */
  datatype QueryParameterAuthData = QueryParameterAuthData(name: string, value: string) {

    function Value(): string {
      value
    }
  }

  /** GetAuthData: looks the value up under exactly the strategy's name; a
      non-empty value is returned as the data's value, an empty or missing
      one is an authentication-data error naming the parameter. */
  function GetAuthData(s: QueryParameterExtractStrategy, ctx: Context): (r: Result<QueryParameterAuthData, Error>)
    ensures r.Success? <==> ctx.RequestQueryParameter(s.name) != ""
    ensures r.Success? ==> r.value.name == s.name && r.value.Value() == ctx.RequestQueryParameter(s.name)
    ensures r.Failure? ==> Is(r.error, AuthData) && r.error.reason == MissingQueryParameter(s.name)
  {
    var value := ctx.RequestQueryParameter(s.name);
    if value == "" then Failure(Chain(AuthData, MissingQueryParameter(s.name), None, None))
    else Success(QueryParameterAuthData(s.name, value))
  }

  /** ApplyTo: sets the parameter to the value in the request's query,
      replacing earlier values of that parameter and keeping all others. */
  function ApplyTo(a: QueryParameterAuthData, req: Request): (r: Request)
    ensures FirstValue(r.query, a.name) == a.value
    ensures forall k :: k != a.name ==> (k in r.query <==> k in req.query)
    ensures forall k :: k in req.query && k != a.name ==> r.query[k] == req.query[k]
    ensures r.clientIPs == req.clientIPs && r.headers == req.headers
  {
    req.(query := req.query[a.name := [a.value]])
  }

  /** Applying extracted data to a request and extracting again with the
      same strategy gives back the same data: applying inverts extracting. */
  lemma ApplyThenExtract(s: QueryParameterExtractStrategy, ctx: Context, req: Request)
    requires GetAuthData(s, ctx).Success?
    ensures GetAuthData(s, Context(ApplyTo(GetAuthData(s, ctx).value, req))) == GetAuthData(s, ctx)
  {
  }

  /** Extracting from a request and applying the data to that same request
      leaves its query parameter as it read. */
  lemma ExtractThenApply(s: QueryParameterExtractStrategy, req: Request)
    requires GetAuthData(s, Context(req)).Success?
    ensures FirstValue(ApplyTo(GetAuthData(s, Context(req)).value, req).query, s.name) == FirstValue(req.query, s.name)
  {
  }
}
