/** Shared vocabulary of the rule-mechanism pipeline: optional values and
    results, the error taxonomy, schema-less configuration documents, the
    authenticated subject and the per-request context capability. */
module Heimdall {

  datatype Option<+T> = None | Some(value: T)

  datatype Result<+R, +E> = Success(value: R) | Failure(error: E)

  /** The error kinds failures are classified by (ErrConfiguration,
      ErrInternal, ErrAuthData). */
  datatype Kind = Configuration | Internal | AuthData

  /** The message of a chained error, reduced to what identifies it. */
  datatype Reason =
    | UnmarshalConfig                              // "failed to unmarshal ... config"
    | NoCookieDefinitions                          // "no cookie definitions provided"
    | NilSubject                                   // "... due to 'nil' subject"
    | RenderFailed(cookie: string)                 // "failed to render value for '<cookie>' cookie"
    | UnsupportedContentType(contentType: string)  // "unsupported '<type>' content type"
    | MissingQueryParameter(parameter: string)     // no value for the named query parameter

  /** An error value. `Chain` is an error chain built from a kind and a
      message, optionally attributed to a handler (its error context) and
      caused by another error; `EmptyRuleSet` is the parser's sentinel;
      `Foreign` is any error produced by code outside this model. */
  datatype Error =
    | Chain(kind: Kind, reason: Reason, origin: Option<string>, cause: Option<Error>)
    | EmptyRuleSet
    | Foreign(description: string)

  /** errors.Is against one of the kinds: the chain's own kind or that of
      any error it was caused by. */
  predicate Is(e: Error, k: Kind) {
    match e
    case Chain(kind, _, _, None) => kind == k
    case Chain(kind, _, _, Some(c)) => kind == k || Is(c, k)
    case _ => false
  }

  /** A schema-less configuration value, as decoded from YAML or JSON. */
  datatype Value =
    | Null
    | Bool(flag: bool)
    | Number(number: int)
    | Str(text: string)
    | List(items: seq<Value>)
    | Object(fields: map<string, Value>)

  /** A raw configuration document (a nil and an empty map coincide). */
  type Config = map<string, Value>

  /** The principal produced by authentication. */
  datatype Subject = Subject(id: string, attributes: map<string, Value>)

  /** Multi-valued string maps: request headers and query parameters. */
  type Values = map<string, seq<string>>

  /** The first value stored under `name`, or "" when there is none. */
  function FirstValue(vs: Values, name: string): (v: string)
    ensures v != "" ==> name in vs && |vs[name]| > 0 && vs[name][0] == v
  {
    if name in vs && |vs[name]| > 0 then vs[name][0] else ""
  }

  /** The parts of the inbound request the core reads or writes. */
  datatype Request = Request(clientIPs: seq<string>, headers: Values, query: Values)

  /** The request-context capability handed to every mechanism. */
  datatype Context = Context(request: Request) {

    function RequestClientIPs(): seq<string> {
      request.clientIPs
    }

    function RequestHeaders(): Values {
      request.headers
    }

    function RequestQueryParameter(name: string): string {
      FirstValue(request.query, name)
    }
  }
}
