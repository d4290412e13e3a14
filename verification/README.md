# Heimdall rule-mechanism core, modelled in Dafny

This project models the decision logic at the centre of heimdall, an
access-control gateway. It covers these parts:

- **Composite subject handler** (`composite_subject_handler.dfy`). Runs one
  ordered sequence of subject handlers (for example a rule's authorizers or its
  finalizers) against the same context and subject. When a member fails, it
  either stops with that member's error or, if the member continues on error,
  moves on to the next member.
- **Error condition matcher** (`error_condition_matcher.dfy`). A conjunction of
  up to three optional sub-matchers. An absent sub-matcher is a wildcard.
- **In-memory TTL cache** (`memory_cache.dfy`). Get, Set and Delete, with lazy
  expiry.
- **Cookie unifier and cookie mutator** (`cookies.dfy`, `cookie_unifier.dfy`,
  `cookie_mutator.dfy`). Prototype construction with validation, the
  `WithConfig` overlay, and `Execute`, which renders one cookie per configured
  name.
- **Rule-set parser** (`rule_set_parser.dfy`). Dispatches on the content type
  and detects empty input.
- **Query-parameter extraction** (`query_parameter_extractor.dfy`). Reads
  authentication data from a query parameter and writes it back into a request.

`heimdall.dfy` holds the shared vocabulary:

- The error taxonomy, with kinds `Configuration`, `Internal` and `AuthData`.
- A chained error, which has a kind, a reason tag, the id of the handler it
  is attributed to, and the error that caused it.
- `errors.Is`, modelled as `Is`.
- Schema-less configuration values, the subject, the request, and the
  request-context capability.

Foreign code is passed in as function-typed parameters or fields:

- template rendering (`Renderer`);
- mapstructure decoding into the cookie configuration (`CookieDecoder`);
- the YAML decoder (`YamlDecoder`) and `DecodeConfig` (`RuleSetDecoder`);
- the three sub-matchers;
- each subject handler's `Execute`.

Every contract holds for every such function. The wall clock is an explicit
integer `now`. Go's unspecified map iteration order is modelled by a loop
that may pick any cookie not yet rendered. Every contract about `Execute`
therefore holds whatever the order.

Two facts about the cookie unifier's code shape the model:

- `WithConfig` fully replaces the cookie map
  (`internal/rules/mechanisms/unifiers/cookie_unifier.go:99-105`): a non-empty
  overlay builds a new unifier from the overlay alone. The cookie mutator is
  modelled the same way.
- `ContinueOnError` is always false
  (`internal/rules/mechanisms/unifiers/cookie_unifier.go:109`).

## Model

| member | source | states |
|---|---|---|
| CompositeSubjectHandler.ExecuteFrom | internal/rules/composite_subject_handler_test.go:27-109 | From member i on: the members are called in order with the same context and subject. The run fails exactly when some member from i on fails without continue-on-error. Then the last member called is the first such member, and its error is returned. Otherwise every member is called. `ContinueOnError` is asked exactly of the members called that failed. |
| CompositeSubjectHandler.ConsultedInOrder | internal/rules/composite_subject_handler_test.go:27-109 | From member i on, the members asked for `ContinueOnError` are asked in member order and each at most once. |
| CompositeSubjectHandler.Execute | internal/rules/composite_subject_handler_test.go:17-132 | Invocation k is member k with the caller's context and subject. The error is none exactly when no member fails fatally, and then every member ran. `ContinueOnError` is asked exactly of the members called that failed, once each and in member order, and never if all members succeed. The first fatally failing member's exact error is returned, and nothing after it runs. |
| CompositeSubjectHandler.SequentialComposition | internal/rules/composite_subject_handler_test.go:27-109 | Running `hs1 + hs2` returns `hs1`'s error if `hs1` fails, and `hs2`'s outcome otherwise. |
| CompositeSubjectHandler.AllSucceeded | internal/rules/composite_subject_handler_test.go:27-40 | Two succeeding members: no error, both called with the same context and subject, `ContinueOnError` never asked. |
| CompositeSubjectHandler.FirstFailsWithoutContinuation | internal/rules/composite_subject_handler_test.go:43-57 | The first member fails and does not continue: its error is returned and the second member is never called. |
| CompositeSubjectHandler.FirstFailsWithContinuation | internal/rules/composite_subject_handler_test.go:60-74 | The first member fails and continues, and the second succeeds: no error, both called, and `ContinueOnError` asked of the first member only. |
| CompositeSubjectHandler.SecondFailsWithoutContinuation | internal/rules/composite_subject_handler_test.go:77-92 | The second member fails and does not continue: exactly its error is returned, both members are called, and `ContinueOnError` is asked of the second member only. |
| CompositeSubjectHandler.SecondFailsWithContinuation | internal/rules/composite_subject_handler_test.go:95-109 | The last member fails and continues: the failure is swallowed and the composite succeeds. |
| ErrorConditionMatcher.Match | internal/pipeline/errorhandlers/matcher/error_condition_matcher.go:14-28 | The matcher accepts (ctx, err) exactly when every configured sub-matcher accepts it. The error matcher judges the error, the CIDR matcher the client IPs, and the header matcher the request headers. |
| ErrorConditionMatcher.ConditionsHoldPerSlot | internal/pipeline/errorhandlers/matcher/error_condition_matcher.go:15-27 | All configured conditions hold exactly when each slot is absent or its sub-matcher accepts its own input: the error, the client IPs, or the headers. |
| ErrorConditionMatcher.EmptyMatcherMatchesEverything | internal/pipeline/errorhandlers/matcher/error_condition_matcher.go:14-27 | With all three slots absent, every context and error match. |
| ErrorConditionMatcher.PresentSlotIsConjunct | internal/pipeline/errorhandlers/matcher/error_condition_matcher.go:15-27 | When the matcher accepts, each present sub-matcher accepts its input. |
| ErrorConditionMatcher.AbsentSlotIsWildcard | internal/pipeline/errorhandlers/matcher/error_condition_matcher.go:15-27 | For each of the three slots: with that slot absent, the matcher accepts exactly when the two remaining present slots accept, whatever the absent slot would have judged. |
| ErrorConditionMatcher.AddingSubMatcherNarrows | internal/pipeline/errorhandlers/matcher/error_condition_matcher.go:27 | Filling a vacant slot with condition c matches exactly when the old matcher matches and c holds. So adding a sub-matcher only narrows the matching pairs. |
| MemoryCache.New | internal/cache/memory/cache_test.go:95 | A cache with no entries. |
| MemoryCache.Set | internal/cache/memory/cache_test.go:36-47 | The key now maps to the value with expiry now + ttl, replacing any earlier entry. Every other entry is unchanged. |
| MemoryCache.Delete | internal/cache/memory/cache_test.go:66-78 | The key no longer has an entry. Every other entry is unchanged. |
| MemoryCache.Get | internal/cache/memory/cache_test.go:36-90 | Returns a value exactly when the key has an entry whose expiry is after now, and then returns the stored value. An expired entry is freed. The cache returned answers every later lookup as before. |
| MemoryCache.SetThenGet | internal/cache/memory/cache_test.go:36-47 | A Get before the TTL elapses returns the stored value. |
| MemoryCache.GetAfterExpiry | internal/cache/memory/cache_test.go:50-63 | A Get once the TTL has elapsed returns nothing. |
| MemoryCache.SetDeleteGet | internal/cache/memory/cache_test.go:66-78 | Set, then Delete, then Get returns nothing, even before expiry. |
| MemoryCache.NewCacheMisses | internal/cache/memory/cache_test.go:81-100 | A fresh cache holds nothing: a Get of any key returns nothing. |
| MemoryCache.ReplayMatchesLatestWrite | internal/cache/memory/cache_test.go:36-100 | Consider any sequence of Set, Delete and Get calls, looked up at a time no earlier than any of its calls (the calls need not be in time order). The result is the latest Set's value if that Set's TTL has not elapsed. It is nothing if the latest write was a Delete or the key was never set. |
| Cookies.DecodeCookies | internal/rules/mechanisms/unifiers/cookie_unifier.go:53-63 | Succeeds exactly when the configuration decodes to a non-empty map, and keeps that map unchanged. A decoding failure is a configuration error caused by that failure. An empty map is the configuration error "no cookie definitions". |
| Cookies.RenderCookies | internal/rules/mechanisms/unifiers/cookie_unifier.go:81-96 | In any order, every emitted cookie is configured and carries its rendered value, and each name appears at most once. It succeeds exactly when every template renders, and then emits one cookie per name. Otherwise it stops with an internal error naming a cookie whose template fails, and that cookie is not emitted. |
| CookieUnifier.New | internal/rules/mechanisms/unifiers/cookie_unifier.go:48-69 | Succeeds exactly when the configuration decodes to a non-empty cookie map. The result has the given id and exactly that map. A decoding failure gives the configuration error "failed to unmarshal". An empty map gives the configuration error "no cookie definitions". |
| CookieUnifier.Execute | internal/rules/mechanisms/unifiers/cookie_unifier.go:71-97 | A nil subject gives an internal "'nil' subject" error attributed to the unifier, with no upstream cookie. Otherwise the cookies are rendered as RenderCookies states, and errors are attributed to the unifier's id. |
| CookieUnifier.HandlerID | internal/rules/mechanisms/unifiers/cookie_unifier.go:107 | Returns the id the unifier was built with. |
| CookieUnifier.ContinueOnError | internal/rules/mechanisms/unifiers/cookie_unifier.go:109 | Always false. |
| CookieUnifier.WithConfig | internal/rules/mechanisms/unifiers/cookie_unifier.go:99-109 | An empty overlay returns the receiver itself. A non-empty overlay succeeds exactly when it decodes to a non-empty map, and the result's cookies are exactly that map. The handler id is kept, `ContinueOnError` is false, and every failure is a configuration error. |
| CookieUnifier.WithConfigReplacesCookies | internal/rules/mechanisms/unifiers/cookie_unifier.go:99-105 | A non-empty overlay gives the same result on any two prototypes with the same id. The prototype's cookies are replaced, not merged. |
| CookieUnifier.WithConfigIdempotent | internal/rules/mechanisms/unifiers/cookie_unifier.go:99-105 | Applying an overlay to its own result changes nothing. |
| CookieMutator.New | internal/pipeline/mutators/cookie_mutator_test.go:16-87 | Succeeds exactly when the configuration decodes to a non-empty cookie map, and holds exactly that map. Otherwise it returns a configuration error: "failed to unmarshal" for a decoding failure, "no cookie" for an empty map. |
| CookieMutator.Execute | internal/pipeline/mutators/cookie_mutator_test.go:168-250 | A nil subject gives an internal "'nil' subject" error and adds no response cookie. Otherwise the response cookies are rendered as RenderCookies states. A template that does not render gives an internal "failed to render" error. |
| CookieMutator.WithConfig | internal/pipeline/mutators/cookie_mutator_test.go:89-166 | A nil or empty overlay yields the prototype. A non-empty overlay holds exactly the overlay's decoded cookies; full replacement follows the unifier's code (see Left out). |
| CookieMutator.NewWithoutConfiguration | internal/pipeline/mutators/cookie_mutator_test.go:24-44 | No configuration, or an empty one, is refused with the configuration error "no cookie". |
| CookieMutator.NewWithUnsupportedAttributes | internal/pipeline/mutators/cookie_mutator_test.go:46-58 | An unknown key next to `cookies` is refused with the configuration error "failed to unmarshal". |
| CookieMutator.NewWithValidConfig | internal/pipeline/mutators/cookie_mutator_test.go:60-73 | A valid configuration yields a mutator holding exactly the configured name-to-template pairs. |
| CookieMutator.WithConfigNewCookies | internal/pipeline/mutators/cookie_mutator_test.go:126-143 | An overlay with new cookies yields a mutator different from the prototype, and that mutator holds the overlay's cookie. |
| CookieMutator.ExecuteAddsEveryCookie | internal/pipeline/mutators/cookie_mutator_test.go:225-250 | With the test's templates and rendered values, every execution succeeds without error and adds exactly foo=baz, bar=FooBar and baz=bar. |
| RuleSetParser.ParseYaml | internal/rules/config/parser.go:50-68 | A rule set is returned exactly when a document decodes, together with DecodeConfig's error. End of input is the empty-rule-set error. Any other decoding error is returned unchanged, with no rule set. |
| RuleSetParser.ParseRules | internal/rules/config/parser.go:31-47 | JSON and YAML content take the YAML path. Any other content type never yields a rule set. Its error is the empty-rule-set error exactly when the input is empty, and otherwise an internal error naming the content type. |
| RuleSetParser.JsonIsParsedAsYaml | internal/rules/config/parser.go:32-36 | `application/json` and `application/yaml` give identical results on every input. |
| RuleSetParser.EmptyInputIsEmptyRuleSet | internal/rules/config/parser.go:31-60 | For every content type, empty input that the YAML decoder reads as end of input gives the empty-rule-set error, never an internal error. |
| RuleSetParser.NoRuleSetMeansError | internal/rules/config/parser.go:31-68 | ParseRules always returns a rule set, an error, or both. |
| QueryParameterExtractor.GetAuthData | internal/pipeline/authenticators/extractors/query_parameter_extract_strategy_test.go:17-58 | Succeeds exactly when the parameter named by the strategy has a non-empty value. The data then carries that name, and `Value()` returns that value. An empty value is an `ErrAuthData` error. |
| QueryParameterExtractor.ApplyTo | internal/pipeline/authenticators/extractors/query_parameter_extract_strategy_test.go:35-36 | The request's query now reads the value under the parameter's name. Every other parameter, the headers and the client IPs are unchanged. |
| QueryParameterExtractor.ApplyThenExtract | internal/pipeline/authenticators/extractors/query_parameter_extract_strategy_test.go:24-36 | Applying extracted data to any request, then extracting with the same strategy, returns the same data. Applying is the inverse of extracting. |
| QueryParameterExtractor.ExtractThenApply | internal/pipeline/authenticators/extractors/query_parameter_extract_strategy_test.go:28-36 | Writing extracted data back into the request it came from leaves that parameter reading as before. |

## Left out

- Subject mutation: handlers are pure functions of the context and the subject. Attributes that a handler adds through the shared subject pointer are not modelled. The composite passes the same subject to every member.
- Logging through zerolog, and the `AppContext` call made only for it: no observable logic.
- Error messages are reduced to a reason tag, with the cookie name or content type where the message names one.
- The implementations of the composite handler, the in-memory cache, the cookie mutator and the query-parameter strategy are not part of this model. Their tests fix only the two-member outcomes of the composite, hit, miss and delete at the tested times, and the error kinds. Beyond that the model assumes:
  - the composite handler's loop, in member order with an early stop on a fatal failure;
  - the cache's `now < expiry` liveness test, which the tests cannot tell apart from `now <= expiry`, and its freeing of expired entries on `Get`, which `Get` cannot observe;
  - the mutator's sharing of the unifier's logic, with no handler id attributed to its errors;
  - the missing-parameter reason on the query strategy's `AuthData` error; the tests check only the error kind.
  - the query strategy returns the parameter's value exactly as read, with no trimming or decoding, so a whitespace-only value succeeds unchanged;
  - the query strategy's `ApplyTo` sets the parameter, replacing any earlier values of it rather than adding one, and keeps every other parameter;
  - the cache's `Set` overwrites an earlier entry for the same key; the tests never set one key twice.
- CookieMutator.WithConfig: full replacement of the cookie map by a non-empty overlay is taken from the unifier's code (`internal/rules/mechanisms/unifiers/cookie_unifier.go:104`). The mutator's tests check only that the result differs from the prototype and holds the overlay's cookie, which a merging overlay would also satisfy.
- The cache's lock, and concurrent use of the cache: each operation is modelled as atomic.
- Real time: time is an integer argument. Durations are integers in the same unit.
- The YAML decoder, `DecodeConfig`, mapstructure decoding and template rendering are opaque functions. `CookieMutator.StrictDecoder` is a stand-in strict decoder, used only to replay the mutator's construction tests.
- The io.Reader: it is the byte sequence it yields. The one-byte probe in `ParseRules` reports end of input exactly when that sequence is empty. Short reads and other read errors are not modelled.
- The internals of `ErrorTypeMatcher`, `CIDRMatcher` and `HeaderMatcher` are uninterpreted predicates.
- The error handler chain, rules, the mechanism registry and its type-name dispatch (`init`), the HTTP application, the management module and the rule-provider configuration: outside the modelled core.
- Nil and empty Go maps are the same in the model: both are the empty map.
