/** The error condition matcher: up to three optional sub-matchers over the
    error, the request's client IPs and the request's headers, combined by
    conjunction, where an absent sub-matcher is a wildcard. */
module ErrorConditionMatcher {
  import opened Heimdall

  /** Classifies an error by kind; its configuration is not modelled. */
  datatype ErrorTypeMatcher = ErrorTypeMatcher(matches: Error -> bool)

  /** Tests client IPs against network ranges; not modelled further. */
  datatype CIDRMatcher = CIDRMatcher(matches: seq<string> -> bool)

  /** Tests request headers against configured values; not modelled further. */
  datatype HeaderMatcher = HeaderMatcher(matches: Values -> bool)

  datatype ErrorConditionMatcher = ErrorConditionMatcher(
    error: Option<ErrorTypeMatcher>,
    cidr: Option<CIDRMatcher>,
    header: Option<HeaderMatcher>)

  /** One configured sub-matcher, whichever slot it sits in. */
  datatype Condition =
    | OnError(e: ErrorTypeMatcher)
    | OnClientIPs(c: CIDRMatcher)
    | OnHeaders(h: HeaderMatcher)

  predicate Holds(c: Condition, ctx: Context, err: Error) {
    match c
    case OnError(e) => e.matches(err)
    case OnClientIPs(n) => n.matches(ctx.RequestClientIPs())
    case OnHeaders(h) => h.matches(ctx.RequestHeaders())
  }

  /** Every condition in `cs` holds of `(ctx, err)`. */
  predicate AllHold(cs: seq<Condition>, ctx: Context, err: Error) {
    forall i :: 0 <= i < |cs| ==> Holds(cs[i], ctx, err)
  }

  lemma AllHoldConcat(a: seq<Condition>, b: seq<Condition>, ctx: Context, err: Error)
    ensures AllHold(a + b, ctx, err) <==> AllHold(a, ctx, err) && AllHold(b, ctx, err)
  {
    if AllHold(a, ctx, err) && AllHold(b, ctx, err) {
      forall i | 0 <= i < |a + b|
        ensures Holds((a + b)[i], ctx, err)
      {
        if i >= |a| {
          assert (a + b)[i] == b[i - |a|];
        }
      }
    }
    if AllHold(a + b, ctx, err) {
      forall i | 0 <= i < |a|
        ensures Holds(a[i], ctx, err)
      {
        assert (a + b)[i] == a[i];
      }
      forall i | 0 <= i < |b|
        ensures Holds(b[i], ctx, err)
      {
        assert (a + b)[|a| + i] == b[i];
      }
    }
  }

  /** The sub-matchers actually configured, absent slots left out. */
  function Conditions(m: ErrorConditionMatcher): seq<Condition> {
    (if m.error.Some? then [OnError(m.error.value)] else [])
    + (if m.cidr.Some? then [OnClientIPs(m.cidr.value)] else [])
    + (if m.header.Some? then [OnHeaders(m.header.value)] else [])
  }

  /** The conditions of `m` all hold exactly when each slot either is absent
      or accepts its input. */
  lemma ConditionsHoldPerSlot(m: ErrorConditionMatcher, ctx: Context, err: Error)
    ensures AllHold(Conditions(m), ctx, err) <==>
      && (m.error.Some? ==> m.error.value.matches(err))
      && (m.cidr.Some? ==> m.cidr.value.matches(ctx.RequestClientIPs()))
      && (m.header.Some? ==> m.header.value.matches(ctx.RequestHeaders()))
  {
    var e := if m.error.Some? then [OnError(m.error.value)] else [];
    var c := if m.cidr.Some? then [OnClientIPs(m.cidr.value)] else [];
    var h := if m.header.Some? then [OnHeaders(m.header.value)] else [];
    assert Conditions(m) == e + c + h;
    AllHoldConcat(e, c, ctx, err);
    AllHoldConcat(e + c, h, ctx, err);
    assert m.error.Some? ==> (AllHold(e, ctx, err) <==> Holds(e[0], ctx, err));
    assert m.cidr.Some? ==> (AllHold(c, ctx, err) <==> Holds(c[0], ctx, err));
    assert m.header.Some? ==> (AllHold(h, ctx, err) <==> Holds(h[0], ctx, err));
  }

  /** ErrorConditionMatcher.Match: the matcher accepts `(ctx, err)` exactly
      when every configured sub-matcher does. */
  function Match(m: ErrorConditionMatcher, ctx: Context, err: Error): (r: bool)
    ensures r <==> AllHold(Conditions(m), ctx, err)
  {
    ConditionsHoldPerSlot(m, ctx, err);
    var errorMatched := if m.error.Some? then m.error.value.matches(err) else true;
    var ipMatched := if m.cidr.Some? then m.cidr.value.matches(ctx.RequestClientIPs()) else true;
    var headerMatched := if m.header.Some? then m.header.value.matches(ctx.RequestHeaders()) else true;
    errorMatched && ipMatched && headerMatched
  }

  /** A matcher with no sub-matcher matches every context and error. */
  lemma EmptyMatcherMatchesEverything(ctx: Context, err: Error)
    ensures Match(ErrorConditionMatcher(None, None, None), ctx, err)
  {
  }

  /** Each configured slot is one conjunct: its verdict is necessary. */
  lemma PresentSlotIsConjunct(m: ErrorConditionMatcher, ctx: Context, err: Error)
    requires Match(m, ctx, err)
    ensures m.error.Some? ==> m.error.value.matches(err)
    ensures m.cidr.Some? ==> m.cidr.value.matches(ctx.RequestClientIPs())
    ensures m.header.Some? ==> m.header.value.matches(ctx.RequestHeaders())
  {
  }

  /** An absent slot contributes true, never "match nothing": with any one
      slot emptied, the matcher accepts exactly when the two remaining slots
      accept, whatever the emptied slot would have judged. */
  lemma AbsentSlotIsWildcard(m: ErrorConditionMatcher, ctx: Context, err: Error)
    ensures Match(m.(error := None), ctx, err) <==>
      && (m.cidr.Some? ==> m.cidr.value.matches(ctx.RequestClientIPs()))
      && (m.header.Some? ==> m.header.value.matches(ctx.RequestHeaders()))
    ensures Match(m.(cidr := None), ctx, err) <==>
      && (m.error.Some? ==> m.error.value.matches(err))
      && (m.header.Some? ==> m.header.value.matches(ctx.RequestHeaders()))
    ensures Match(m.(header := None), ctx, err) <==>
      && (m.error.Some? ==> m.error.value.matches(err))
      && (m.cidr.Some? ==> m.cidr.value.matches(ctx.RequestClientIPs()))
  {
  }

  /** Configuring a sub-matcher can only narrow the set of matching
      `(ctx, err)` pairs: the new matcher accepts exactly what the old one
      accepts and the new condition admits, so anything it accepts the old
      one accepted too. */
  lemma AddingSubMatcherNarrows(m: ErrorConditionMatcher, c: Condition, ctx: Context, err: Error)
    requires Vacant(m, c)
    ensures Match(Add(m, c), ctx, err) <==> Match(m, ctx, err) && Holds(c, ctx, err)
  {
  }

  /** The slot `c` belongs to is not configured in `m`. */
  predicate Vacant(m: ErrorConditionMatcher, c: Condition) {
    match c
    case OnError(_) => m.error.None?
    case OnClientIPs(_) => m.cidr.None?
    case OnHeaders(_) => m.header.None?
  }

  /** `m` with the (vacant) slot of `c` configured to `c`. */
  function Add(m: ErrorConditionMatcher, c: Condition): ErrorConditionMatcher
    requires Vacant(m, c)
  {
    match c
    case OnError(e) => m.(error := Some(e))
    case OnClientIPs(n) => m.(cidr := Some(n))
    case OnHeaders(h) => m.(header := Some(h))
  }
}
