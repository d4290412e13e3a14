/** The composite subject handler: an ordered sequence of subject handlers
    run one after the other against the same context and subject, where a
    failing handler either stops the sequence (its error becomes the
    composite's error) or, when it declares continue-on-error, is skipped. */
module CompositeSubjectHandler {
  import opened Heimdall

  /** A configured mechanism as the composite sees it: its `Execute` (an
      opaque function of the context and the possibly nil subject, returning
      an error or none) and its `ContinueOnError` answer. */
  datatype SubjectHandler = SubjectHandler(
    execute: (Context, Option<Subject>) -> Option<Error>,
    continueOnError: bool)

  /** One call of a member handler's `Execute`: which handler, with what. */
  datatype Invocation = Invocation(handler: nat, ctx: Context, sub: Option<Subject>)

  /** What a composite run observably did: the error it returned, the
      `Execute` calls it made in order, and the handlers whose
      `ContinueOnError` it asked, in the order asked. */
  datatype Run = Run(err: Option<Error>, invoked: seq<Invocation>, consulted: seq<nat>)

  predicate Fails(h: SubjectHandler, ctx: Context, sub: Option<Subject>) {
    h.execute(ctx, sub).Some?
  }

  /** A failure the handler does not allow the composite to continue past. */
  predicate Fatal(h: SubjectHandler, ctx: Context, sub: Option<Subject>) {
    Fails(h, ctx, sub) && !h.continueOnError
  }

  /** No handler from position `from` on fails fatally. */
  ghost predicate NoneFatal(hs: seq<SubjectHandler>, ctx: Context, sub: Option<Subject>, from: nat) {
    forall k :: from <= k < |hs| ==> !Fatal(hs[k], ctx, sub)
  }

  /** Position `j` holds the first fatally failing handler from `from` on. */
  ghost predicate FirstFatal(hs: seq<SubjectHandler>, ctx: Context, sub: Option<Subject>, from: nat, j: int) {
    && from <= j < |hs|
    && Fatal(hs[j], ctx, sub)
    && forall k :: from <= k < j ==> !Fatal(hs[k], ctx, sub)
  }

  /** Strictly ascending: in order, and with no position repeated. */
  predicate Increasing(s: seq<nat>) {
    forall a, b :: 0 <= a < b < |s| ==> s[a] < s[b]
  }

  /** A position below every element of an ascending sequence may be put
      in front of it. */
  lemma PrependIncreasing(i: nat, s: seq<nat>)
    requires Increasing(s)
    requires forall j :: j in s ==> i < j
    ensures Increasing([i] + s)
  {
    forall a, b | 0 <= a < b < |[i] + s|
      ensures ([i] + s)[a] < ([i] + s)[b]
    {
      assert ([i] + s)[b] == s[b - 1];
      if a > 0 {
        assert ([i] + s)[a] == s[a - 1];
      } else {
        assert s[b - 1] in s;
      }
    }
  }

  /** The composite's loop, from member `i` onwards. */
  function ExecuteFrom(hs: seq<SubjectHandler>, ctx: Context, sub: Option<Subject>, i: nat): (r: Run)
    requires i <= |hs|
    ensures i + |r.invoked| <= |hs|
    ensures forall k :: 0 <= k < |r.invoked| ==> r.invoked[k] == Invocation(i + k, ctx, sub)
    ensures forall j :: j in r.consulted <==> i <= j < i + |r.invoked| && Fails(hs[j], ctx, sub)
    ensures (forall j :: i <= j < |hs| ==> !Fails(hs[j], ctx, sub)) ==> r.consulted == []
    ensures r.err.None? <==> NoneFatal(hs, ctx, sub, i)
    ensures r.err.None? ==> i + |r.invoked| == |hs|
    ensures r.err.Some? ==> FirstFatal(hs, ctx, sub, i, i + |r.invoked| - 1)
    ensures r.err.Some? ==> r.err == hs[i + |r.invoked| - 1].execute(ctx, sub)
    decreases |hs| - i
  {
    if i == |hs| then
      Run(None, [], [])
    else
      var here := Invocation(i, ctx, sub);
      match hs[i].execute(ctx, sub)
      case None =>
        var rest := ExecuteFrom(hs, ctx, sub, i + 1);
        Run(rest.err, [here] + rest.invoked, rest.consulted)
      case Some(e) =>
        if hs[i].continueOnError then
          var rest := ExecuteFrom(hs, ctx, sub, i + 1);
          Run(rest.err, [here] + rest.invoked, [i] + rest.consulted)
        else
          Run(Some(e), [here], [i])
  }

  /** The members asked for `ContinueOnError` from member `i` on are asked
      in member order, each at most once. */
  lemma {:induction false} ConsultedInOrder(hs: seq<SubjectHandler>, ctx: Context, sub: Option<Subject>, i: nat)
    requires i <= |hs|
    ensures Increasing(ExecuteFrom(hs, ctx, sub, i).consulted)
    decreases |hs| - i
  {
    if i < |hs| && (hs[i].execute(ctx, sub).None? || hs[i].continueOnError) {
      var rest := ExecuteFrom(hs, ctx, sub, i + 1);
      ConsultedInOrder(hs, ctx, sub, i + 1);
      if hs[i].execute(ctx, sub).Some? {
        PrependIncreasing(i, rest.consulted);
      }
    }
  }

  /** compositeSubjectHandler.Execute: every member receives the same
      context and subject, in construction order; the run stops at the
      first failure whose handler does not continue on error and returns
      exactly that error; otherwise it succeeds, and `ContinueOnError` is
      asked only of members that failed. */
  function Execute(hs: seq<SubjectHandler>, ctx: Context, sub: Option<Subject>): (r: Run)
    ensures |r.invoked| <= |hs|
    ensures forall k :: 0 <= k < |r.invoked| ==> r.invoked[k] == Invocation(k, ctx, sub)
    ensures forall j :: j in r.consulted <==> 0 <= j < |r.invoked| && Fails(hs[j], ctx, sub)
    ensures Increasing(r.consulted)
    ensures (forall j :: 0 <= j < |hs| ==> !Fails(hs[j], ctx, sub)) ==> r.consulted == []
    ensures r.err.None? <==> NoneFatal(hs, ctx, sub, 0)
    ensures r.err.None? ==> |r.invoked| == |hs|
    ensures forall j :: FirstFatal(hs, ctx, sub, 0, j) ==> r.err == hs[j].execute(ctx, sub) && |r.invoked| == j + 1
  {
    ConsultedInOrder(hs, ctx, sub, 0);
    ExecuteFrom(hs, ctx, sub, 0)
  }

  /** Running `hs1 + hs2` returns what running `hs1` returns when that
      fails, and otherwise what running `hs2` returns: a composite is a
      left-to-right fold with short-circuit on a fatal failure. */
  lemma SequentialComposition(hs1: seq<SubjectHandler>, hs2: seq<SubjectHandler>, ctx: Context, sub: Option<Subject>)
    ensures Execute(hs1 + hs2, ctx, sub).err ==
      if Execute(hs1, ctx, sub).err.Some? then Execute(hs1, ctx, sub).err else Execute(hs2, ctx, sub).err
  {
    var hs := hs1 + hs2;
    var r1 := Execute(hs1, ctx, sub);
    var r2 := Execute(hs2, ctx, sub);
    if r1.err.Some? {
      var j := |r1.invoked| - 1;
      assert FirstFatal(hs1, ctx, sub, 0, j) by {
        assert r1 == ExecuteFrom(hs1, ctx, sub, 0);
      }
      assert FirstFatal(hs, ctx, sub, 0, j) by {
        forall k | 0 <= k <= j
          ensures hs[k] == hs1[k]
        {
        }
      }
    } else if r2.err.Some? {
      var j := |r2.invoked| - 1;
      assert FirstFatal(hs2, ctx, sub, 0, j) by {
        assert r2 == ExecuteFrom(hs2, ctx, sub, 0);
      }
      assert NoneFatal(hs1, ctx, sub, 0);
      assert FirstFatal(hs, ctx, sub, 0, |hs1| + j) by {
        forall k | 0 <= k < |hs1| + j
          ensures !Fatal(hs[k], ctx, sub)
        {
          if k < |hs1| {
            assert hs[k] == hs1[k];
          } else {
            assert hs[k] == hs2[k - |hs1|];
          }
        }
        assert hs[|hs1| + j] == hs2[j];
      }
    } else {
      assert NoneFatal(hs1, ctx, sub, 0) && NoneFatal(hs2, ctx, sub, 0);
      assert NoneFatal(hs, ctx, sub, 0) by {
        forall k | 0 <= k < |hs|
          ensures !Fatal(hs[k], ctx, sub)
        {
          if k < |hs1| {
            assert hs[k] == hs1[k];
          } else {
            assert hs[k] == hs2[k - |hs1|];
          }
        }
      }
    }
  }

  // The two-member scenarios of the composite's test table.

  lemma AllSucceeded(a: SubjectHandler, b: SubjectHandler, ctx: Context, sub: Option<Subject>)
    requires !Fails(a, ctx, sub) && !Fails(b, ctx, sub)
    ensures Execute([a, b], ctx, sub).err == None
    ensures Execute([a, b], ctx, sub).invoked == [Invocation(0, ctx, sub), Invocation(1, ctx, sub)]
    ensures Execute([a, b], ctx, sub).consulted == []
  {
  }

  lemma FirstFailsWithoutContinuation(a: SubjectHandler, b: SubjectHandler, ctx: Context, sub: Option<Subject>)
    requires Fails(a, ctx, sub) && !a.continueOnError
    ensures Execute([a, b], ctx, sub).err == a.execute(ctx, sub)
    ensures Execute([a, b], ctx, sub).invoked == [Invocation(0, ctx, sub)]
  {
  }

  lemma FirstFailsWithContinuation(a: SubjectHandler, b: SubjectHandler, ctx: Context, sub: Option<Subject>)
    requires Fails(a, ctx, sub) && a.continueOnError && !Fails(b, ctx, sub)
    ensures Execute([a, b], ctx, sub).err == None
    ensures |Execute([a, b], ctx, sub).invoked| == 2
    ensures Execute([a, b], ctx, sub).consulted == [0]
  {
  }

  lemma SecondFailsWithoutContinuation(a: SubjectHandler, b: SubjectHandler, ctx: Context, sub: Option<Subject>)
    requires !Fails(a, ctx, sub) && Fails(b, ctx, sub) && !b.continueOnError
    ensures Execute([a, b], ctx, sub).err == b.execute(ctx, sub)
    ensures |Execute([a, b], ctx, sub).invoked| == 2
    ensures Execute([a, b], ctx, sub).consulted == [1]
  {
    assert FirstFatal([a, b], ctx, sub, 0, 1);
    assert ExecuteFrom([a, b], ctx, sub, 1).consulted == [1];
  }

  lemma SecondFailsWithContinuation(a: SubjectHandler, b: SubjectHandler, ctx: Context, sub: Option<Subject>)
    requires !Fails(a, ctx, sub) && Fails(b, ctx, sub) && b.continueOnError
    ensures Execute([a, b], ctx, sub).err == None
  {
  }
}
