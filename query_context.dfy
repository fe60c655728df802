// The criteria a request context carries: CriteriaForContext,
// ContextWithCriteria and AddCriteria.

module QueryContext {
  import opened Text
  import opened QueryCriteria
  import opened QueryMerge

  /**
   * A context as far as criteria go: the criteria stored under the
   * criteria key, or nothing when no criteria were ever stored.
   */
  datatype Context = Context(stored: Option<seq<Criterion>>)

  /** A context that carries no criteria. */
  const Background: Context := Context(None)

  /** CriteriaForContext: the stored criteria, or an empty list when there are none. */
  function CriteriaForContext(ctx: Context): seq<Criterion> {
    match ctx.stored
    case None => []
    case Some(cs) => cs
  }

  /** ContextWithCriteria: the context with the criteria replaced by cs. */
  function ContextWithCriteria(ctx: Context, cs: seq<Criterion>): (r: Context)
    ensures CriteriaForContext(r) == cs
  {
    Context(Some(cs))
  }

  /** AddCriteria: merge the new criteria into the context's, or return the merge's error. */
  function AddCriteria(ctx: Context, newCriteria: seq<Criterion>, lit: Literals): Outcome<Context> {
    match Merge(CriteriaForContext(ctx), newCriteria, lit)
    case Ok(merged) => Ok(ContextWithCriteria(ctx, merged))
    case Err(e) => Err(e)
    case Panic => Panic
  }

  /**
   * AddCriteria succeeds exactly when mergeCriteria accepts every new
   * criterion against the context's, and the new context then carries
   * the context's criteria followed by the new ones.
   */
  lemma AddCriteriaAppends(ctx: Context, newCriteria: seq<Criterion>, lit: Literals)
    ensures AddCriteria(ctx, newCriteria, lit).Ok? <==>
      forall j :: 0 <= j < |newCriteria| ==> Accepted(CriteriaForContext(ctx) + newCriteria, newCriteria[j], lit)
    ensures AddCriteria(ctx, newCriteria, lit).Ok? ==>
      CriteriaForContext(AddCriteria(ctx, newCriteria, lit).value) == CriteriaForContext(ctx) + newCriteria
  {
    MergeSucceeds(CriteriaForContext(ctx), newCriteria, lit);
  }

  /**
   * Adding a field or label criterion whose key the context already holds
   * for that type fails as a duplicate.
   */
  lemma AddingHeldKeyFails(ctx: Context, c: Criterion, lit: Literals, i: nat)
    requires c.kind != ResultQuery
    requires i < |CriteriaForContext(ctx)|
    requires CriteriaForContext(ctx)[i].kind == c.kind && CriteriaForContext(ctx)[i].leftOp == c.leftOp
    ensures AddCriteria(ctx, [c], lit).Err?
    ensures c.kind == FieldQuery ==> AddCriteria(ctx, [c], lit).error == DuplicateFieldKey(c.leftOp)
    ensures c.kind == LabelQuery ==> AddCriteria(ctx, [c], lit).error == DuplicateLabelKey(c.leftOp)
  {
    RepeatedKeyRejected(CriteriaForContext(ctx), c, lit, i);
  }
}
