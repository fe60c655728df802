// BuildCriteriaFromRequest: the fieldQuery and labelQuery parameters of a
// request parsed in that order, merged, and sorted in place by left operand.

module QueryRequest {
  import opened Text
  import opened QueryCriteria
  import opened QueryParser
  import opened QueryMerge
  import opened ProcessProperties

  /** A request's URL query: each parameter name with its values in order. */
  type QueryValues = map<string, seq<string>>

  /** url.Values.Get: the first value of the parameter, or "" when it has none. */
  function Get(query: QueryValues, name: string): string {
    if name in query && |query[name]| > 0 then query[name][0] else ""
  }

  // ---------------------------------------------------------------------
  // Collecting the criteria
  // ---------------------------------------------------------------------

  /** The loop over the supported query types, from the k-th type on, with the criteria merged so far. */
  function CollectFrom(query: QueryValues, lit: Literals, k: nat, criteria: seq<Criterion>): Outcome<seq<Criterion>>
    requires k <= |SupportedQueryTypes|
    decreases |SupportedQueryTypes| - k
  {
    if k == |SupportedQueryTypes| then Ok(criteria)
    else
      var kind := SupportedQueryTypes[k];
      match Parse(Get(query, kind.Name()), kind, lit)
      case Err(e) => Err(e)
      case Panic => Panic
      case Ok(segments) =>
        match Merge(criteria, segments, lit)
        case Err(e) => Err(e)
        case Panic => Panic
        case Ok(merged) => CollectFrom(query, lit, k + 1, merged)
  }

  /** The criteria BuildCriteriaFromRequest sorts: field criteria merged first, then label criteria. */
  function Collect(query: QueryValues, lit: Literals): Outcome<seq<Criterion>> {
    CollectFrom(query, lit, 0, [])
  }

  // ---------------------------------------------------------------------
  // Sorting by left operand
  // ---------------------------------------------------------------------

  /** No criterion's left operand is less than an earlier one's. */
  predicate SortedByLeftOp(cs: seq<Criterion>) {
    forall p, q :: 0 <= p < q < |cs| ==> !LexLess(cs[q].leftOp, cs[p].leftOp)
  }

  /** ByLeftOp.Swap */
  method Swap(a: array<Criterion>, i: nat, j: nat)
    requires i < a.Length && j < a.Length
    modifies a
    ensures a[..] == old(a[..])[i := old(a[j])][j := old(a[i])]
    ensures multiset(a[..]) == multiset(old(a[..]))
  {
    a[i], a[j] := a[j], a[i];
  }

  /**
   * sort.Sort(ByLeftOp(a)): the library's algorithm is not part of this
   * model; an insertion sort by ByLeftOp.Less and ByLeftOp.Swap stands in
   * for it, with the library's contract: sorted, and a permutation.
   */
  method SortByLeftOp(a: array<Criterion>)
    modifies a
    ensures SortedByLeftOp(a[..])
    ensures multiset(a[..]) == multiset(old(a[..]))
  {
    var i := 0;
    while i < a.Length
      invariant i <= a.Length
      invariant forall p, q :: 0 <= p < q < i ==> !LexLess(a[q].leftOp, a[p].leftOp)
      invariant multiset(a[..]) == multiset(old(a[..]))
    {
      var j := i;
      while j > 0 && LexLess(a[j].leftOp, a[j - 1].leftOp)
        invariant j <= i
        invariant forall p, q :: 0 <= p < q <= i && q != j ==> !LexLess(a[q].leftOp, a[p].leftOp)
        invariant multiset(a[..]) == multiset(old(a[..]))
      {
        LexLessAsymmetric(a[j].leftOp, a[j - 1].leftOp);
        Swap(a, j - 1, j);
        j := j - 1;
      }
      forall p | 0 <= p < j
        ensures !LexLess(a[j].leftOp, a[p].leftOp)
      {
        if p < j - 1 {
          assert !LexLess(a[j - 1].leftOp, a[p].leftOp);
          LexLeqTransitive(a[p].leftOp, a[j - 1].leftOp, a[j].leftOp);
        }
      }
      i := i + 1;
    }
  }

  // ---------------------------------------------------------------------
  // BuildCriteriaFromRequest
  // ---------------------------------------------------------------------

  /**
   * BuildCriteriaFromRequest: parse and merge each supported query type in
   * turn, stopping at the first error, then sort by left operand.
   */
  method BuildCriteriaFromRequest(query: QueryValues, lit: Literals) returns (r: Outcome<seq<Criterion>>)
    ensures r.Ok? <==> Collect(query, lit).Ok?
    ensures !r.Ok? ==> r == Collect(query, lit)
    ensures r.Ok? ==> SortedByLeftOp(r.value) && multiset(r.value) == multiset(Collect(query, lit).value)
  {
    var criteria: seq<Criterion> := [];
    var k := 0;
    while k < |SupportedQueryTypes|
      invariant k <= |SupportedQueryTypes|
      invariant CollectFrom(query, lit, k, criteria) == Collect(query, lit)
    {
      var kind := SupportedQueryTypes[k];
      var querySegments := Process(Get(query, kind.Name()), kind, lit);
      match querySegments
      case Err(e) =>
        return Err(e);
      case Panic =>
        return Panic;
      case Ok(segments) =>
      var merged := MergeCriteria(criteria, segments, lit);
      match merged
      case Err(e) =>
        return Err(e);
      case Panic =>
        return Panic;
      case Ok(m) =>
      criteria := m;
      k := k + 1;
    }
    var a := new Criterion[|criteria|](p requires 0 <= p < |criteria| => criteria[p]);
    assert a[..] == criteria;
    SortByLeftOp(a);
    return Ok(a[..]);
  }

  // ---------------------------------------------------------------------
  // What BuildCriteriaFromRequest promises
  // ---------------------------------------------------------------------

  /** One successful iteration of the loop over the query types. */
  lemma CollectFromOk(query: QueryValues, lit: Literals, k: nat, criteria: seq<Criterion>, kind: CriterionType, text: string)
    requires k < |SupportedQueryTypes| && kind == SupportedQueryTypes[k] && text == Get(query, kind.Name())
    requires CollectFrom(query, lit, k, criteria).Ok?
    ensures Parse(text, kind, lit).Ok? && Merge(criteria, Parse(text, kind, lit).value, lit).Ok?
    ensures CollectFrom(query, lit, k, criteria) == CollectFrom(query, lit, k + 1, Merge(criteria, Parse(text, kind, lit).value, lit).value)
  {
  }

  /** How a successful collection came about: both queries parsed and both merges succeeded. */
  lemma CollectSteps(query: QueryValues, lit: Literals, fieldText: string, labelText: string)
    requires fieldText == Get(query, "fieldQuery") && labelText == Get(query, "labelQuery")
    requires Collect(query, lit).Ok?
    ensures Parse(fieldText, FieldQuery, lit).Ok? && Parse(labelText, LabelQuery, lit).Ok?
    ensures var fields, labels := Parse(fieldText, FieldQuery, lit).value, Parse(labelText, LabelQuery, lit).value;
      && Merge([], fields, lit).Ok? && Merge(fields, labels, lit).Ok?
      && Collect(query, lit).value == fields + labels
  {
    assert SupportedQueryTypes[0] == FieldQuery && FieldQuery.Name() == "fieldQuery";
    CollectFromOk(query, lit, 0, [], FieldQuery, fieldText);
    var fields := Parse(fieldText, FieldQuery, lit).value;
    MergeSucceeds([], fields, lit);
    assert [] + fields == fields;
    assert SupportedQueryTypes[1] == LabelQuery && LabelQuery.Name() == "labelQuery";
    CollectFromOk(query, lit, 1, fields, LabelQuery, labelText);
    var labels := Parse(labelText, LabelQuery, lit).value;
    MergeSucceeds(fields, labels, lit);
  }

  /** Field criteria merged into nothing, then label criteria merged into those: the keys of each type are distinct. */
  lemma MergedTwiceKeysDistinct(fields: seq<Criterion>, labels: seq<Criterion>, cs: seq<Criterion>)
    requires forall k :: 0 <= k < |fields| ==> fields[k].kind == FieldQuery
    requires forall k :: 0 <= k < |labels| ==> labels[k].kind == LabelQuery
    requires KeysSeparated([], fields) && KeysSeparated(fields, labels) && cs == fields + labels
    ensures forall p, q :: 0 <= p < q < |cs| && cs[p].kind == cs[q].kind ==> cs[p].leftOp != cs[q].leftOp
  {
    assert [] + fields == fields;
    forall p, q | 0 <= p < q < |cs| && cs[p].kind == cs[q].kind
      ensures cs[p].leftOp != cs[q].leftOp
    {
      if q < |fields| {
        assert cs[p] == fields[p] && cs[q] == fields[q];
      }
    }
  }

  /** Criteria emitted by the two queries, one after the other, are field and label criteria that passed Validate. */
  lemma EmittedBoth(fields: seq<Criterion>, labels: seq<Criterion>, lit: Literals, cs: seq<Criterion>)
    requires Emitted(fields, FieldQuery, lit) && Emitted(labels, LabelQuery, lit) && cs == fields + labels
    ensures forall k :: 0 <= k < |cs| ==> cs[k].kind != ResultQuery && Validate(cs[k], lit) == Passed
    ensures forall k :: 0 <= k < |fields| ==> fields[k].kind == FieldQuery
    ensures forall k :: 0 <= k < |labels| ==> labels[k].kind == LabelQuery
  {
    forall k | 0 <= k < |cs|
      ensures cs[k].kind != ResultQuery && Validate(cs[k], lit) == Passed
    {
      if k < |fields| {
        assert cs[k] == fields[k];
      } else {
        assert cs[k] == labels[k - |fields|];
      }
    }
  }

  /**
   * The collected criteria are the fieldQuery's followed by the
   * labelQuery's; each carries its query's type and passed Validate, and
   * no two criteria of one type share a left operand.
   */
  lemma CollectFieldsThenLabels(query: QueryValues, lit: Literals, fieldText: string, labelText: string, cs: seq<Criterion>)
    requires fieldText == Get(query, "fieldQuery") && labelText == Get(query, "labelQuery")
    requires Collect(query, lit) == Ok(cs)
    ensures Parse(fieldText, FieldQuery, lit).Ok? && Parse(labelText, LabelQuery, lit).Ok?
    ensures cs == Parse(fieldText, FieldQuery, lit).value + Parse(labelText, LabelQuery, lit).value
    ensures forall k :: 0 <= k < |cs| ==> cs[k].kind != ResultQuery && Validate(cs[k], lit) == Passed
    ensures forall p, q :: 0 <= p < q < |cs| && cs[p].kind == cs[q].kind ==> cs[p].leftOp != cs[q].leftOp
  {
    CollectSteps(query, lit, fieldText, labelText);
    var fields, labels := Parse(fieldText, FieldQuery, lit).value, Parse(labelText, LabelQuery, lit).value;
    ParseSound(fieldText, FieldQuery, lit);
    ParseSound(labelText, LabelQuery, lit);
    EmittedBoth(fields, labels, lit, cs);
    MergeSeparatesKeys([], fields, lit);
    MergeSeparatesKeys(fields, labels, lit);
    MergedTwiceKeysDistinct(fields, labels, cs);
  }

  /** A request without either query yields no criteria. */
  lemma EmptyRequest(query: QueryValues, lit: Literals)
    requires Get(query, "fieldQuery") == "" && Get(query, "labelQuery") == ""
    ensures Collect(query, lit) == Ok([])
  {
    assert FieldQuery.Name() == "fieldQuery" && LabelQuery.Name() == "labelQuery";
    var none: seq<Criterion> := [];
    assert none + none == none;
    assert Merge(none, none, lit) == Ok(none);
  }
}
