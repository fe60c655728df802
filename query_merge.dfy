// mergeCriteria: appending incoming criteria to the ones already held,
// rejecting an incoming field or label key that its type already uses and
// any incoming criterion that Validate rejects.

module QueryMerge {
  import opened QueryCriteria

  /** How many criteria of the given type have the given left operand. */
  function CountKey(cs: seq<Criterion>, kind: CriterionType, key: string): (n: nat)
    ensures n <= |cs|
    decreases |cs|
  {
    if |cs| == 0 then 0
    else CountKey(cs[..|cs| - 1], kind, key) + Hit(cs[|cs| - 1], kind, key)
  }

  /** 1 when c has the given type and left operand, 0 otherwise. */
  function Hit(c: Criterion, kind: CriterionType, key: string): nat {
    if c.kind == kind && c.leftOp == key then 1 else 0
  }

  /** A key is counted zero times exactly when no criterion of the type has it. */
  lemma {:induction false} CountKeyZero(cs: seq<Criterion>, kind: CriterionType, key: string)
    ensures CountKey(cs, kind, key) == 0 <==> forall k :: 0 <= k < |cs| ==> Hit(cs[k], kind, key) == 0
    decreases |cs|
  {
    if |cs| > 0 {
      var init := cs[..|cs| - 1];
      CountKeyZero(init, kind, key);
      assert forall k :: 0 <= k < |init| ==> init[k] == cs[k];
    }
  }

  /** Counting one more criterion of a list. */
  lemma CountKeyStep(cs: seq<Criterion>, i: nat, kind: CriterionType, key: string)
    requires i < |cs|
    ensures CountKey(cs[..i + 1], kind, key) == CountKey(cs[..i], kind, key) + Hit(cs[i], kind, key)
  {
    assert cs[..i + 1][..i] == cs[..i];
  }

  /** Counting over two lists is counting over each. */
  lemma {:induction false} CountKeyAppend(a: seq<Criterion>, b: seq<Criterion>, kind: CriterionType, key: string)
    ensures CountKey(a + b, kind, key) == CountKey(a, kind, key) + CountKey(b, kind, key)
    decreases |b|
  {
    if |b| == 0 {
      assert a + b == a;
    } else {
      var ab, init := a + b, b[..|b| - 1];
      assert ab[..|ab| - 1] == a + init;
      assert ab[|ab| - 1] == b[|b| - 1];
      CountKeyAppend(a, init, kind, key);
    }
  }

  /** A key's count in one of mergeCriteria's maps: Go's zero value when the key is absent. */
  function Tally(counts: map<string, nat>, key: string): nat {
    if key in counts then counts[key] else 0
  }

  /** The checks mergeCriteria makes on one incoming criterion, in order, against the whole of c1 ++ c2. */
  function CheckIncoming(all: seq<Criterion>, c: Criterion, lit: Literals): Status {
    if c.kind == LabelQuery && CountKey(all, LabelQuery, c.leftOp) > 1 then Failed(DuplicateLabelKey(c.leftOp))
    else if c.kind == FieldQuery && CountKey(all, FieldQuery, c.leftOp) > 1 then Failed(DuplicateFieldKey(c.leftOp))
    else Validate(c, lit)
  }

  /** mergeCriteria from the k-th incoming criterion on. */
  function MergeFrom(c1: seq<Criterion>, c2: seq<Criterion>, lit: Literals, k: nat): Outcome<seq<Criterion>>
    requires k <= |c2|
    decreases |c2| - k
  {
    if k == |c2| then Ok(c1 + c2)
    else match CheckIncoming(c1 + c2, c2[k], lit)
      case Passed => MergeFrom(c1, c2, lit, k + 1)
      case Failed(e) => Err(e)
      case Panicked => Panic
  }

  /** What mergeCriteria(c1, c2) returns. */
  function Merge(c1: seq<Criterion>, c2: seq<Criterion>, lit: Literals): Outcome<seq<Criterion>> {
    MergeFrom(c1, c2, lit, 0)
  }

  /** mergeCriteria's first loop: count the keys of field and of label criteria. */
  method CountKeys(all: seq<Criterion>) returns (fieldCounts: map<string, nat>, labelCounts: map<string, nat>)
    ensures forall key :: Tally(fieldCounts, key) == CountKey(all, FieldQuery, key)
    ensures forall key :: Tally(labelCounts, key) == CountKey(all, LabelQuery, key)
  {
    fieldCounts, labelCounts := map[], map[];
    var i := 0;
    while i < |all|
      invariant i <= |all|
      invariant forall key :: Tally(fieldCounts, key) == CountKey(all[..i], FieldQuery, key)
      invariant forall key :: Tally(labelCounts, key) == CountKey(all[..i], LabelQuery, key)
    {
      var c := all[i];
      if c.kind == FieldQuery {
        fieldCounts := fieldCounts[c.leftOp := Tally(fieldCounts, c.leftOp) + 1];
      }
      if c.kind == LabelQuery {
        labelCounts := labelCounts[c.leftOp := Tally(labelCounts, c.leftOp) + 1];
      }
      forall key
        ensures CountKey(all[..i + 1], FieldQuery, key) == CountKey(all[..i], FieldQuery, key) + Hit(c, FieldQuery, key)
        ensures CountKey(all[..i + 1], LabelQuery, key) == CountKey(all[..i], LabelQuery, key) + Hit(c, LabelQuery, key)
      {
        CountKeyStep(all, i, FieldQuery, key);
        CountKeyStep(all, i, LabelQuery, key);
      }
      i := i + 1;
    }
    assert all[..i] == all;
  }

  /** mergeCriteria: count the keys of each type over c1 ++ c2, then check each incoming criterion. */
  method MergeCriteria(c1: seq<Criterion>, c2: seq<Criterion>, lit: Literals) returns (r: Outcome<seq<Criterion>>)
    ensures r == Merge(c1, c2, lit)
  {
    var fieldCounts, labelCounts := CountKeys(c1 + c2);
    var k := 0;
    while k < |c2|
      invariant k <= |c2|
      invariant MergeFrom(c1, c2, lit, k) == Merge(c1, c2, lit)
    {
      var c := c2[k];
      if c.leftOp in labelCounts && labelCounts[c.leftOp] > 1 && c.kind == LabelQuery {
        return Err(DuplicateLabelKey(c.leftOp));
      }
      if c.leftOp in fieldCounts && fieldCounts[c.leftOp] > 1 && c.kind == FieldQuery {
        return Err(DuplicateFieldKey(c.leftOp));
      }
      match Validate(c, lit)
      case Failed(e) =>
        return Err(e);
      case Panicked =>
        return Panic;
      case Passed =>
      k := k + 1;
    }
    return Ok(c1 + c2);
  }

  // ---------------------------------------------------------------------
  // What mergeCriteria promises
  // ---------------------------------------------------------------------

  /**
   * An incoming criterion is accepted when Validate passes it and, for a
   * field or label criterion, its key occurs once among the criteria of its
   * type in c1 ++ c2 (that once being itself).
   */
  predicate Accepted(all: seq<Criterion>, c: Criterion, lit: Literals) {
    && Validate(c, lit) == Passed
    && (c.kind != ResultQuery ==> CountKey(all, c.kind, c.leftOp) <= 1)
  }

  lemma CheckIncomingPasses(all: seq<Criterion>, c: Criterion, lit: Literals)
    ensures CheckIncoming(all, c, lit) == Passed <==> Accepted(all, c, lit)
  {
  }

  lemma {:induction false} MergeFromSucceeds(c1: seq<Criterion>, c2: seq<Criterion>, lit: Literals, k: nat)
    requires k <= |c2|
    ensures MergeFrom(c1, c2, lit, k).Ok? ==> MergeFrom(c1, c2, lit, k).value == c1 + c2
    ensures MergeFrom(c1, c2, lit, k).Ok? <==> forall j :: k <= j < |c2| ==> Accepted(c1 + c2, c2[j], lit)
    decreases |c2| - k
  {
    if k < |c2| {
      CheckIncomingPasses(c1 + c2, c2[k], lit);
      MergeFromSucceeds(c1, c2, lit, k + 1);
    }
  }

  /**
   * mergeCriteria succeeds exactly when every incoming criterion is
   * accepted, and then returns c1 followed by c2.
   */
  lemma MergeSucceeds(c1: seq<Criterion>, c2: seq<Criterion>, lit: Literals)
    ensures Merge(c1, c2, lit).Ok? ==> Merge(c1, c2, lit).value == c1 + c2
    ensures Merge(c1, c2, lit).Ok? <==> forall j :: 0 <= j < |c2| ==> Accepted(c1 + c2, c2[j], lit)
  {
    MergeFromSucceeds(c1, c2, lit, 0);
  }

  /** The outcome a failed check turns into. */
  function FailureOf(s: Status): Outcome<seq<Criterion>> {
    match s
    case Failed(e) => Err(e)
    case _ => Panic
  }

  lemma {:induction false} MergeFromFailsAtFirst(c1: seq<Criterion>, c2: seq<Criterion>, lit: Literals, k: nat)
    requires k <= |c2|
    ensures !MergeFrom(c1, c2, lit, k).Ok? ==>
      exists j :: k <= j < |c2| && CheckIncoming(c1 + c2, c2[j], lit) != Passed
        && (forall i :: k <= i < j ==> CheckIncoming(c1 + c2, c2[i], lit) == Passed)
        && MergeFrom(c1, c2, lit, k) == FailureOf(CheckIncoming(c1 + c2, c2[j], lit))
    decreases |c2| - k
  {
    if k < |c2| {
      var s := CheckIncoming(c1 + c2, c2[k], lit);
      if s == Passed {
        MergeFromFailsAtFirst(c1, c2, lit, k + 1);
      } else {
        assert MergeFrom(c1, c2, lit, k) == FailureOf(s);
      }
    }
  }

  /**
   * When mergeCriteria fails, it fails with the error of the first
   * incoming criterion that a check rejects, and returns no criteria.
   */
  lemma MergeFailsAtFirst(c1: seq<Criterion>, c2: seq<Criterion>, lit: Literals)
    ensures !Merge(c1, c2, lit).Ok? ==>
      exists j :: 0 <= j < |c2| && CheckIncoming(c1 + c2, c2[j], lit) != Passed
        && (forall i :: 0 <= i < j ==> CheckIncoming(c1 + c2, c2[i], lit) == Passed)
        && Merge(c1, c2, lit) == FailureOf(CheckIncoming(c1 + c2, c2[j], lit))
  {
    MergeFromFailsAtFirst(c1, c2, lit, 0);
  }

  /**
   * An incoming field or label criterion whose key the held criteria of
   * its type already use is rejected as a duplicate, whatever it is.
   */
  lemma RepeatedKeyRejected(c1: seq<Criterion>, c: Criterion, lit: Literals, i: nat)
    requires c.kind != ResultQuery && i < |c1| && c1[i].kind == c.kind && c1[i].leftOp == c.leftOp
    ensures c.kind == LabelQuery ==> Merge(c1, [c], lit) == Err(DuplicateLabelKey(c.leftOp))
    ensures c.kind == FieldQuery ==> Merge(c1, [c], lit) == Err(DuplicateFieldKey(c.leftOp))
  {
    CountKeyAppend(c1, [c], c.kind, c.leftOp);
    CountKeyZero(c1, c.kind, c.leftOp);
    assert Hit(c1[i], c.kind, c.leftOp) == 1;
    assert [c][..0] == [];
  }

  /** Keys are counted per type: criteria of one type never make a key of another type a duplicate. */
  lemma {:induction false} KeysCountedPerType(cs: seq<Criterion>, other: seq<Criterion>, kind: CriterionType, key: string)
    requires forall k :: 0 <= k < |other| ==> other[k].kind != kind
    ensures CountKey(cs + other, kind, key) == CountKey(cs, kind, key)
  {
    CountKeyAppend(cs, other, kind, key);
    CountKeyZero(other, kind, key);
  }

  /** Duplicates among the held criteria alone are not checked: merging nothing always succeeds. */
  lemma HeldDuplicatesUnchecked(c1: seq<Criterion>, lit: Literals)
    ensures Merge(c1, [], lit) == Ok(c1)
  {
    assert c1 + [] == c1;
  }

  /** Two criteria of a type with the same key are counted twice. */
  lemma {:induction false} CountKeyTwo(cs: seq<Criterion>, p: nat, q: nat, kind: CriterionType, key: string)
    requires p < q < |cs| && Hit(cs[p], kind, key) == 1 && Hit(cs[q], kind, key) == 1
    ensures CountKey(cs, kind, key) >= 2
    decreases |cs|
  {
    var init := cs[..|cs| - 1];
    if q == |cs| - 1 {
      CountKeyZero(init, kind, key);
      assert init[p] == cs[p];
    } else {
      assert init[p] == cs[p] && init[q] == cs[q];
      CountKeyTwo(init, p, q, kind, key);
    }
  }

  /** No criterion of c2 of a field or label type shares its key with an earlier criterion of its type in c1 ++ c2. */
  predicate KeysSeparated(c1: seq<Criterion>, c2: seq<Criterion>) {
    var all := c1 + c2;
    forall p, q :: 0 <= p < q < |all| && |c1| <= q && all[p].kind == all[q].kind && all[q].kind != ResultQuery ==>
      all[p].leftOp != all[q].leftOp
  }

  /**
   * After a successful merge no incoming field or label criterion shares
   * its key with any other criterion of its type, held or incoming.
   */
  lemma MergeSeparatesKeys(c1: seq<Criterion>, c2: seq<Criterion>, lit: Literals)
    requires Merge(c1, c2, lit).Ok?
    ensures KeysSeparated(c1, c2)
  {
    var all := c1 + c2;
    MergeSucceeds(c1, c2, lit);
    forall p, q | 0 <= p < q < |all| && |c1| <= q && all[p].kind == all[q].kind && all[q].kind != ResultQuery
      ensures all[p].leftOp != all[q].leftOp
    {
      var c := all[q];
      assert c == c2[q - |c1|];
      assert Accepted(all, c, lit);
      if all[p].leftOp == c.leftOp {
        CountKeyTwo(all, p, q, c.kind, c.leftOp);
        assert false;
      }
    }
  }
}
