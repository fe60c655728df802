/**
 * What process guarantees: which operator it recognises, what every
 * criterion it returns satisfies, and that a query string written from
 * criteria parses back to those criteria.
 */
module ProcessProperties {
  import opened Text
  import opened QueryCriteria
  import opened QueryParser
  import opened ParserProperties

  // ---------------------------------------------------------------------
  // Recognising an operator
  // ---------------------------------------------------------------------

  /** No operator is spelled with the operand separator. */
  lemma SpaceFreeToken(op: Operator)
    ensures OperandSeparator !in Token(op)
  {
  }

  /** Of two patterns, the shorter starts the longer only when they are the same. */
  lemma PatternPrefix(a: Operator, b: Operator)
    requires |Pattern(a)| <= |Pattern(b)| && Pattern(b)[..|Pattern(a)|] == Pattern(a)
    ensures a == b
  {
    var ta, tb := Token(a), Token(b);
    assert Pattern(b)[|ta| + 1] == Pattern(a)[|ta| + 1] == OperandSeparator;
    SpaceFreeToken(b);
    if |ta| < |tb| {
      assert false;
    }
    assert ta == Pattern(a)[1..|ta| + 1] == Pattern(b)[1..|tb| + 1] == tb;
    TokenInjective(a, b);
  }

  /** No operator's pattern starts another's: at most one operator matches at a position. */
  lemma PatternsPrefixFree(s: string, a: Operator, b: Operator)
    requires HasPrefix(s, Pattern(a)) && HasPrefix(s, Pattern(b))
    ensures a == b
  {
    var pa, pb := Pattern(a), Pattern(b);
    if |pa| <= |pb| {
      assert pb[..|pa|] == s[..|pa|] == pa;
      PatternPrefix(a, b);
    } else {
      assert pa[..|pb|] == s[..|pb|] == pb;
      PatternPrefix(b, a);
    }
  }

  /** Every pattern starts with the operand separator, so none matches elsewhere. */
  lemma {:induction false} MatchNeedsSpace(rest: string, k: nat)
    requires k <= |Operators|
    requires |rest| == 0 || rest[0] != OperandSeparator
    ensures MatchFrom(rest, k) == None
    decreases |Operators| - k
  {
    if k < |Operators| {
      assert Pattern(Operators[k])[0] == OperandSeparator;
      MatchNeedsSpace(rest, k + 1);
    }
  }

  /** An operator whose pattern starts the text is the one recognised. */
  lemma {:induction false} MatchFromFinds(rest: string, k: nat, op: Operator)
    requires k <= |Operators| && op in Operators[k..] && HasPrefix(rest, Pattern(op))
    ensures MatchFrom(rest, k) == Some(op)
    decreases |Operators| - k
  {
    if HasPrefix(rest, Pattern(Operators[k])) {
      PatternsPrefixFree(rest, Operators[k], op);
    } else {
      assert op != Operators[k];
      assert op in Operators[k + 1..];
      MatchFromFinds(rest, k + 1, op);
    }
  }

  /** The operator recognised is one of the listed ones, whose pattern starts the text. */
  lemma {:induction false} MatchFromListed(rest: string, k: nat)
    requires k <= |Operators|
    ensures MatchFrom(rest, k).Some? ==> MatchFrom(rest, k).value in Operators
    decreases |Operators| - k
  {
    if k < |Operators| && !HasPrefix(rest, Pattern(Operators[k])) {
      MatchFromListed(rest, k + 1);
    }
  }

  /** MatchOperator finds an operator exactly when some listed operator's pattern starts the text. */
  lemma MatchOperatorExact(rest: string)
    ensures MatchOperator(rest).Some? <==> exists op :: op in Operators && HasPrefix(rest, Pattern(op))
    ensures MatchOperator(rest).Some? ==>
      MatchOperator(rest).value in Operators && HasPrefix(rest, Pattern(MatchOperator(rest).value))
  {
    MatchFromListed(rest, 0);
    if op :| op in Operators && HasPrefix(rest, Pattern(op)) {
      MatchFromFinds(rest, 0, op);
    }
  }

  // ---------------------------------------------------------------------
  // What process returns
  // ---------------------------------------------------------------------

  /**
   * The criteria process may return for a query of one type: each has that
   * type, a non-empty key, a recognised operator and at least one operand,
   * and passes Validate.
   */
  predicate Emitted(cs: seq<Criterion>, kind: CriterionType, lit: Literals) {
    forall k :: 0 <= k < |cs| ==>
      && cs[k].kind == kind && cs[k].leftOp != "" && cs[k].operator in Operators
      && |cs[k].rightOp| >= 1 && Validate(cs[k], lit) == Passed
  }

  /** What the loop variables carry between iterations. */
  predicate Carried(input: string, kind: CriterionType, lit: Literals, st: Progress) {
    && InRange(input, st) && Emitted(st.c, kind, lit)
    && (st.operator.Some? ==> st.operator.value in Operators)
  }

  /** The loop from any carried state returns more criteria of the same kind. */
  lemma {:induction false} ProcessFromSound(input: string, kind: CriterionType, lit: Literals, st: Progress)
    requires Carried(input, kind, lit, st)
    ensures var r := ProcessFrom(input, kind, lit, st);
      r.Ok? ==> |r.value| > 0 && Emitted(r.value, kind, lit) && st.c <= r.value
    decreases |input| + 1 - st.i, 1
  {
    if st.i < |input| {
      if Pending(st.leftOp, st.operator) {
        ContinueSound(input, kind, lit, st);
      } else {
        var next := SeekOperator(input, st);
        MatchFromListed(input[st.i..], 0);
        ProcessFromSound(input, kind, lit, next);
      }
    }
  }

  /** The same from an iteration that reads a right operand. */
  lemma {:induction false} ContinueSound(input: string, kind: CriterionType, lit: Literals, st: Progress)
    requires Carried(input, kind, lit, st) && st.i < |input| && Pending(st.leftOp, st.operator)
    ensures var r := ContinueAfterOperand(input, kind, lit, st);
      r.Ok? ==> |r.value| > 0 && Emitted(r.value, kind, lit) && st.c <= r.value
    decreases |input| + 1 - st.i, 0
  {
    var r := ReadOperand(input, kind, lit, st);
    if r.Ok? {
      var next := r.value;
      assert next.c == st.c + [next.c[|next.c| - 1]];
      ProcessFromSound(input, kind, lit, next);
    }
  }

  /**
   * process returns no criteria for an empty query and at least one for any
   * other; each is of the requested type, has a key and a recognised
   * operator, and passed Validate.
   */
  lemma ParseSound(input: string, kind: CriterionType, lit: Literals)
    ensures var r := Parse(input, kind, lit);
      r.Ok? ==> (r.value == [] <==> input == "") && Emitted(r.value, kind, lit)
    ensures input == "" ==> Parse(input, kind, lit) == Ok([])
  {
    if input != "" {
      ProcessFromSound(input, kind, lit, Progress(0, 0, "", None, []));
    }
  }

  /** Without a pending operator or any operator ahead, the loop gathers nothing. */
  lemma {:induction false} SeekingFindsNothing(input: string, kind: CriterionType, lit: Literals, st: Progress)
    requires InRange(input, st) && st.operator == None && st.c == []
    requires forall t :: st.i <= t < |input| ==> MatchOperator(input[t..]) == None
    ensures ProcessFrom(input, kind, lit, st) == Err(NotValidQuery(input, kind))
    decreases |input| + 1 - st.i
  {
    if st.i < |input| {
      SeekingFindsNothing(input, kind, lit, SeekOperator(input, st));
    }
  }

  /** A non-empty query in which no operator is recognised is not a valid query. */
  lemma ParseNeedsOperator(input: string, kind: CriterionType, lit: Literals)
    requires input != ""
    requires forall t :: 0 <= t < |input| ==> MatchOperator(input[t..]) == None
    ensures Parse(input, kind, lit) == Err(NotValidQuery(input, kind))
  {
    SeekingFindsNothing(input, kind, lit, Progress(0, 0, "", None, []));
  }

  // ---------------------------------------------------------------------
  // Written queries read back
  // ---------------------------------------------------------------------

  /**
   * How a client writes a criterion's right operand: a bracketed list, or
   * its one value escaped (nothing when there is none).
   */
  function WriteOperand(c: Criterion): string {
    if IsMultiVariate(c.operator) then BracketList(c.rightOp)
    else if |c.rightOp| == 0 then ""
    else EscapeValue(c.rightOp[0])
  }

  /** How a client writes a criterion: the key, the operator between spaces, the operand. */
  function WriteCriterion(c: Criterion): string {
    c.leftOp + Pattern(c.operator) + WriteOperand(c)
  }

  /**
   * A criterion that can be written so that it reads back: a key without
   * spaces or separators, a recognised operator, one value for a
   * single-valued operator and list values for a list operator, and at
   * most one separator among the values, in the first: the source's slice
   * of an escape keeps a later backslash or panics. (Whether Validate
   * accepts it is a separate condition.)
   */
  predicate Writable(c: Criterion, kind: CriterionType) {
    && c.kind == kind && c.leftOp != "" && c.operator in Operators
    && OperandSeparator !in c.leftOp && Separator !in c.leftOp
    && if IsMultiVariate(c.operator) then
         && |c.rightOp| >= 1 && (forall k :: 0 <= k < |c.rightOp| ==> ListValue(c.rightOp[k]))
         && FirstOnlyEscaped(c.rightOp)
       else |c.rightOp| == 1 && AtMostOneSeparator(c.rightOp[0])
  }

  /**
   * A written criterion another can follow: the separator after it must not
   * read as escaped or doubled, so a single value must be non-empty and end
   * in neither a separator nor a backslash.
   */
  predicate Followable(c: Criterion) {
    IsMultiVariate(c.operator) ||
    (|c.rightOp| > 0 && var v := c.rightOp[0]; |v| > 0 && v[|v| - 1] != Separator && v[|v| - 1] != Escape)
  }

  /** The criteria, each written. */
  function WriteEach(cs: seq<Criterion>): seq<string> {
    seq(|cs|, k requires 0 <= k < |cs| => WriteCriterion(cs[k]))
  }

  /** How a client writes several criteria: each written, joined by `|`. */
  function WriteQuery(cs: seq<Criterion>): string {
    Join(WriteEach(cs), [Separator])
  }

  /** Criteria that can be written one after another and read back. */
  predicate WritableQuery(cs: seq<Criterion>, kind: CriterionType) {
    forall k :: 0 <= k < |cs| ==> Writable(cs[k], kind) && (k + 1 < |cs| ==> Followable(cs[k]))
  }


  /** The last character of an escaped value is the value's last character. */
  lemma {:induction false} EscapeValueLast(v: string)
    requires |v| > 0
    ensures |EscapeValue(v)| > 0 && EscapeValue(v)[|EscapeValue(v)| - 1] == v[|v| - 1]
    decreases |v|
  {
    if |v| > 1 {
      EscapeValueLast(v[1..]);
    }
  }

  /** A written operand, closed where it ends, reads back as the criterion's operands. */
  lemma OperandReadsBack(s: string, c: Criterion, kind: CriterionType)
    requires Writable(c, kind)
    requires |WriteOperand(c)| <= |s| && s[..|WriteOperand(c)|] == WriteOperand(c)
    requires Closes(s, |WriteOperand(c)|) && (|WriteOperand(c)| < |s| ==> Followable(c))
    ensures RightOperandOf(AsWritten, s, c.leftOp, c.operator, kind) == Ok(RightOperand(c.rightOp, |WriteOperand(c)|))
  {
    var w := WriteOperand(c);
    forall k | 0 <= k < |w|
      ensures s[k] == w[k]
    {
      assert s[..|w|][k] == s[k];
    }
    if IsMultiVariate(c.operator) {
      BracketListShape(c.rightOp);
      var j := Join(EscapeAll(c.rightOp), [Separator, Separator]);
      forall k | 0 <= k < |j|
        ensures s[1 + k] == j[k]
      {
        assert s[1 + k] == w[1 + k];
      }
      JoinedReadsBack(AsWritten, s, |w|, c.rightOp, c.leftOp, c.operator, kind);
    } else {
      var v := c.rightOp[0];
      WrittenIn(s, 0, v);
      WrittenReadsBack(AsWritten, s, |w|, v, c.leftOp, c.operator, kind);
      assert [v] == c.rightOp;
    }
  }

  /** Over characters that are not spaces, the loop only moves on. */
  lemma {:induction false} SkipKey(input: string, kind: CriterionType, lit: Literals, i: nat, t: nat, m: nat, acc: seq<Criterion>)
    requires i <= t <= m <= |input|
    requires forall u :: t <= u < m ==> input[u] != OperandSeparator
    ensures ProcessFrom(input, kind, lit, Progress(t, i, "", None, acc)) == ProcessFrom(input, kind, lit, Progress(m, i, "", None, acc))
    decreases m - t
  {
    if t < m {
      MatchNeedsSpace(input[t..], 0);
      SkipKey(input, kind, lit, i, t + 1, m, acc);
    }
  }

  /** At an operator's pattern after a non-empty key, the key and operator become pending. */
  lemma RecogniseOperator(input: string, kind: CriterionType, lit: Literals, i: nat, m: nat, acc: seq<Criterion>, key: string, op: Operator)
    requires i < m <= |input| && key == input[i..m] && HasPrefix(input[m..], Pattern(op)) && op in Operators
    ensures InRange(input, Progress(m + 1, i, key, Some(op), acc)) && m + 1 < |input|
    ensures ProcessFrom(input, kind, lit, Progress(m, i, "", None, acc)) ==
            ContinueAfterOperand(input, kind, lit, Progress(m + 1, i, key, Some(op), acc))
  {
    MatchFromFinds(input[m..], 0, op);
    var st := Progress(m + 1, i, key, Some(op), acc);
    assert ProcessFrom(input, kind, lit, st) == ContinueAfterOperand(input, kind, lit, st);
  }

  /** Reading an operand that succeeds hands the loop on to the state after it. */
  lemma ContinueReads(input: string, kind: CriterionType, lit: Literals, st: Progress, next: Progress)
    requires InRange(input, st) && st.i < |input| && Pending(st.leftOp, st.operator)
    requires ReadOperand(input, kind, lit, st) == Ok(next)
    ensures InRange(input, next)
    ensures ContinueAfterOperand(input, kind, lit, st) == ProcessFrom(input, kind, lit, next)
  {
  }

  /** A pending criterion whose operand reads back and which Validate accepts is appended. */
  lemma AppendCriterion(input: string, kind: CriterionType, lit: Literals, i: nat, m: nat, acc: seq<Criterion>, c: Criterion, q: nat, e: nat)
    requires i < m && m + |Pattern(c.operator)| <= |input| && c.kind == kind && c.leftOp != ""
    requires RightOperandOf(AsWritten, input[m + |Pattern(c.operator)|..], c.leftOp, c.operator, kind) == Ok(RightOperand(c.rightOp, q))
    requires Validate(c, lit) == Passed
    requires e == m + |Pattern(c.operator)| + q
    ensures e <= |input| && InRange(input, Progress(m + 1, i, c.leftOp, Some(c.operator), acc))
    ensures ReadOperand(input, kind, lit, Progress(m + 1, i, c.leftOp, Some(c.operator), acc)) ==
            Ok(Progress(e + 1, e + 1, "", None, acc + [c]))
  {
  }

  /**
   * The text s after a written criterion's key and operator starts with its
   * operand, which is closed where it ends.
   */
  lemma OperandText(input: string, i: nat, m: nat, e: nat, s: string, c: Criterion)
    requires |c.rightOp| >= 1 && (IsMultiVariate(c.operator) || |c.rightOp| == 1)
    requires m == i + |c.leftOp| && e == i + |WriteCriterion(c)| && e <= |input| && input[i..e] == WriteCriterion(c)
    requires e < |input| ==> Followable(c) && input[e] == Separator && (e + 1 < |input| ==> input[e + 1] != Separator)
    requires m + |Pattern(c.operator)| <= |input| && s == input[m + |Pattern(c.operator)|..]
    ensures |WriteOperand(c)| <= |s| && s[..|WriteOperand(c)|] == WriteOperand(c)
    ensures Closes(s, |WriteOperand(c)|)
    ensures |WriteOperand(c)| < |s| ==> Followable(c)
  {
    var key, op, w := c.leftOp, c.operator, WriteOperand(c);
    assert input[i..e] == key + Pattern(op) + w;
    assert s[..|w|] == w by {
      assert s[..|w|] == input[i..e][|key| + |Pattern(op)|..];
    }
    if |w| < |s| {
      if IsMultiVariate(op) {
        assert s[|w| - 1] == w[|w| - 1] == CloseBracket;
      } else {
        EscapeValueLast(c.rightOp[0]);
        assert s[|w| - 1] == w[|w| - 1];
      }
      assert s[|w|] == input[e];
    }
  }

  /** A written criterion starts with its key, free of spaces, followed by its operator's pattern. */
  lemma KeyText(input: string, i: nat, m: nat, e: nat, c: Criterion)
    requires OperandSeparator !in c.leftOp && |c.rightOp| >= 1
    requires m == i + |c.leftOp| && e == i + |WriteCriterion(c)| && e <= |input| && input[i..e] == WriteCriterion(c)
    ensures m + |Pattern(c.operator)| <= |input| && input[i..m] == c.leftOp
    ensures HasPrefix(input[m..], Pattern(c.operator))
    ensures forall u :: i <= u < m ==> input[u] != OperandSeparator
  {
    var key, op, w := c.leftOp, c.operator, input[i..e];
    assert w == key + Pattern(op) + WriteOperand(c);
    assert input[i..m] == w[..|key|];
    forall k | 0 <= k < |Pattern(op)|
      ensures input[m + k] == Pattern(op)[k]
    {
      assert input[m + k] == w[|key| + k];
    }
    assert input[m..][..|Pattern(op)|] == Pattern(op);
    forall u | i <= u < m
      ensures input[u] != OperandSeparator
    {
      assert input[u] == w[u - i] == key[u - i];
    }
  }

  /**
   * A key from i to m, an operator pattern at m and an operand after it
   * that reads back: the loop gathers the criterion and resumes after the
   * operand's closing separator.
   */
  lemma ReadCriterionAt(input: string, kind: CriterionType, lit: Literals, i: nat, m: nat, acc: seq<Criterion>, c: Criterion, q: nat, e: nat)
    requires i < m && m + |Pattern(c.operator)| <= |input| && input[i..m] == c.leftOp
    requires forall u :: i <= u < m ==> input[u] != OperandSeparator
    requires HasPrefix(input[m..], Pattern(c.operator)) && c.operator in Operators && c.kind == kind
    requires RightOperandOf(AsWritten, input[m + |Pattern(c.operator)|..], c.leftOp, c.operator, kind) == Ok(RightOperand(c.rightOp, q))
    requires Validate(c, lit) == Passed
    requires e == m + |Pattern(c.operator)| + q
    ensures e <= |input|
    ensures ProcessFrom(input, kind, lit, Progress(i, i, "", None, acc)) ==
            ProcessFrom(input, kind, lit, Progress(e + 1, e + 1, "", None, acc + [c]))
  {
    var pending := Progress(m + 1, i, c.leftOp, Some(c.operator), acc);
    SkipKey(input, kind, lit, i, i, m, acc);
    RecogniseOperator(input, kind, lit, i, m, acc, c.leftOp, c.operator);
    AppendCriterion(input, kind, lit, i, m, acc, c, q, e);
    ContinueReads(input, kind, lit, pending, Progress(e + 1, e + 1, "", None, acc + [c]));
  }

  /** One written criterion, ending at e: the loop passes its key, reads it, and resumes after its separator. */
  lemma ReadCriterion(input: string, kind: CriterionType, lit: Literals, i: nat, acc: seq<Criterion>, c: Criterion, e: nat)
    requires Writable(c, kind) && Validate(c, lit) == Passed
    requires e == i + |WriteCriterion(c)| && e <= |input| && input[i..e] == WriteCriterion(c)
    requires e < |input| ==> Followable(c) && input[e] == Separator && (e + 1 < |input| ==> input[e + 1] != Separator)
    ensures ProcessFrom(input, kind, lit, Progress(i, i, "", None, acc)) ==
            ProcessFrom(input, kind, lit, Progress(e + 1, e + 1, "", None, acc + [c]))
  {
    var m := i + |c.leftOp|;
    KeyText(input, i, m, e, c);
    var s := input[m + |Pattern(c.operator)|..];
    OperandText(input, i, m, e, s, c);
    OperandReadsBack(s, c, kind);
    ReadCriterionAt(input, kind, lit, i, m, acc, c, |WriteOperand(c)|, e);
  }

  /** The parts from the k-th on, joined, end the joined text. */
  lemma {:induction false} JoinSuffix(ws: seq<string>, k: nat)
    requires k < |ws|
    ensures |Join(ws[k..], [Separator])| <= |Join(ws, [Separator])|
    ensures Join(ws, [Separator])[|Join(ws, [Separator])| - |Join(ws[k..], [Separator])|..] == Join(ws[k..], [Separator])
    decreases k
  {
    if k == 0 {
      assert ws[0..] == ws;
    } else {
      JoinSuffix(ws, k - 1);
      var w, s, t := Join(ws, [Separator]), Join(ws[k - 1..], [Separator]), Join(ws[k..], [Separator]);
      assert ws[k - 1..][1..] == ws[k..];
      assert s == ws[k - 1] + [Separator] + t;
      assert s[|s| - |t|..] == t;
      assert w[|w| - |t|..] == w[|w| - |s|..][|s| - |t|..];
    }
  }

  /** Where the k-th part starts in the joined text; one past its end for k = |ws|. */
  function StartAt(ws: seq<string>, k: nat): (r: nat)
    requires k <= |ws|
    ensures k < |ws| ==> r + |Join(ws[k..], [Separator])| == |Join(ws, [Separator])|
  {
    if k == |ws| then |Join(ws, [Separator])| + 1
    else
      JoinSuffix(ws, k);
      |Join(ws, [Separator])| - |Join(ws[k..], [Separator])|
  }

  /**
   * In the joined text the k-th part runs from p to e, followed by a single
   * separator and the next part, or by the end.
   */
  lemma PartInJoin(input: string, ws: seq<string>, k: nat, p: nat, e: nat)
    requires k < |ws| && input == Join(ws, [Separator])
    requires k + 1 < |ws| ==> |ws[k + 1]| > 0 && ws[k + 1][0] != Separator
    requires p == StartAt(ws, k) && e == p + |ws[k]|
    ensures e <= |input| && input[p..e] == ws[k]
    ensures e + 1 == StartAt(ws, k + 1)
    ensures e < |input| <==> k + 1 < |ws|
    ensures e < |input| ==> input[e] == Separator && e + 1 < |input| && input[e + 1] != Separator
  {
    JoinSuffix(ws, k);
    var s := Join(ws[k..], [Separator]);
    assert input[p..] == s;
    if k + 1 == |ws| {
      assert ws[k..] == [ws[k]];
      assert input[p..e] == input[p..];
    } else {
      var t := Join(ws[k + 1..], [Separator]);
      JoinSuffix(ws, k + 1);
      assert ws[k..][1..] == ws[k + 1..];
      assert s == ws[k] + [Separator] + t;
      assert input[p..e] == s[..|ws[k]|];
      assert input[e] == s[|ws[k]|];
      assert ws[k + 1..][0] == ws[k + 1];
      assert t == ws[k + 1] || t == ws[k + 1] + [Separator] + Join(ws[k + 2..], [Separator]) by {
        assert ws[k + 1..][1..] == ws[k + 2..];
      }
      assert input[e + 1] == s[|ws[k]| + 1] == t[0] == ws[k + 1][0];
    }
  }

  /** Every criterion of cs passes Validate. */
  predicate AllValid(cs: seq<Criterion>, lit: Literals) {
    forall k {:trigger Validate(cs[k], lit)} :: 0 <= k < |cs| ==> Validate(cs[k], lit) == Passed
  }

  /** Two loop states at the starts of segments lead to the same result. */
  predicate Leads(input: string, kind: CriterionType, lit: Literals, p: nat, acc: seq<Criterion>, q: nat, acc': seq<Criterion>) {
    && p <= |input| + 1 && q <= |input| + 1
    && ProcessFrom(input, kind, lit, Progress(p, p, "", None, acc)) == ProcessFrom(input, kind, lit, Progress(q, q, "", None, acc'))
  }

  /** The prefix of length k, extended by the k-th element, is the prefix of length k + 1. */
  lemma PrefixGrows(cs: seq<Criterion>, k: nat)
    requires k < |cs|
    ensures cs[..k] + [cs[k]] == cs[..k + 1]
  {
    assert forall j :: 0 <= j <= k ==> (cs[..k] + [cs[k]])[j] == cs[..k + 1][j];
  }

  /** The k-th criterion of a written query is read from its start to the next one's. */
  lemma ReadInQuery(input: string, cs: seq<Criterion>, ws: seq<string>, kind: CriterionType, lit: Literals, k: nat, p: nat, e: nat)
    requires k < |cs| && WritableQuery(cs, kind) && AllValid(cs, lit)
    requires ws == WriteEach(cs) && input == Join(ws, [Separator])
    requires p == StartAt(ws, k) && e == p + |ws[k]|
    ensures e + 1 == StartAt(ws, k + 1)
    ensures Leads(input, kind, lit, p, cs[..k], e + 1, cs[..k + 1])
  {
    var c := cs[k];
    PrefixGrows(cs, k);
    assert Writable(c, kind) && Validate(c, lit) == Passed;
    assert ws[k] == WriteCriterion(c);
    if k + 1 < |cs| {
      var d := cs[k + 1];
      assert Writable(d, kind) && Followable(c);
      assert ws[k + 1] == WriteCriterion(d);
      assert |ws[k + 1]| > 0 && ws[k + 1][0] == d.leftOp[0];
    }
    PartInJoin(input, ws, k, p, e);
    ReadCriterion(input, kind, lit, p, cs[..k], c, e);
  }

  /** Past the end of the text the loop stops with what it has read. */
  lemma ReadLast(input: string, kind: CriterionType, lit: Literals, cs: seq<Criterion>, e: nat)
    requires |cs| >= 1 && e == |input|
    ensures ProcessFrom(input, kind, lit, Progress(e + 1, e + 1, "", None, cs[..|cs|])) == Ok(cs)
  {
    assert cs[..|cs|] == cs;
  }

  /** Reading a written query from the start of its n-th criterion yields all of its criteria. */
  lemma {:induction false} ReadFrom(input: string, cs: seq<Criterion>, ws: seq<string>, kind: CriterionType, lit: Literals, n: nat, p: nat)
    requires n < |cs| && WritableQuery(cs, kind) && AllValid(cs, lit)
    requires ws == WriteEach(cs) && input == Join(ws, [Separator])
    requires p == StartAt(ws, n)
    ensures p <= |input| + 1
    ensures ProcessFrom(input, kind, lit, Progress(p, p, "", None, cs[..n])) == Ok(cs)
    decreases |cs| - n
  {
    var e := p + |ws[n]|;
    ReadInQuery(input, cs, ws, kind, lit, n, p, e);
    if n + 1 < |cs| {
      ReadFrom(input, cs, ws, kind, lit, n + 1, e + 1);
    } else {
      ReadLast(input, kind, lit, cs, e);
    }
  }

  /** A query written from criteria that can be written and that Validate accepts parses back to exactly those criteria. */
  lemma ParseWritten(cs: seq<Criterion>, kind: CriterionType, lit: Literals)
    requires |cs| >= 1 && WritableQuery(cs, kind) && AllValid(cs, lit)
    ensures Parse(WriteQuery(cs), kind, lit) == Ok(cs)
  {
    var ws := WriteEach(cs);
    var input := Join(ws, [Separator]);
    JoinSuffix(ws, 0);
    ReadFrom(input, cs, ws, kind, lit, 0, StartAt(ws, 0));
    assert ws[0..] == ws && cs[..0] == [];
    assert |input| > 0 by {
      assert Writable(cs[0], kind);
      assert |ws[0]| > 0;
    }
  }
}
