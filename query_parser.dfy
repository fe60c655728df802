/**
 * The hand-written parser of the query package (process and findRightOp in
 * pkg/query/selection.go): a query string such as
 * `name = foo|tags in [a||b]` becomes a list of criteria.
 *
 * Each loop of the source is a method proved equal to a specification
 * function that follows the loop iteration by iteration (ScanFrom,
 * ProcessFrom); the lemmas state what those functions guarantee.
 */
module QueryParser {
  import opened Text
  import opened QueryCriteria

  /** The separator between segments, and (doubled) between list elements. */
  const Separator: char := '|'
  const Escape: char := '\\'
  const OpenBracket: char := '['
  const CloseBracket: char := ']'
  const OperandSeparator: char := ' '

  // ---------------------------------------------------------------------
  // findRightOp
  // ---------------------------------------------------------------------

  /** The state findRightOp's loop leaves with: elements, open buffer, offset. */
  datatype Scanned = Scanned(elements: seq<string>, buffer: string, offset: nat)

  /** The right operand found and how far into the remaining text it reaches. */
  datatype RightOperand = RightOperand(values: seq<string>, offset: nat)

  /**
   * An unescaped single separator, the one place where the scan stops: it is
   * not the first character, the character before it is neither a backslash
   * nor a separator, and no separator follows it.
   */
  predicate StopsAt(s: string, q: int) {
    && 0 < q < |s|
    && s[q] == Separator
    && s[q - 1] != Escape
    && s[q - 1] != Separator
    && !(q + 1 < |s| && s[q + 1] == Separator)
  }

  /**
   * The buffer ends with the character before p whenever that character is
   * not a separator: every such character is appended as it is read.
   */
  predicate Trails(s: string, p: nat, buffer: string)
    requires p <= |s|
  {
    p > 0 && s[p - 1] != Separator ==> |buffer| > 0 && buffer[|buffer| - 1] == s[p - 1]
  }

  /** An escaped separator: a separator right after a backslash. */
  predicate EscapedAt(s: string, q: int) {
    0 < q < |s| && s[q] == Separator && s[q - 1] == Escape
  }

  /** What one iteration of findRightOp's loop does with the character at p. */
  datatype ScanStep =
    | Advance(elements: seq<string>, buffer: string)  // go on with the next character
    | Halt(elements: seq<string>)                     // an unescaped separator ends the value
    | Fault                                           // an index or a slice out of range

  /**
   * How an escaped separator enters the buffer. The source keeps the first
   * offset-1 characters of the buffer and appends the separator, offset
   * counting the characters of the whole remaining text: this drops the
   * backslash only while every character read so far sits in the buffer.
   * Intended drops the buffer's last character, the backslash, always; the
   * parser reads AsWritten, and Intended is the reference the properties
   * compare it with.
   */
  datatype Escaping = AsWritten | Intended

  /** One iteration of findRightOp's loop at offset p. */
  function Step(mode: Escaping, s: string, p: nat, elements: seq<string>, buffer: string): (r: ScanStep)
    requires p < |s| && Trails(s, p, buffer)
    ensures r.Advance? ==> Trails(s, p + 1, r.buffer)
  {
    if s[p] != Separator then Advance(elements, buffer + [s[p]])
    else if p == 0 then Fault  // remaining[offset-1]
    else if p + 1 < |s| && s[p + 1] == Separator && s[p - 1] != Escape then Advance(elements + [buffer], "")
    else if s[p - 1] == Separator then Advance(elements, buffer)
    else if s[p - 1] != Escape then Halt(elements + [buffer])
    else if mode == Intended then Advance(elements, buffer[..|buffer| - 1] + [s[p]])
    else if p - 1 <= |buffer| then Advance(elements, buffer[..p - 1] + [s[p]])
    else Fault  // rightOpBuffer.String()[:offset-1] past the end of the buffer
  }

  /**
   * findRightOp's loop from offset p on, with the elements and the buffer
   * gathered so far.
   */
  function ScanFrom(mode: Escaping, s: string, p: nat, elements: seq<string>, buffer: string): (r: Outcome<Scanned>)
    requires p <= |s| && Trails(s, p, buffer)
    ensures r.Ok? ==> p <= r.value.offset <= |s|
    decreases |s| - p
  {
    if p == |s| then Ok(Scanned(elements, buffer, p))
    else match Step(mode, s, p, elements, buffer)
      case Advance(elements', buffer') => ScanFrom(mode, s, p + 1, elements', buffer')
      case Halt(elements') => Ok(Scanned(elements', "", p))
      case Fault => Panic
  }

  function Scan(mode: Escaping, s: string): Outcome<Scanned> {
    ScanFrom(mode, s, 0, [], "")
  }

  /** The elements after the loop: the buffer is kept when it is not empty. */
  function Collected(sc: Scanned): seq<string> {
    if |sc.buffer| > 0 then sc.elements + [sc.buffer] else sc.elements
  }

  /** The bracket check of a multivariate operand: strip `[` from the first element and `]` from the last. */
  function Bracketed(values: seq<string>, leftOp: string, operator: Operator, kind: CriterionType): Outcome<seq<string>> {
    if |values| > 0 && IsMultiVariate(operator) then
      var first := values[0];
      if !(|first| > 0 && first[0] == OpenBracket) then Err(MissingBrackets(operator, kind, leftOp))
      else
        var stripped := values[0 := first[1..]];
        var last := stripped[|stripped| - 1];
        if |last| == 0 then Panic  // lastElement[len(lastElement)-1]
        else if last[|last| - 1] != CloseBracket then Err(MissingBrackets(operator, kind, leftOp))
        else Ok(stripped[|stripped| - 1 := last[..|last| - 1]])
    else Ok(values)
  }

  /** What findRightOp returns for the text after the operator. */
  function RightOperandOf(mode: Escaping, remaining: string, leftOp: string, operator: Operator, kind: CriterionType): (r: Outcome<RightOperand>)
    ensures r.Ok? ==> |r.value.values| >= 1 && r.value.offset <= |remaining|
  {
    match Scan(mode, remaining)
    case Err(e) => Err(e)
    case Panic => Panic
    case Ok(sc) =>
      match Bracketed(Collected(sc), leftOp, operator, kind)
      case Err(e) => Err(e)
      case Panic => Panic
      case Ok(values) => Ok(RightOperand(if |values| == 0 then [""] else values, sc.offset))
  }

  /** The body of findRightOp's loop: what to do with the character at offset. */
  method ScanChar(remaining: string, offset: nat, rightOp: seq<string>, buffer: string) returns (step: ScanStep)
    requires offset < |remaining| && Trails(remaining, offset, buffer)
    ensures step == Step(AsWritten, remaining, offset, rightOp, buffer)
  {
    var ch := remaining[offset];
    if ch == Separator {
      if offset == 0 {
        return Fault;
      }
      if offset + 1 < |remaining| && remaining[offset + 1] == Separator && remaining[offset - 1] != Escape {
        return Advance(rightOp + [buffer], "");
      } else if remaining[offset - 1] == Separator {
        return Advance(rightOp, buffer);
      } else if remaining[offset - 1] != Escape {
        // the separator is not escaped: the value ends here
        return Halt(rightOp + [buffer]);
      } else if offset - 1 <= |buffer| {
        // keep the first offset-1 characters of the buffer
        return Advance(rightOp, buffer[..offset - 1] + [ch]);
      } else {
        return Fault;
      }
    }
    return Advance(rightOp, buffer + [ch]);
  }

  /** The bracket check at the end of findRightOp. */
  method StripBrackets(values: seq<string>, leftOp: string, operator: Operator, kind: CriterionType)
    returns (r: Outcome<seq<string>>)
    ensures r == Bracketed(values, leftOp, operator, kind)
  {
    var rightOp := values;
    if |rightOp| > 0 && IsMultiVariate(operator) {
      var firstElement := rightOp[0];
      if |firstElement| > 0 && firstElement[0] == OpenBracket {
        rightOp := rightOp[0 := firstElement[1..]];
      } else {
        return Err(MissingBrackets(operator, kind, leftOp));
      }
      var lastElement := rightOp[|rightOp| - 1];
      if |lastElement| == 0 {
        return Panic;  // lastElement[len(lastElement)-1]
      }
      if lastElement[|lastElement| - 1] == CloseBracket {
        rightOp := rightOp[|rightOp| - 1 := lastElement[..|lastElement| - 1]];
      } else {
        return Err(MissingBrackets(operator, kind, leftOp));
      }
    }
    return Ok(rightOp);
  }

  /** findRightOp */
  method FindRightOp(remaining: string, leftOp: string, operator: Operator, kind: CriterionType)
    returns (r: Outcome<RightOperand>)
    ensures r == RightOperandOf(AsWritten, remaining, leftOp, operator, kind)
  {
    var rightOp: seq<string> := [];
    var buffer: string := "";
    var offset: nat := 0;
    while offset < |remaining|
      invariant offset <= |remaining| && Trails(remaining, offset, buffer)
      invariant ScanFrom(AsWritten, remaining, offset, rightOp, buffer) == Scan(AsWritten, remaining)
    {
      var step := ScanChar(remaining, offset, rightOp, buffer);
      if step.Fault? {
        return Panic;
      }
      if step.Halt? {
        rightOp, buffer := step.elements, "";
        break;
      }
      rightOp, buffer := step.elements, step.buffer;
      offset := offset + 1;
    }
    ghost var scanned := Scanned(rightOp, buffer, offset);
    assert Scan(AsWritten, remaining) == Ok(scanned);
    if |buffer| > 0 {
      rightOp := rightOp + [buffer];
    }
    assert rightOp == Collected(scanned);
    var bracketed := StripBrackets(rightOp, leftOp, operator, kind);
    if bracketed.Err? {
      return Err(bracketed.error);
    }
    if bracketed.Panic? {
      return Panic;
    }
    rightOp := bracketed.value;
    if |rightOp| == 0 {
      rightOp := [""];
    }
    return Ok(RightOperand(rightOp, offset));
  }

  // ---------------------------------------------------------------------
  // process
  // ---------------------------------------------------------------------

  /** " <token> ": how an operator appears between its operands. */
  function Pattern(op: Operator): string {
    [OperandSeparator] + Token(op) + [OperandSeparator]
  }

  /** The first operator of `Operators`, from index k on, whose pattern starts rest. */
  function MatchFrom(rest: string, k: nat): (r: Option<Operator>)
    requires k <= |Operators|
    ensures r.Some? ==> HasPrefix(rest, Pattern(r.value))
    decreases |Operators| - k
  {
    if k == |Operators| then None
    else if HasPrefix(rest, Pattern(Operators[k])) then Some(Operators[k])
    else MatchFrom(rest, k + 1)
  }

  function MatchOperator(rest: string): Option<Operator> {
    MatchFrom(rest, 0)
  }

  /** The inner loop of process over the known operators. */
  method MatchOperatorAt(rest: string) returns (r: Option<Operator>)
    ensures r == MatchOperator(rest)
  {
    var k := 0;
    ghost var expected := MatchFrom(rest, k);
    while k < |Operators|
      invariant k <= |Operators|
      invariant MatchFrom(rest, k) == expected
    {
      if HasPrefix(rest, Pattern(Operators[k])) {
        return Some(Operators[k]);
      }
      k := k + 1;
    }
    return None;
  }

  /** A left operand and an operator are both known: the next step reads the right operand. */
  predicate Pending(leftOp: string, operator: Option<Operator>) {
    leftOp != "" && operator.Some?
  }

  /**
   * The variables of process's loop: the index i, the start j of the
   * current segment, the pending left operand and operator, and the
   * criteria gathered so far.
   */
  datatype Progress = Progress(i: nat, j: nat, leftOp: string, operator: Option<Operator>, c: seq<Criterion>)

  /** What holds of the loop variables at the head of every iteration. */
  predicate InRange(input: string, st: Progress) {
    && st.j <= st.i <= |input| + 1
    && (Pending(st.leftOp, st.operator) ==> st.i + |Token(st.operator.value)| + 1 <= |input|)
  }

  /** An iteration with a pending pair: read the right operand, validate, and skip past it. */
  function ReadOperand(input: string, kind: CriterionType, lit: Literals, st: Progress): (r: Outcome<Progress>)
    requires InRange(input, st) && st.i < |input| && Pending(st.leftOp, st.operator)
    ensures r.Ok? ==> InRange(input, r.value) && r.value.i > st.i
    ensures r.Ok? ==> r.value.leftOp == "" && r.value.operator == None
  {
    var op := st.operator.value;
    match RightOperandOf(AsWritten, input[st.i + |Token(op)| + 1..], st.leftOp, op, kind)
    case Err(e) => Err(e)
    case Panic => Panic
    case Ok(found) =>
      var criterion := Criterion(st.leftOp, op, found.values, kind);
      match Validate(criterion, lit)
      case Failed(e) => Err(e)
      case Panicked => Panic
      case Passed =>
        var next := st.i + found.offset + |Token(op)| + 1;
        Ok(Progress(next + 1, next + 1, "", None, st.c + [criterion]))
  }

  /** An iteration without a pending pair: look for an operator at index i. */
  function SeekOperator(input: string, st: Progress): (r: Progress)
    requires InRange(input, st) && st.i < |input| && !Pending(st.leftOp, st.operator)
    ensures InRange(input, r) && r.i == st.i + 1 && r.j == st.j && r.c == st.c
  {
    match MatchOperator(input[st.i..])
    case Some(op) => Progress(st.i + 1, st.j, input[st.j..st.i], Some(op), st.c)
    case None => st.(i := st.i + 1)
  }

  /** process's loop from the loop variables st on. */
  function ProcessFrom(input: string, kind: CriterionType, lit: Literals, st: Progress): Outcome<seq<Criterion>>
    requires InRange(input, st)
    decreases |input| + 1 - st.i, 1
  {
    if st.i >= |input| then
      if |st.c| == 0 then Err(NotValidQuery(input, kind)) else Ok(st.c)
    else if Pending(st.leftOp, st.operator) then
      ContinueAfterOperand(input, kind, lit, st)
    else
      ProcessFrom(input, kind, lit, SeekOperator(input, st))
  }

  /** process's loop from an iteration that reads a right operand on. */
  function ContinueAfterOperand(input: string, kind: CriterionType, lit: Literals, st: Progress): Outcome<seq<Criterion>>
    requires InRange(input, st) && st.i < |input| && Pending(st.leftOp, st.operator)
    decreases |input| + 1 - st.i, 0
  {
    match ReadOperand(input, kind, lit, st)
    case Err(e) => Err(e)
    case Panic => Panic
    case Ok(next) => ProcessFrom(input, kind, lit, next)
  }

  /** What process returns for one query string of one criterion type. */
  function Parse(input: string, kind: CriterionType, lit: Literals): Outcome<seq<Criterion>> {
    if input == "" then Ok([]) else ProcessFrom(input, kind, lit, Progress(0, 0, "", None, []))
  }

  /**
   * The first branch of process's loop body: read the right operand after
   * the pending operator, validate the criterion, and move i past the
   * operand (including the loop's own increment).
   */
  method ReadOperandAt(input: string, kind: CriterionType, lit: Literals, st: Progress) returns (r: Outcome<Progress>)
    requires InRange(input, st) && st.i < |input| && Pending(st.leftOp, st.operator)
    ensures r == ReadOperand(input, kind, lit, st)
  {
    var op := st.operator.value;
    var remaining := input[st.i + |Token(op)| + 1..];
    var found := FindRightOp(remaining, st.leftOp, op, kind);
    assert st.operator == Some(op);
    if found.Err? {
      return Err(found.error);
    }
    if found.Panic? {
      return Panic;
    }
    var criterion := Criterion(st.leftOp, op, found.value.values, kind);
    var status := Validate(criterion, lit);
    if status.Failed? {
      return Err(status.error);
    }
    if status.Panicked? {
      return Panic;
    }
    var i := st.i + found.value.offset + |Token(op)| + 1;
    return Ok(Progress(i + 1, i + 1, "", None, st.c + [criterion]));
  }

  /** process */
  method Process(input: string, kind: CriterionType, lit: Literals) returns (r: Outcome<seq<Criterion>>)
    ensures r == Parse(input, kind, lit)
  {
    var c: seq<Criterion> := [];
    if input == "" {
      return Ok(c);
    }
    var leftOp: string := "";
    var operator: Option<Operator> := None;
    var j: nat := 0;
    var i: nat := 0;
    ghost var expected := ProcessFrom(input, kind, lit, Progress(i, j, leftOp, operator, c));
    while i < |input|
      invariant InRange(input, Progress(i, j, leftOp, operator, c))
      invariant ProcessFrom(input, kind, lit, Progress(i, j, leftOp, operator, c)) == expected
    {
      if leftOp != "" && operator.Some? {
        var st := Progress(i, j, leftOp, operator, c);
        var next := ReadOperandAt(input, kind, lit, st);
        assert ProcessFrom(input, kind, lit, st) == ContinueAfterOperand(input, kind, lit, st);
        if next.Err? {
          return Err(next.error);
        }
        if next.Panic? {
          return Panic;
        }
        i, j, leftOp, operator, c := next.value.i, next.value.j, "", None, next.value.c;
        assert Progress(i, j, leftOp, operator, c) == next.value;
      } else {
        ghost var st := Progress(i, j, leftOp, operator, c);
        var matched := MatchOperatorAt(input[i..]);
        if matched.Some? {
          leftOp := input[j..i];
          operator := matched;
        }
        i := i + 1;
        assert SeekOperator(input, st) == Progress(i, j, leftOp, operator, c);
      }
    }
    if |c| == 0 {
      return Err(NotValidQuery(input, kind));
    }
    return Ok(c);
  }
}
