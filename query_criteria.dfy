/**
 * The criteria data model of the query package (pkg/query/selection.go):
 * operators and their metadata, criterion types, the builders, and the
 * per-criterion structural check `Validate`.
 *
 * A Go runtime panic (an index or slice out of range) is not an error value
 * the caller can inspect; the model keeps it apart from errors as the
 * `Panic` / `Panicked` outcome so that every operation is total and exact.
 */
module QueryCriteria {
  import opened Text
  import opened Strconv

  datatype Operator =
    | Equals | NotEquals
    | GreaterThan | GreaterThanOrEqual | LessThan | LessThanOrEqual
    | In | NotIn
    | EqualsOrNil
    | NoOp

  /** The operator's spelling; Go's Operator is this string. */
  function Token(op: Operator): string {
    match op
    case Equals => "="
    case NotEquals => "!="
    case GreaterThan => "gt"
    case GreaterThanOrEqual => "gte"
    case LessThan => "lt"
    case LessThanOrEqual => "lte"
    case In => "in"
    case NotIn => "notin"
    case EqualsOrNil => "eqornil"
    case NoOp => "nop"
  }

  /** The operators the parser recognises, in the order it tries them. */
  const Operators: seq<Operator> :=
    [Equals, NotEquals, In, NotIn, GreaterThan, GreaterThanOrEqual, LessThan, LessThanOrEqual, EqualsOrNil]

  /** Operator.IsMultiVariate: the list operators. */
  predicate IsMultiVariate(op: Operator) {
    op == In || op == NotIn
  }

  /** Operator.IsNullable */
  predicate IsNullable(op: Operator) {
    op == EqualsOrNil
  }

  /** Operator.IsNumeric: the four orderings. */
  predicate IsNumeric(op: Operator) {
    op == GreaterThan || op == GreaterThanOrEqual || op == LessThan || op == LessThanOrEqual
  }

  /**
   * The source decides the three properties by comparing an operator's
   * spelling with fixed spellings; on operators that is the same as
   * comparing the operators themselves.
   */
  lemma OperatorKindsBySpelling(op: Operator)
    ensures IsMultiVariate(op) <==> Token(op) == "in" || Token(op) == "notin"
    ensures IsNullable(op) <==> Token(op) == "eqornil"
    ensures IsNumeric(op) <==> Token(op) in {"lt", "gt", "lte", "gte"}
  {
  }

  /** No two operators share a spelling. */
  lemma TokenInjective(a: Operator, b: Operator)
    ensures Token(a) == Token(b) ==> a == b
  {
  }

  datatype CriterionType = FieldQuery | LabelQuery | ResultQuery {
    /** the query parameter name of the type */
    function Name(): string {
      match this
      case FieldQuery => "fieldQuery"
      case LabelQuery => "labelQuery"
      case ResultQuery => "resultQuery"
    }
  }

  /** The query types a request may carry, in the order they are read. */
  const SupportedQueryTypes: seq<CriterionType> := [FieldQuery, LabelQuery]

  const OrderBy: string := "orderBy"
  const Limit: string := "limit"

  datatype OrderType = Asc | Desc {
    function Name(): string {
      match this
      case Asc => "asc"
      case Desc => "desc"
    }
  }

  datatype Criterion = Criterion(leftOp: string, operator: Operator, rightOp: seq<string>, kind: CriterionType)

  /** The errors the query package returns, one constructor per return site. */
  datatype QueryError =
    | LimitNotInteger(operand: string)
    | LimitNotPositive(limit: int)
    | OrderByMissingField
    | OrderByMissingDirection(field: string)
    | MultipleValuesForSingleValueOperator(values: seq<string>, operator: Operator)
    | NullableOnlyForFieldQueries
    | NotNumericOrDateTime(operator: Operator, operand: string)
    | SeparatorInKey(kind: CriterionType, key: string, possibleKey: string)
    | NewlineInValue(kind: CriterionType, key: string, value: string)
    | DuplicateLabelKey(key: string)
    | DuplicateFieldKey(key: string)
    | NotValidQuery(input: string, kind: CriterionType)
    | MissingBrackets(operator: Operator, kind: CriterionType, key: string)

  /** A computed value, a returned error, or a runtime panic. */
  datatype Outcome<+T> = Ok(value: T) | Err(error: QueryError) | Panic

  /** What an error-only check returns: nil, an error, or a runtime panic. */
  datatype Status = Passed | Failed(error: QueryError) | Panicked

  /**
   * The two library parsers Validate consults and that are not modelled:
   * strconv.ParseFloat(s, 64) succeeding, and time.Parse(time.RFC3339, s)
   * succeeding.
   */
  datatype Literals = Literals(parsesAsFloat: string -> bool, parsesAsDateTime: string -> bool)

  /** isNumeric: Atoi succeeds, or else ParseFloat does */
  predicate IsNumericLiteral(s: string, lit: Literals) {
    Atoi(s).Some? || lit.parsesAsFloat(s)
  }

  /** ByField */
  function ByField(operator: Operator, leftOp: string, rightOp: seq<string>): Criterion {
    Criterion(leftOp, operator, rightOp, FieldQuery)
  }

  /** ByLabel */
  function ByLabel(operator: Operator, leftOp: string, rightOp: seq<string>): Criterion {
    Criterion(leftOp, operator, rightOp, LabelQuery)
  }

  /** OrderResultBy */
  function OrderResultBy(field: string, orderType: OrderType): Criterion {
    Criterion(OrderBy, NoOp, [field, orderType.Name()], ResultQuery)
  }

  /** LimitResultBy */
  function LimitResultBy(limit: Int64): Criterion {
    Criterion(Limit, NoOp, [Itoa(limit)], ResultQuery)
  }

  /** The first operand that contains a newline, if any. */
  function FirstWithNewline(values: seq<string>): (r: Option<string>)
    ensures r.None? <==> forall k :: 0 <= k < |values| ==> '\n' !in values[k]
    ensures r.Some? ==> r.value in values && '\n' in r.value
    decreases |values|
  {
    if |values| == 0 then None
    else if '\n' in values[0] then Some(values[0])
    else FirstWithNewline(values[1..])
  }

  /** Criterion.Validate, check by check in the source's order. */
  function Validate(c: Criterion, lit: Literals): Status {
    if c.kind == ResultQuery then
      if c.leftOp == Limit && |c.rightOp| == 0 then Panicked
      else if c.leftOp == Limit && Atoi(c.rightOp[0]).None? then Failed(LimitNotInteger(c.rightOp[0]))
      else if c.leftOp == Limit && Atoi(c.rightOp[0]).value < 1 then Failed(LimitNotPositive(Atoi(c.rightOp[0]).value))
      else if c.leftOp == OrderBy && |c.rightOp| < 1 then Failed(OrderByMissingField)
      else if c.leftOp == OrderBy && |c.rightOp| < 2 then Failed(OrderByMissingDirection(c.rightOp[0]))
      else Passed
    else if |c.rightOp| > 1 && !IsMultiVariate(c.operator) then
      Failed(MultipleValuesForSingleValueOperator(c.rightOp, c.operator))
    else if IsNullable(c.operator) && c.kind != FieldQuery then
      Failed(NullableOnlyForFieldQueries)
    else if IsNumeric(c.operator) && |c.rightOp| == 0 then
      Panicked
    else if IsNumeric(c.operator) && !IsNumericLiteral(c.rightOp[0], lit) && !lit.parsesAsDateTime(c.rightOp[0]) then
      Failed(NotNumericOrDateTime(c.operator, c.rightOp[0]))
    else if '|' in c.leftOp then
      var parts := Fields(c.leftOp, '|');
      if |parts| == 0 then Panicked
      else Failed(SeparatorInKey(c.kind, c.leftOp, parts[|parts| - 1]))
    else if FirstWithNewline(c.rightOp).Some? then
      Failed(NewlineInValue(c.kind, c.leftOp, FirstWithNewline(c.rightOp).value))
    else Passed
  }

  /** The shape a field or label criterion must have (the data model's invariants). */
  predicate WellFormedPredicate(c: Criterion, lit: Literals) {
    && (|c.rightOp| <= 1 || IsMultiVariate(c.operator))
    && (IsNullable(c.operator) ==> c.kind == FieldQuery)
    && (IsNumeric(c.operator) ==>
          |c.rightOp| > 0 && (IsNumericLiteral(c.rightOp[0], lit) || lit.parsesAsDateTime(c.rightOp[0])))
    && '|' !in c.leftOp
    && forall k :: 0 <= k < |c.rightOp| ==> '\n' !in c.rightOp[k]
  }

  /**
   * For a field or label criterion, Validate passes exactly on well-formed
   * ones, and panics exactly when a numeric operator has no operand or when
   * an otherwise acceptable key is made of separators only.
   */
  lemma ValidatePredicate(c: Criterion, lit: Literals)
    requires c.kind != ResultQuery
    ensures Validate(c, lit) == Passed <==> WellFormedPredicate(c, lit)
    ensures Validate(c, lit) == Panicked <==>
      && (|c.rightOp| <= 1 || IsMultiVariate(c.operator))
      && (IsNullable(c.operator) ==> c.kind == FieldQuery)
      && ((IsNumeric(c.operator) && |c.rightOp| == 0)
          || ((IsNumeric(c.operator) ==> IsNumericLiteral(c.rightOp[0], lit) || lit.parsesAsDateTime(c.rightOp[0]))
              && |c.leftOp| > 0 && forall k :: 0 <= k < |c.leftOp| ==> c.leftOp[k] == '|'))
  {
    FieldsEmpty(c.leftOp, '|');
    if |c.leftOp| > 0 && forall k :: 0 <= k < |c.leftOp| ==> c.leftOp[k] == '|' {
      assert c.leftOp[0] in c.leftOp;
    }
  }

  /**
   * A result criterion is checked for two things only: a limit that is not
   * a Go int or is below 1, and an order with fewer than two operands.
   */
  lemma ValidateResult(c: Criterion, lit: Literals)
    requires c.kind == ResultQuery
    ensures Validate(c, lit) == Panicked <==> c.leftOp == Limit && |c.rightOp| == 0
    ensures Validate(c, lit).Failed? <==>
      || (c.leftOp == Limit && |c.rightOp| > 0 && (Atoi(c.rightOp[0]).None? || Atoi(c.rightOp[0]).value < 1))
      || (c.leftOp == OrderBy && |c.rightOp| < 2)
  {
  }

  /** Every order criterion the builder makes is valid. */
  lemma ValidateOrderResultBy(field: string, orderType: OrderType, lit: Literals)
    ensures Validate(OrderResultBy(field, orderType), lit) == Passed
  {
  }

  /** A limit criterion from the builder is valid exactly when the limit is positive. */
  lemma ValidateLimitResultBy(limit: Int64, lit: Literals)
    ensures Validate(LimitResultBy(limit), lit) ==
      if limit >= 1 then Passed else Failed(LimitNotPositive(limit))
  {
    AtoiItoa(limit);
  }

  /** A plain equality criterion built for a field or a label is valid when its key and value are clean. */
  lemma ValidateByFieldOrLabel(leftOp: string, value: string, lit: Literals)
    requires '|' !in leftOp && '\n' !in value
    ensures Validate(ByField(Equals, leftOp, [value]), lit) == Passed
    ensures Validate(ByLabel(Equals, leftOp, [value]), lit) == Passed
  {
    ValidatePredicate(ByField(Equals, leftOp, [value]), lit);
    ValidatePredicate(ByLabel(Equals, leftOp, [value]), lit);
  }

  /** eqornil is refused on labels and accepted on fields. */
  lemma NullableOnlyOnFields(leftOp: string, value: string, lit: Literals)
    requires '|' !in leftOp && '\n' !in value
    ensures Validate(ByLabel(EqualsOrNil, leftOp, [value]), lit) == Failed(NullableOnlyForFieldQueries)
    ensures Validate(ByField(EqualsOrNil, leftOp, [value]), lit) == Passed
  {
    ValidatePredicate(ByField(EqualsOrNil, leftOp, [value]), lit);
  }
}
