// The portable query model the compiler accepts (conditions and find parameters of the
// soaprs repository contract) and its two-valued meaning over logical records.

module Conditions {
  import opened Results
  import opened Mapping
  import opened Values

  datatype Operator = Eq | Ne | Gt | Gte | Lt | Lte | Like | In | NotIn | IsNull | IsNotNull

  datatype LogicalOperator = And | Or

  datatype Condition =
    | Group(operator: LogicalOperator, conditions: seq<Condition>)
    | Predicate(field: FieldName, op: Operator, value: Option<ScalarValue>)

  datatype SortDirection = Ascending | Descending

  datatype Sort = Sort(field: FieldName, direction: SortDirection)

  datatype FindParams = FindParams(
    condition: Option<Condition>,
    sort: seq<Sort>,
    limit: Option<nat>,
    offset: nat)

  /** The operators that need an operand carry one of the right shape. */
  predicate OperandPresent(op: Operator, value: Option<ScalarValue>) {
    match op
    case IsNull => true
    case IsNotNull => true
    case In => value.Some? && value.value.List?
    case NotIn => value.Some? && value.value.List?
    case _ => value.Some?
  }

  /** `Condition::validate`, as far as the compiler relies on it. */
  predicate ValidCondition(c: Condition) {
    match c
    case Group(_, cs) => cs != [] && forall i | 0 <= i < |cs| :: ValidCondition(cs[i])
    case Predicate(_, op, value) => OperandPresent(op, value)
  }

  /** `d` is `c` or stands somewhere inside it. */
  ghost predicate Within(d: Condition, c: Condition)
    decreases c
  {
    d == c || (c.Group? && exists i | 0 <= i < |c.conditions| :: Within(d, c.conditions[i]))
  }

  /** A group needs a child, a set operator a list, and every other operator but the null tests an operand. */
  ghost predicate WellFormed(d: Condition) {
    match d
    case Group(_, cs) => cs != []
    case Predicate(_, op, value) =>
      if op.IsNull? || op.IsNotNull? then true
      else value.Some? && (op.In? || op.NotIn? ==> value.value.List?)
  }

  /** A condition is valid exactly when everything inside it is well formed by itself. */
  lemma {:induction false} ValidExactlyWhen(c: Condition)
    ensures ValidCondition(c) <==> forall d | Within(d, c) :: WellFormed(d)
  {
    assert Within(c, c);
    if c.Group? {
      forall i | 0 <= i < |c.conditions|
        ensures ValidCondition(c.conditions[i]) <==> forall d | Within(d, c.conditions[i]) :: WellFormed(d)
        ensures forall d | Within(d, c.conditions[i]) :: Within(d, c)
      {
        ValidExactlyWhen(c.conditions[i]);
      }
    }
  }

  predicate ValidParams(params: FindParams) {
    params.condition.Some? ==> ValidCondition(params.condition.value)
  }

  predicate SortMapped(fields: FieldMap, sort: seq<Sort>) {
    forall i | 0 <= i < |sort| :: sort[i].field in fields
  }

  /** The operand belongs to the scalar family of the column. */
  predicate Fits(kind: PgScalarKind, value: ScalarValue) {
    match value
    case Null => false
    case List(_) => false
    case Bool(_) => kind.Bool?
    case I64(_) => kind.Numeric?
    case U64(_) => kind.Numeric?
    case F64(f) => kind.Numeric? && f.Finite?
    case String(_) => kind.Text? || NativeKind(kind)
    case Bytes(_) => kind.Bytes?
  }

  // ----- Two-valued meaning -----

  /** A logical record: what the application sees in each mapped field. */
  type Record = map<FieldName, Value>

  /** The value an operand denotes: integers are themselves, never their text. */
  function OperandValue(server: Server, kind: PgScalarKind, value: ScalarValue): Value {
    match value
    case Null => VNull
    case List(_) => VNull
    case Bool(b) => VBool(b)
    case I64(i) => VNumeric(i as real)
    case U64(u) => VNumeric(u as real)
    case F64(f) => if f.Finite? then VNumeric(NumericOf(server, f.text)) else VNull
    case String(s) => if NativeKind(kind) then VNative(kind, server.cast(kind, s)) else VText(s)
    case Bytes(bytes) => VBytes(bytes)
  }

  /** Portable LIKE: `%` stands for any text, `_` for one character, nothing escapes. */
  ghost predicate LikeHolds(text: string, pattern: string)
    decreases |pattern|
  {
    if pattern == "" then text == ""
    else if pattern[0] == '%' then exists k | 0 <= k <= |text| :: LikeHolds(text[k..], pattern[1..])
    else text != "" && (pattern[0] == '_' || pattern[0] == text[0]) && LikeHolds(text[1..], pattern[1..])
  }

  /** The comparison and LIKE operators on a non-null field. */
  ghost predicate CompareHolds(op: Operator, v: Value, w: Value) {
    if op.Eq? then v == w
    else if op.Ne? then v != w
    else if op.Gt? then ValueLess(w, v)
    else if op.Gte? then ValueLess(w, v) || v == w
    else if op.Lt? then ValueLess(v, w)
    else if op.Lte? then ValueLess(v, w) || v == w
    else op.Like? && v.VText? && w.VText? && LikeHolds(v.s, w.s)
  }

  /** A null field satisfies nothing but `IsNull`. */
  ghost predicate PredicateHolds(
    server: Server, kind: PgScalarKind, op: Operator, value: Option<ScalarValue>, v: Value)
    requires OperandPresent(op, value)
  {
    match op
    case IsNull => v.VNull?
    case IsNotNull => !v.VNull?
    case In => !v.VNull? && exists x | x in value.value.values :: v == OperandValue(server, kind, x)
    case NotIn => !v.VNull? && forall x | x in value.value.values :: v != OperandValue(server, kind, x)
    case _ => !v.VNull? && CompareHolds(op, v, OperandValue(server, kind, value.value))
  }

  ghost predicate Holds(server: Server, fields: FieldMap, c: Condition, record: Record)
    requires ValidCondition(c)
  {
    match c
    case Group(And, cs) => forall i | 0 <= i < |cs| :: Holds(server, fields, cs[i], record)
    case Group(Or, cs) => exists i | 0 <= i < |cs| :: Holds(server, fields, cs[i], record)
    case Predicate(f, op, value) =>
      && f in fields && f in record
      && PredicateHolds(server, fields[f].kind, op, value, record[f])
  }
}
