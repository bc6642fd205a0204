// What a compiled condition is meant to say: the tokens it is written with and the SQL
// expression they stand for, numbered from the bindings already pushed.

module Intended {
  import opened Results
  import opened Mapping
  import opened Values
  import opened Conditions
  import opened Compiler
  import opened SqlLexer
  import opened SqlGrammar

  // ----- Placeholders taken -----

  function PredicateSlots(op: Operator, value: Option<ScalarValue>): nat
    requires OperandPresent(op, value)
  {
    if op.IsNull? || op.IsNotNull? then 0
    else if op.In? || op.NotIn? then |value.value.values|
    else 1
  }

  /** How many placeholders a condition takes. */
  function Slots(c: Condition): nat
    requires ValidCondition(c)
    decreases c
  {
    match c
    case Group(_, cs) => SlotsFrom(cs, 0)
    case Predicate(_, op, value) => PredicateSlots(op, value)
  }

  function SlotsFrom(cs: seq<Condition>, i: nat): nat
    requires i <= |cs| && forall j | 0 <= j < |cs| :: ValidCondition(cs[j])
    decreases cs, |cs| - i
  {
    if i == |cs| then 0 else Slots(cs[i]) + SlotsFrom(cs, i + 1)
  }

  /** Every field a condition names is mapped. */
  predicate Mapped(fields: FieldMap, c: Condition) {
    match c
    case Group(_, cs) => forall i | 0 <= i < |cs| :: Mapped(fields, cs[i])
    case Predicate(f, _, _) => f in fields
  }

  predicate Ready(fields: FieldMap, cs: seq<Condition>) {
    forall j | 0 <= j < |cs| :: ValidCondition(cs[j]) && Mapped(fields, cs[j])
  }

  // ----- Tokens -----

  function ColumnTokens(column: PgColumn): seq<Token> {
    if column.kind.Numeric? then [TQuoted(column.identifier), TCast, TWord("numeric")]
    else if column.kind.Text? then [TQuoted(column.identifier), TWord("COLLATE"), TQuoted("C")]
    else [TQuoted(column.identifier)]
  }

  function ParamTokens(index: nat, cast: Option<string>): seq<Token> {
    if cast.Some? then [TParam(index), TCast, TWord(cast.value)] else [TParam(index)]
  }

  function CommaTokens(i: nat): seq<Token> {
    if i > 0 then [TSym(',')] else []
  }

  function ItemTokens(cast: Option<string>, count: nat, i: nat, n: nat): seq<Token>
    requires i <= count
    decreases count - i
  {
    if i == count then [] else CommaTokens(i) + ParamTokens(n + 1, cast) + ItemTokens(cast, count, i + 1, n + 1)
  }

  function OpenTokens(negated: bool): seq<Token> {
    if negated then [TWord("NOT"), TWord("IN"), TSym('(')] else [TWord("IN"), TSym('(')]
  }

  function SetTokens(column: PgColumn, negated: bool, count: nat, n: nat): seq<Token> {
    if count == 0 then
      if negated then ColumnTokens(column) + [TWord("IS"), TWord("NOT"), TWord("NULL")] else [TWord("FALSE")]
    else
      ColumnTokens(column) + OpenTokens(negated)
      + ItemTokens(PlaceholderCast(column.kind), count, 0, n) + [TSym(')')]
  }

  function ComparisonToken(op: Operator): Token
    requires !op.In? && !op.NotIn? && !op.IsNull? && !op.IsNotNull?
  {
    if op.Eq? then TOp("=")
    else if op.Ne? then TOp("<>")
    else if op.Gt? then TOp(">")
    else if op.Gte? then TOp(">=")
    else if op.Lt? then TOp("<")
    else if op.Lte? then TOp("<=")
    else TWord("LIKE")
  }

  function EscapeTokens(op: Operator): seq<Token> {
    if op.Like? then [TWord("ESCAPE"), TString("")] else []
  }

  function ComparisonTokens(column: PgColumn, op: Operator, n: nat): seq<Token>
    requires !op.In? && !op.NotIn? && !op.IsNull? && !op.IsNotNull?
  {
    ColumnTokens(column) + [ComparisonToken(op)]
    + ParamTokens(n + 1, PlaceholderCast(column.kind)) + EscapeTokens(op)
  }

  function PredicateTokens(column: PgColumn, op: Operator, value: Option<ScalarValue>, n: nat): seq<Token>
    requires OperandPresent(op, value)
  {
    if op.IsNull? then ColumnTokens(column) + [TWord("IS"), TWord("NULL")]
    else if op.IsNotNull? then ColumnTokens(column) + [TWord("IS"), TWord("NOT"), TWord("NULL")]
    else if op.In? || op.NotIn? then SetTokens(column, op.NotIn?, |value.value.values|, n)
    else ComparisonTokens(column, op, n)
  }

  function SeparatorToken(operator: LogicalOperator): Token {
    if operator.And? then TWord("AND") else TWord("OR")
  }

  function LeadTokens(operator: LogicalOperator, i: nat): seq<Token> {
    if i > 0 then [SeparatorToken(operator)] else []
  }

  function ConditionTokens(fields: FieldMap, c: Condition, n: nat): seq<Token>
    requires ValidCondition(c) && Mapped(fields, c)
    decreases c
  {
    match c
    case Group(operator, cs) => [TSym('(')] + Joined(operator, TokensOf(fields, cs, 0, n), 0) + [TSym(')')]
    case Predicate(field, op, value) => PredicateTokens(fields[field], op, value, n)
  }

  /** The tokens of each child from child `i` on. */
  function TokensOf(fields: FieldMap, cs: seq<Condition>, i: nat, n: nat): (pieces: seq<seq<Token>>)
    requires i <= |cs| && Ready(fields, cs)
    ensures |pieces| == |cs| - i
    decreases cs, |cs| - i
  {
    if i == |cs| then []
    else [ConditionTokens(fields, cs[i], n)] + TokensOf(fields, cs, i + 1, n + Slots(cs[i]))
  }

  /** Pieces with the group's operator between them; piece `i` of the group comes first. */
  function Joined(operator: LogicalOperator, pieces: seq<seq<Token>>, i: nat): seq<Token>
    decreases |pieces|
  {
    if pieces == [] then [] else LeadTokens(operator, i) + pieces[0] + Joined(operator, pieces[1..], i + 1)
  }

  // ----- Expressions -----

  function ColumnExpr(column: PgColumn): Expr {
    if column.kind.Numeric? then ECast(EColumn(column.identifier), "numeric")
    else if column.kind.Text? then ECollate(EColumn(column.identifier), "C")
    else EColumn(column.identifier)
  }

  function ParamExpr(index: nat, cast: Option<string>): Expr {
    if cast.Some? then ECast(EParam(index), cast.value) else EParam(index)
  }

  function ItemExprs(cast: Option<string>, count: nat, i: nat, n: nat): (items: seq<Expr>)
    requires i <= count
    ensures |items| == count - i
    ensures forall k | 0 <= k < count - i :: items[k] == ParamExpr(n + k + 1, cast)
    decreases count - i
  {
    if i == count then [] else [ParamExpr(n + 1, cast)] + ItemExprs(cast, count, i + 1, n + 1)
  }

  function CompareOpOf(op: Operator): CompareOp
    requires !op.In? && !op.NotIn? && !op.IsNull? && !op.IsNotNull? && !op.Like?
  {
    if op.Eq? then CEq
    else if op.Ne? then CNe
    else if op.Gt? then CGt
    else if op.Gte? then CGe
    else if op.Lt? then CLt
    else CLe
  }

  function PredicateExpr(column: PgColumn, op: Operator, value: Option<ScalarValue>, n: nat): Expr
    requires OperandPresent(op, value)
  {
    var cast := PlaceholderCast(column.kind);
    if op.IsNull? then EIsNull(ColumnExpr(column), false)
    else if op.IsNotNull? then EIsNull(ColumnExpr(column), true)
    else if op.In? || op.NotIn? then
      var count := |value.value.values|;
      if count > 0 then EIn(ColumnExpr(column), op.NotIn?, ItemExprs(cast, count, 0, n))
      else if op.In? then EBool(false)
      else EIsNull(ColumnExpr(column), true)
    else if op.Like? then ELikeEscape(ColumnExpr(column), ParamExpr(n + 1, cast), EString(""))
    else ECompare(CompareOpOf(op), ColumnExpr(column), ParamExpr(n + 1, cast))
  }

  function Join(operator: LogicalOperator, left: Expr, right: Expr): Expr {
    if operator.And? then EAnd(left, right) else EOr(left, right)
  }

  /** A left-nested chain. */
  function Chain(operator: LogicalOperator, left: Expr, rest: seq<Expr>): Expr
    decreases |rest|
  {
    if rest == [] then left else Chain(operator, Join(operator, left, rest[0]), rest[1..])
  }

  /** A group is the chain of its children; a single child stands alone. */
  function ConditionExpr(fields: FieldMap, c: Condition, n: nat): Expr
    requires ValidCondition(c) && Mapped(fields, c)
    decreases c
  {
    match c
    case Group(operator, cs) =>
      var es := ExprsOf(fields, cs, 0, n);
      Chain(operator, es[0], es[1..])
    case Predicate(field, op, value) => PredicateExpr(fields[field], op, value, n)
  }

  /** The expression of each child from child `i` on. */
  function ExprsOf(fields: FieldMap, cs: seq<Condition>, i: nat, n: nat): (es: seq<Expr>)
    requires i <= |cs| && Ready(fields, cs)
    ensures |es| == |cs| - i
    decreases cs, |cs| - i
  {
    if i == |cs| then []
    else [ConditionExpr(fields, cs[i], n)] + ExprsOf(fields, cs, i + 1, n + Slots(cs[i]))
  }
}
