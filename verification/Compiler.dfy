// src/postgres/compiler.rs: portable conditions and find parameters become SQL text with
// numbered placeholders and an ordered list of bindings. The functions say what is
// written; the classes write it, as the source does, by appending to a shared output.

module Compiler {
  import opened Results
  import opened Identifiers
  import opened Decimals
  import opened Mapping
  import opened Values
  import opened Conditions

  datatype PgCompiledQuery = PgCompiledQuery(sql: string, bindings: seq<PgBindValue>)

  // ----- Pieces of text -----

  function ColumnExpression(column: PgColumn): string {
    match column.kind
    case Numeric => Quoted(column.identifier) + "::numeric"
    case Text => Quoted(column.identifier) + " COLLATE \"C\""
    case _ => Quoted(column.identifier)
  }

  function PlaceholderCast(kind: PgScalarKind): Option<string> {
    match kind
    case Bool => None
    case Text => None
    case Bytes => None
    case Numeric => Some("numeric")
    case Uuid => Some("uuid")
    case Json => Some("jsonb")
    case Date => Some("date")
    case Time => Some("time")
    case Timestamp => Some("timestamp")
    case TimestampTz => Some("timestamptz")
  }

  function CastSuffix(cast: Option<string>): string {
    match cast
    case Some(ty) => "::" + ty
    case None => ""
  }

  function Placeholder(index: nat, cast: Option<string>): string {
    "$" + NatText(index) + CastSuffix(cast)
  }

  function Comma(i: nat): string {
    if i > 0 then ", " else ""
  }

  function Separator(operator: LogicalOperator): string {
    if operator.And? then " AND " else " OR "
  }

  function ComparisonText(op: Operator): string
    requires !op.In? && !op.NotIn? && !op.IsNull? && !op.IsNotNull?
  {
    if op.Eq? then " = "
    else if op.Ne? then " <> "
    else if op.Gt? then " > "
    else if op.Gte? then " >= "
    else if op.Lt? then " < "
    else if op.Lte? then " <= "
    else " LIKE "
  }

  function DirectionText(direction: SortDirection): string {
    if direction.Ascending? then " ASC NULLS FIRST" else " DESC NULLS LAST"
  }

  // ----- Bindings -----

  /** `normalize_binding`: the binding of a query operand for a column of this kind. */
  function NormalizeBinding(kind: PgScalarKind, value: ScalarValue): Result<PgBindValue> {
    var _ :- ValidateScalar(value);
    match value
    case Bool(b) => if kind.Bool? then Ok(PgBindValue.Bool(b)) else Err(Validation)
    case I64(i) => if kind.Numeric? then Ok(PgBindValue.Numeric(IntText(i))) else Err(Validation)
    case U64(u) => if kind.Numeric? then Ok(PgBindValue.Numeric(IntText(u))) else Err(Validation)
    case F64(f) => if kind.Numeric? then Ok(PgBindValue.Numeric(f.text)) else Err(Validation)
    case String(s) => if kind.Text? || NativeKind(kind) then Ok(PgBindValue.Text(s)) else Err(Validation)
    case Bytes(bytes) => if kind.Bytes? then Ok(PgBindValue.Bytes(bytes)) else Err(Validation)
    case Null => Err(Validation)
    case List(_) => Err(Validation)
  }

  /** `normalize_entity_binding`: the binding of a persistence value for a column of this kind. */
  function NormalizeEntityBinding(kind: PgScalarKind, value: PgValue): Result<PgBindValue> {
    var _ :- ValidatePgValue(value);
    match value
    case Null => Ok(PgBindValue.Null(kind))
    case Default => Err(Infrastructure)
    case Bool(b) => if kind.Bool? then Ok(PgBindValue.Bool(b)) else Err(Validation)
    case I64(i) => if kind.Numeric? then Ok(PgBindValue.Numeric(IntText(i))) else Err(Validation)
    case U64(u) => if kind.Numeric? then Ok(PgBindValue.Numeric(IntText(u))) else Err(Validation)
    case F64(f) => if kind.Numeric? then Ok(PgBindValue.Numeric(f.text)) else Err(Validation)
    case Text(s) => if kind.Text? then Ok(PgBindValue.Text(s)) else Err(Validation)
    case Bytes(bytes) => if kind.Bytes? then Ok(PgBindValue.Bytes(bytes)) else Err(Validation)
    case Uuid(r) => if kind.Uuid? then Ok(PgBindValue.Uuid(r)) else Err(Validation)
    case Json(r) => if kind.Json? then Ok(PgBindValue.Json(r)) else Err(Validation)
    case Decimal(r) => if kind.Numeric? then Ok(PgBindValue.Decimal(r)) else Err(Validation)
    case Date(r) => if kind.Date? then Ok(PgBindValue.Date(r)) else Err(Validation)
    case Time(r) => if kind.Time? then Ok(PgBindValue.Time(r)) else Err(Validation)
    case Timestamp(r) => if kind.Timestamp? then Ok(PgBindValue.Timestamp(r)) else Err(Validation)
    case TimestampTz(r) => if kind.TimestampTz? then Ok(PgBindValue.TimestampTz(r)) else Err(Validation)
  }

  // ----- What is written for conditions -----

  /** `done` followed by the rest, unless the rest fails. */
  function Then(done: PgCompiledQuery, rest: Result<PgCompiledQuery>): Result<PgCompiledQuery> {
    match rest
    case Ok(q) => Ok(PgCompiledQuery(done.sql + q.sql, done.bindings + q.bindings))
    case Err(kind) => Err(kind)
  }

  function Enclosed(inner: Result<PgCompiledQuery>): Result<PgCompiledQuery> {
    var q :- inner;
    Ok(PgCompiledQuery("(" + q.sql + ")", q.bindings))
  }

  /** Element `i` of a set operand, with `n` bindings already pushed. */
  function ListItem(kind: PgScalarKind, value: ScalarValue, i: nat, n: nat): Result<PgCompiledQuery> {
    var binding :- NormalizeBinding(kind, value);
    Ok(PgCompiledQuery(Comma(i) + Placeholder(n + 1, PlaceholderCast(kind)), [binding]))
  }

  /** The elements of a set operand from element `i` on. */
  function ListFragment(kind: PgScalarKind, values: seq<ScalarValue>, i: nat, n: nat): Result<PgCompiledQuery>
    requires i <= |values|
    decreases |values| - i
  {
    if i == |values| then Ok(PgCompiledQuery("", []))
    else
      var item :- ListItem(kind, values[i], i, n);
      Then(item, ListFragment(kind, values, i + 1, n + 1))
  }

  function SetFragment(column: PgColumn, negated: bool, values: seq<ScalarValue>, n: nat): Result<PgCompiledQuery> {
    if values == [] then
      Ok(PgCompiledQuery(if negated then ColumnExpression(column) + " IS NOT NULL" else "FALSE", []))
    else
      var items :- ListFragment(column.kind, values, 0, n);
      var open := if negated then " NOT IN (" else " IN (";
      Ok(PgCompiledQuery(ColumnExpression(column) + open + items.sql + ")", items.bindings))
  }

  function ComparisonFragment(column: PgColumn, op: Operator, value: ScalarValue, n: nat): Result<PgCompiledQuery>
    requires !op.In? && !op.NotIn? && !op.IsNull? && !op.IsNotNull?
  {
    var binding :- NormalizeBinding(column.kind, value);
    var text := ColumnExpression(column) + ComparisonText(op) + Placeholder(n + 1, PlaceholderCast(column.kind));
    Ok(PgCompiledQuery(if op.Like? then text + " ESCAPE ''" else text, [binding]))
  }

  function PredicateFragment(column: PgColumn, op: Operator, value: Option<ScalarValue>, n: nat): Result<PgCompiledQuery> {
    if op.Like? && !column.kind.Text? then Err(Validation)
    else if op.IsNull? then Ok(PgCompiledQuery(ColumnExpression(column) + " IS NULL", []))
    else if op.IsNotNull? then Ok(PgCompiledQuery(ColumnExpression(column) + " IS NOT NULL", []))
    else if !OperandPresent(op, value) then Err(Validation)
    else if op.In? || op.NotIn? then SetFragment(column, op.NotIn?, value.value.values, n)
    else ComparisonFragment(column, op, value.value, n)
  }

  function ConditionFragment(fields: FieldMap, c: Condition, n: nat): Result<PgCompiledQuery>
    decreases c
  {
    match c
    case Group(operator, conditions) =>
      Enclosed(ChildrenFragment(fields, operator, conditions, 0, n))
    case Predicate(field, op, value) =>
      var column :- Resolve(fields, field);
      PredicateFragment(column, op, value, n)
  }

  /** Child `i` of a group, after its separator. */
  function ChildFragment(
    fields: FieldMap, operator: LogicalOperator, cs: seq<Condition>, i: nat, n: nat): Result<PgCompiledQuery>
    requires i < |cs|
    decreases cs, 0, 0
  {
    var q :- ConditionFragment(fields, cs[i], n);
    Ok(PgCompiledQuery((if i > 0 then Separator(operator) else "") + q.sql, q.bindings))
  }

  /** The children of a group from child `i` on. */
  function ChildrenFragment(
    fields: FieldMap, operator: LogicalOperator, cs: seq<Condition>, i: nat, n: nat): Result<PgCompiledQuery>
    requires i <= |cs|
    decreases cs, 1, |cs| - i
  {
    if i == |cs| then Ok(PgCompiledQuery("", []))
    else
      var child :- ChildFragment(fields, operator, cs, i, n);
      Then(child, ChildrenFragment(fields, operator, cs, i + 1, n + |child.bindings|))
  }

  // ----- What is written for find and count -----

  function WhereFragment(fields: FieldMap, condition: Option<Condition>): Result<PgCompiledQuery> {
    match condition
    case None => Ok(PgCompiledQuery("", []))
    case Some(c) => Then(PgCompiledQuery("WHERE ", []), ConditionFragment(fields, c, 0))
  }

  function Separated(sql: string): string {
    if sql == "" then sql else sql + " "
  }

  function SortItem(fields: FieldMap, sort: seq<Sort>, i: nat): Result<string>
    requires i < |sort|
  {
    var column :- Resolve(fields, sort[i].field);
    Ok(Comma(i) + ColumnExpression(column) + DirectionText(sort[i].direction))
  }

  function SortItems(fields: FieldMap, sort: seq<Sort>, i: nat): Result<string>
    requires i <= |sort|
    decreases |sort| - i
  {
    if i == |sort| then Ok("")
    else
      var item :- SortItem(fields, sort, i);
      var rest :- SortItems(fields, sort, i + 1);
      Ok(item + rest)
  }

  function SortFragment(fields: FieldMap, sort: seq<Sort>, q: PgCompiledQuery): Result<PgCompiledQuery> {
    if sort == [] then Ok(q)
    else
      var items :- SortItems(fields, sort, 0);
      Ok(PgCompiledQuery(Separated(q.sql) + "ORDER BY " + items, q.bindings))
  }

  function PageFragment(keyword: string, amount: nat, q: PgCompiledQuery): Result<PgCompiledQuery> {
    if amount > MAX_BIGINT then Err(Validation)
    else Ok(PgCompiledQuery(
              Separated(q.sql) + keyword + Placeholder(|q.bindings| + 1, None),
              q.bindings + [PgBindValue.I64(amount)]))
  }

  /** An offset of zero writes no clause. */
  function PagedFragment(limit: Option<nat>, offset: nat, q: PgCompiledQuery): Result<PgCompiledQuery> {
    var limited :- if limit.Some? then PageFragment("LIMIT ", limit.value, q) else Ok(q);
    if offset > 0 then PageFragment("OFFSET ", offset, limited) else Ok(limited)
  }

  function FindFragment(fields: FieldMap, params: FindParams): Result<PgCompiledQuery> {
    if !ValidParams(params) then Err(Validation)
    else
      var filtered :- WhereFragment(fields, params.condition);
      var sorted :- SortFragment(fields, params.sort, filtered);
      PagedFragment(params.limit, params.offset, sorted)
  }

  function CountFragment(fields: FieldMap, params: FindParams): Result<PgCompiledQuery> {
    if !ValidParams(params) then Err(Validation) else WhereFragment(fields, params.condition)
  }

  // ----- The compiler itself -----

  class CompilerOutput {
    var sql: string
    var bindings: seq<PgBindValue>

    constructor ()
      ensures sql == "" && bindings == []
    {
      sql, bindings := "", [];
    }

    method PushBinding(binding: PgBindValue, cast: Option<string>)
      modifies this
      ensures bindings == old(bindings) + [binding]
      ensures sql == old(sql) + Placeholder(|bindings|, cast)
    {
      bindings := bindings + [binding];
      sql := sql + "$";
      sql := sql + NatText(|bindings|);
      if cast.Some? {
        sql := sql + "::";
        sql := sql + cast.value;
      }
    }

    method SeparateClause()
      modifies this`sql
      ensures sql == Separated(old(sql))
    {
      if sql != "" {
        sql := sql + " ";
      }
    }

    function Finish(): PgCompiledQuery
      reads this
    {
      PgCompiledQuery(sql, bindings)
    }
  }

  /** `output` holds `before` plus the fragment, or the fragment's error came back. */
  ghost predicate Wrote(
    before: PgCompiledQuery, output: CompilerOutput, r: Result<()>, fragment: Result<PgCompiledQuery>)
    reads output
  {
    match fragment
    case Err(kind) => r == Err(kind)
    case Ok(q) => r.Ok? && output.sql == before.sql + q.sql && output.bindings == before.bindings + q.bindings
  }

  /** `output` is left holding exactly `expected`, or its error came back. */
  ghost predicate Left(output: CompilerOutput, r: Result<()>, expected: Result<PgCompiledQuery>)
    reads output
  {
    match expected
    case Err(kind) => r == Err(kind)
    case Ok(q) => r.Ok? && output.Finish() == q
  }

  class PgQueryCompiler {
    const fields: FieldMap

    constructor (fields: FieldMap)
      ensures this.fields == fields
    {
      this.fields := fields;
    }

    method CompileCondition(condition: Condition) returns (r: Result<PgCompiledQuery>)
      ensures r == if ValidCondition(condition) then ConditionFragment(fields, condition, 0) else Err(Validation)
    {
      if !ValidCondition(condition) {
        return Err(Validation);
      }
      var output := new CompilerOutput();
      var written := WriteCondition(condition, output);
      ThenNothing(ConditionFragment(fields, condition, 0));
      if written.Err? {
        return Err(written.kind);
      }
      r := Ok(output.Finish());
    }

    method CompileFind(params: FindParams) returns (r: Result<PgCompiledQuery>)
      ensures r == FindFragment(fields, params)
    {
      if !ValidParams(params) {
        return Err(Validation);
      }
      var output := new CompilerOutput();
      var written := WriteWhere(params.condition, output);
      if written.Err? {
        return Err(written.kind);
      }
      written := WriteSort(params.sort, output);
      if written.Err? {
        return Err(written.kind);
      }
      if params.limit.Some? {
        written := WritePage("LIMIT ", params.limit.value, output);
        if written.Err? {
          return Err(written.kind);
        }
      }
      if params.offset > 0 {
        written := WritePage("OFFSET ", params.offset, output);
        if written.Err? {
          return Err(written.kind);
        }
      }
      r := Ok(output.Finish());
    }

    method CompileCount(params: FindParams) returns (r: Result<PgCompiledQuery>)
      ensures r == CountFragment(fields, params)
    {
      if !ValidParams(params) {
        return Err(Validation);
      }
      var output := new CompilerOutput();
      var written := WriteWhere(params.condition, output);
      if written.Err? {
        return Err(written.kind);
      }
      r := Ok(output.Finish());
    }

    /** The WHERE clause opens both statements, on an output that is still empty. */
    method WriteWhere(condition: Option<Condition>, output: CompilerOutput) returns (r: Result<()>)
      requires output.Finish() == PgCompiledQuery("", [])
      modifies output
      ensures Left(output, r, WhereFragment(fields, condition))
    {
      if condition.Some? {
        output.sql := output.sql + "WHERE ";
        assert output.Finish() == PgCompiledQuery("WHERE ", []);
        r := WriteCondition(condition.value, output);
      } else {
        r := Ok(());
      }
    }

    method WriteSort(sort: seq<Sort>, output: CompilerOutput) returns (r: Result<()>)
      modifies output
      ensures Left(output, r, SortFragment(fields, sort, old(output.Finish())))
    {
      if sort == [] {
        return Ok(());
      }
      output.SeparateClause();
      output.sql := output.sql + "ORDER BY ";
      ghost var start := output.sql;
      for i := 0 to |sort|
        modifies output`sql
        invariant Prefixed(output.sql, SortItems(fields, sort, i)) == Prefixed(start, SortItems(fields, sort, 0))
      {
        NextSortItem(fields, sort, i, output.sql);
        var written := WriteSortItem(sort, i, output);
        if written.Err? {
          return Err(written.kind);
        }
      }
      SortWritten(fields, sort, old(output.Finish()), output.sql);
      r := Ok(());
    }

    method WriteSortItem(sort: seq<Sort>, i: nat, output: CompilerOutput) returns (r: Result<()>)
      requires i < |sort|
      modifies output`sql
      ensures match SortItem(fields, sort, i)
              case Err(kind) => r == Err(kind)
              case Ok(item) => r.Ok? && output.sql == old(output.sql) + item
    {
      if i > 0 {
        output.sql := output.sql + ", ";
      }
      ghost var started := output.sql;
      assert started == old(output.sql) + Comma(i);
      var column := Resolve(fields, sort[i].field);
      if column.Err? {
        return Err(column.kind);
      }
      output.sql := output.sql + ColumnExpression(column.value);
      output.sql := output.sql + DirectionText(sort[i].direction);
      Grouped(old(output.sql), Comma(i), ColumnExpression(column.value), DirectionText(sort[i].direction), "");
      r := Ok(());
    }

    method WritePage(keyword: string, amount: nat, output: CompilerOutput) returns (r: Result<()>)
      modifies output
      ensures Left(output, r, PageFragment(keyword, amount, old(output.Finish())))
    {
      output.SeparateClause();
      output.sql := output.sql + keyword;
      if amount > MAX_BIGINT {
        return Err(Validation);
      }
      output.PushBinding(PgBindValue.I64(amount), None);
      r := Ok(());
    }

    method WriteCondition(condition: Condition, output: CompilerOutput) returns (r: Result<()>)
      modifies output
      ensures Wrote(old(output.Finish()), output, r, ConditionFragment(fields, condition, |old(output.bindings)|))
      decreases condition
    {
      match condition
      case Group(operator, conditions) =>
        r := WriteGroup(operator, conditions, output);
      case Predicate(field, op, value) =>
        var column := Resolve(fields, field);
        if column.Err? {
          return Err(column.kind);
        }
        r := WritePredicate(column.value, op, value, output);
    }

    method WriteGroup(operator: LogicalOperator, conditions: seq<Condition>, output: CompilerOutput)
      returns (r: Result<()>)
      modifies output
      ensures Wrote(old(output.Finish()), output, r,
                    Enclosed(ChildrenFragment(fields, operator, conditions, 0, |old(output.bindings)|)))
      decreases conditions, 1
    {
      output.sql := output.sql + "(";
      ghost var start := output.Finish();
      for i := 0 to |conditions|
        invariant Then(output.Finish(), ChildrenFragment(fields, operator, conditions, i, |output.bindings|))
               == Then(start, ChildrenFragment(fields, operator, conditions, 0, |start.bindings|))
      {
        NextChild(fields, operator, conditions, i, output.Finish());
        var written := WriteChild(operator, conditions, i, output);
        if written.Err? {
          return Err(written.kind);
        }
      }
      EnclosedWritten(old(output.Finish()), "(", output.Finish(),
                      ChildrenFragment(fields, operator, conditions, 0, |start.bindings|));
      output.sql := output.sql + ")";
      r := Ok(());
    }

    method WriteChild(operator: LogicalOperator, conditions: seq<Condition>, i: nat, output: CompilerOutput)
      returns (r: Result<()>)
      requires i < |conditions|
      modifies output
      ensures Wrote(old(output.Finish()), output, r,
                    ChildFragment(fields, operator, conditions, i, |old(output.bindings)|))
      decreases conditions, 0
    {
      if i > 0 {
        output.sql := output.sql + Separator(operator);
      }
      ghost var lead := if i > 0 then Separator(operator) else "";
      assert output.sql == old(output.sql) + lead;
      r := WriteCondition(conditions[i], output);
      if r.Ok? {
        Assoc(old(output.sql), lead,
              ConditionFragment(fields, conditions[i], |old(output.bindings)|).value.sql);
      }
    }

    method WritePredicate(column: PgColumn, op: Operator, value: Option<ScalarValue>, output: CompilerOutput)
      returns (r: Result<()>)
      modifies output
      ensures Wrote(old(output.Finish()), output, r, PredicateFragment(column, op, value, |old(output.bindings)|))
    {
      if op.Like? && !column.kind.Text? {
        return Err(Validation);
      }
      var expression := ColumnExpression(column);
      if op.IsNull? {
        output.sql := output.sql + expression;
        output.sql := output.sql + " IS NULL";
        return Ok(());
      } else if op.IsNotNull? {
        output.sql := output.sql + expression;
        output.sql := output.sql + " IS NOT NULL";
        return Ok(());
      } else if op.In? || op.NotIn? {
        if value.None? || !value.value.List? {
          return Err(Validation);
        }
        r := WriteSet(column, op.NotIn?, value.value.values, output);
      } else {
        if value.None? {
          return Err(Validation);
        }
        r := WriteComparison(column, op, value.value, output);
      }
    }

    method WriteComparison(column: PgColumn, op: Operator, value: ScalarValue, output: CompilerOutput)
      returns (r: Result<()>)
      requires !op.In? && !op.NotIn? && !op.IsNull? && !op.IsNotNull?
      modifies output
      ensures Wrote(old(output.Finish()), output, r,
                    ComparisonFragment(column, op, value, |old(output.bindings)|))
    {
      var binding := NormalizeBinding(column.kind, value);
      if binding.Err? {
        return Err(binding.kind);
      }
      output.sql := output.sql + ColumnExpression(column);
      output.sql := output.sql + ComparisonText(op);
      output.PushBinding(binding.value, PlaceholderCast(column.kind));
      if op.Like? {
        output.sql := output.sql + " ESCAPE ''";
      }
      Grouped(old(output.sql), ColumnExpression(column), ComparisonText(op),
              Placeholder(|output.bindings|, PlaceholderCast(column.kind)), " ESCAPE ''");
      r := Ok(());
    }

    method WriteSet(column: PgColumn, negated: bool, values: seq<ScalarValue>, output: CompilerOutput)
      returns (r: Result<()>)
      modifies output
      ensures Wrote(old(output.Finish()), output, r, SetFragment(column, negated, values, |old(output.bindings)|))
    {
      if values == [] {
        if !negated {
          output.sql := output.sql + "FALSE";
        } else {
          output.sql := output.sql + ColumnExpression(column);
          output.sql := output.sql + " IS NOT NULL";
        }
        return Ok(());
      }
      output.sql := output.sql + ColumnExpression(column);
      output.sql := output.sql + (if negated then " NOT IN (" else " IN (");
      ghost var open := ColumnExpression(column) + if negated then " NOT IN (" else " IN (";
      Assoc(old(output.sql), ColumnExpression(column), if negated then " NOT IN (" else " IN (");
      ghost var start := output.Finish();
      for i := 0 to |values|
        invariant Then(output.Finish(), ListFragment(column.kind, values, i, |output.bindings|))
               == Then(start, ListFragment(column.kind, values, 0, |start.bindings|))
      {
        NextListItem(column.kind, values, i, output.Finish());
        var written := WriteSetItem(column.kind, values[i], i, output);
        if written.Err? {
          return Err(written.kind);
        }
      }
      EnclosedWritten(old(output.Finish()), open, output.Finish(),
                      ListFragment(column.kind, values, 0, |start.bindings|));
      output.sql := output.sql + ")";
      r := Ok(());
    }

    method WriteSetItem(kind: PgScalarKind, value: ScalarValue, i: nat, output: CompilerOutput)
      returns (r: Result<()>)
      modifies output
      ensures Wrote(old(output.Finish()), output, r, ListItem(kind, value, i, |old(output.bindings)|))
    {
      if i > 0 {
        output.sql := output.sql + ", ";
      }
      ghost var started := output.sql;
      assert started == old(output.sql) + Comma(i);
      var binding := NormalizeBinding(kind, value);
      if binding.Err? {
        return Err(binding.kind);
      }
      output.PushBinding(binding.value, PlaceholderCast(kind));
      Grouped(old(output.sql), Comma(i), Placeholder(|output.bindings|, PlaceholderCast(kind)), "", "");
      r := Ok(());
    }
  }

  /** A group's remaining children that compile: one child, then the others. */
  lemma {:induction false} ChildrenSplit(
    fields: FieldMap, operator: LogicalOperator, cs: seq<Condition>, i: nat, n: nat)
    returns (child: PgCompiledQuery, rest: PgCompiledQuery)
    requires i < |cs| && ChildrenFragment(fields, operator, cs, i, n).Ok?
    ensures ChildFragment(fields, operator, cs, i, n) == Ok(child)
    ensures ConditionFragment(fields, cs[i], n).Ok? && ConditionFragment(fields, cs[i], n).value.bindings == child.bindings
    ensures ChildrenFragment(fields, operator, cs, i + 1, n + |child.bindings|) == Ok(rest)
    ensures ChildrenFragment(fields, operator, cs, i, n)
         == Ok(PgCompiledQuery(child.sql + rest.sql, child.bindings + rest.bindings))
  {
    child := ChildFragment(fields, operator, cs, i, n).value;
    rest := ChildrenFragment(fields, operator, cs, i + 1, n + |child.bindings|).value;
  }

  /** When a group's remaining children compile, and with what error they do not. */
  lemma {:induction false} ChildrenOutcome(
    fields: FieldMap, operator: LogicalOperator, cs: seq<Condition>, i: nat, n: nat)
    requires i < |cs|
    ensures var all := ChildrenFragment(fields, operator, cs, i, n);
            match ConditionFragment(fields, cs[i], n)
            case Err(kind) => all == Err(kind)
            case Ok(q) =>
              match ChildrenFragment(fields, operator, cs, i + 1, n + |q.bindings|)
              case Err(kind) => all == Err(kind)
              case Ok(_) => all.Ok?
  {
  }

  lemma {:induction false} Assoc<T>(a: seq<T>, b: seq<T>, c: seq<T>)
    ensures a + b + c == a + (b + c)
  {
  }

  lemma {:induction false} Grouped(a: string, b: string, c: string, d: string, e: string)
    ensures a + b + c == a + (b + c)
    ensures a + b + c + d == a + (b + c + d)
    ensures a + b + c + d + e == a + (b + c + d + e)
  {
    assert a + b + c == a + (b + c);
    assert a + b + c + d == a + (b + c + d);
    assert a + b + c + d + e == a + (b + c + d + e);
  }

  lemma {:induction false} ThenTwice(a: PgCompiledQuery, b: PgCompiledQuery, rest: Result<PgCompiledQuery>)
    ensures Then(a, Then(b, rest)) == Then(PgCompiledQuery(a.sql + b.sql, a.bindings + b.bindings), rest)
  {
    if rest.Ok? {
      Assoc(a.sql, b.sql, rest.value.sql);
      Assoc(a.bindings, b.bindings, rest.value.bindings);
    }
  }

  /** Writing one child keeps what is written, with the children still to come, the same. */
  lemma {:induction false} NextChild(
    fields: FieldMap, operator: LogicalOperator, cs: seq<Condition>, i: nat, q: PgCompiledQuery)
    requires i < |cs|
    ensures Then(q, ChildrenFragment(fields, operator, cs, i, |q.bindings|))
         == match ChildFragment(fields, operator, cs, i, |q.bindings|)
            case Err(kind) => Err(kind)
            case Ok(child) =>
              Then(PgCompiledQuery(q.sql + child.sql, q.bindings + child.bindings),
                   ChildrenFragment(fields, operator, cs, i + 1, |q.bindings| + |child.bindings|))
  {
    match ChildFragment(fields, operator, cs, i, |q.bindings|)
    case Err(_) =>
    case Ok(child) =>
      ThenTwice(q, child, ChildrenFragment(fields, operator, cs, i + 1, |q.bindings| + |child.bindings|));
  }

  lemma {:induction false} NextListItem(kind: PgScalarKind, values: seq<ScalarValue>, i: nat, q: PgCompiledQuery)
    requires i < |values|
    ensures Then(q, ListFragment(kind, values, i, |q.bindings|))
         == match ListItem(kind, values[i], i, |q.bindings|)
            case Err(error) => Err(error)
            case Ok(item) =>
              Then(PgCompiledQuery(q.sql + item.sql, q.bindings + item.bindings),
                   ListFragment(kind, values, i + 1, |q.bindings| + |item.bindings|))
  {
    match ListItem(kind, values[i], i, |q.bindings|)
    case Err(_) =>
    case Ok(item) => ThenTwice(q, item, ListFragment(kind, values, i + 1, |q.bindings| + 1));
  }

  /** What is written once everything between the parentheses is. */
  lemma {:induction false} EnclosedWritten(
    before: PgCompiledQuery, open: string, q: PgCompiledQuery, inner: Result<PgCompiledQuery>)
    requires Then(q, Ok(PgCompiledQuery("", []))) == Then(PgCompiledQuery(before.sql + open, before.bindings), inner)
    ensures inner.Ok? && q.bindings == before.bindings + inner.value.bindings
    ensures q.sql + ")" == before.sql + (open + inner.value.sql + ")")
  {
    assert q.sql + "" == q.sql && q.bindings + [] == q.bindings;
    Grouped(before.sql, open, inner.value.sql, ")", "");
  }

  lemma {:induction false} ThenNothing(rest: Result<PgCompiledQuery>)
    ensures Then(PgCompiledQuery("", []), rest) == rest
  {
    if rest.Ok? {
      assert "" + rest.value.sql == rest.value.sql;
      assert [] + rest.value.bindings == rest.value.bindings;
    }
  }

  lemma {:induction false} SortWritten(fields: FieldMap, sort: seq<Sort>, before: PgCompiledQuery, sql: string)
    requires sort != []
    requires Prefixed(sql, SortItems(fields, sort, |sort|))
          == Prefixed(Separated(before.sql) + "ORDER BY ", SortItems(fields, sort, 0))
    ensures SortFragment(fields, sort, before) == Ok(PgCompiledQuery(sql, before.bindings))
  {
    assert sql + "" == sql;
  }

  lemma {:induction false} NextSortItem(fields: FieldMap, sort: seq<Sort>, i: nat, sql: string)
    requires i < |sort|
    ensures Prefixed(sql, SortItems(fields, sort, i))
         == match SortItem(fields, sort, i)
            case Err(kind) => Err(kind)
            case Ok(item) => Prefixed(sql + item, SortItems(fields, sort, i + 1))
  {
    match SortItem(fields, sort, i)
    case Err(_) =>
    case Ok(item) => PrefixedTwice(sql, item, SortItems(fields, sort, i + 1));
  }

  ghost function Prefixed(done: string, rest: Result<string>): Result<string> {
    match rest
    case Ok(text) => Ok(done + text)
    case Err(kind) => Err(kind)
  }

  lemma {:induction false} PrefixedTwice(a: string, b: string, rest: Result<string>)
    ensures Prefixed(a, Prefixed(b, rest)) == Prefixed(a + b, rest)
  {
    if rest.Ok? {
      assert a + (b + rest.value) == (a + b) + rest.value;
    }
  }
}
