// Where two ways through the repository must meet: writing a value and querying for it,
// fetching a row by identity and finding it, integers on both sides of a comparison.

module AgreementTheorems {
  import opened Results
  import opened Decimals
  import opened Mapping
  import opened Values
  import opened Conditions
  import opened Compiler
  import opened Entity
  import opened Repository
  import opened SqlSemantics
  import opened SqlStatements
  import opened MeaningProofs
  import opened StatementProofs
  import opened SelectProofs
  import opened ConditionTheorems
  import opened Queries
  import opened FindTheorems
  import opened PagingTheorems
  import opened Stores
  import opened RepositoryRuns
  import opened KeyedTables
  import opened RepositoryTheorems
  import opened RunTheorems

  // ----- Write, then query -----

  /** What a scalar is bound as when it is converted to a persistence value and written. */
  function WritePath(kind: PgScalarKind, v: ScalarValue): Result<PgBindValue> {
    var value :- FromScalar(v);
    NormalizeEntityBinding(kind, value)
  }

  /**
   * The query path and the write path treat every scalar alike on every column, refusals
   * included, except a null, which a write binds and a query refuses, and a text for a
   * native kind, which a query sends for the server to cast and a write refuses.
   */
  lemma {:induction false} PathsAgreeExactlyWhen(kind: PgScalarKind, v: ScalarValue)
    ensures WritePath(kind, v) == NormalizeBinding(kind, v) <==> !v.Null? && !(v.String? && NativeKind(kind))
    ensures v.Null? ==> WritePath(kind, v) == Ok(PgBindValue.Null(kind)) && NormalizeBinding(kind, v) == Err(Validation)
    ensures v.String? && NativeKind(kind) ==>
              WritePath(kind, v) == Err(Validation) && NormalizeBinding(kind, v) == Ok(PgBindValue.Text(v.s))
  {
  }

  /** The persistence value of a native kind at this place in the server's order on it. */
  function NativePgValue(kind: PgScalarKind, rank: real): PgValue
    requires NativeKind(kind)
  {
    match kind
    case Uuid => PgValue.Uuid(rank)
    case Json => PgValue.Json(rank)
    case Date => PgValue.Date(rank)
    case Time => PgValue.Time(rank)
    case Timestamp => PgValue.Timestamp(rank)
    case TimestampTz => PgValue.TimestampTz(rank)
  }

  /**
   * A persistence value and a query operand for one and the same value: the scalar's own
   * conversion, a decimal of the operand's amount, or the native value the server reads the
   * operand's text as.
   */
  predicate SameValue(server: Server, kind: PgScalarKind, p: PgValue, v: ScalarValue) {
    && Fits(kind, v)
    && if NativeKind(kind) then p == NativePgValue(kind, server.cast(kind, v.s))
       else FromScalar(v) == Ok(p) || (p.Decimal? && OperandValue(server, kind, v) == VNumeric(p.amount))
  }

  lemma {:induction false} StoredIsOperand(server: Server, kind: PgScalarKind, p: PgValue, v: ScalarValue)
    requires SameValue(server, kind, p, v)
    ensures FitsStored(kind, p) && !p.Null? && !p.Default?
    ensures StoredValue(server, p) == OperandValue(server, kind, v) && !OperandValue(server, kind, v).VNull?
  {
    if !NativeKind(kind) && FromScalar(v) != Ok(p) {
      assert kind.Numeric?;
    }
  }

  /** Every operand that fits its column stands for such a value. */
  lemma {:induction false} OperandsStandForValues(server: Server, kind: PgScalarKind, v: ScalarValue) returns (p: PgValue)
    requires Fits(kind, v)
    ensures SameValue(server, kind, p, v)
    ensures !NativeKind(kind) ==> FromScalar(v) == Ok(p)
    ensures kind.Numeric? ==> SameValue(server, kind, PgValue.Decimal(OperandValue(server, kind, v).r), v)
  {
    p := if NativeKind(kind) then NativePgValue(kind, server.cast(kind, v.s)) else FromScalar(v).value;
  }

  function EqualTo(field: FieldName, v: ScalarValue): Condition {
    Predicate(field, Eq, Some(v))
  }

  lemma {:induction false} EqualToHolds(server: Server, fields: FieldMap, field: FieldName, v: ScalarValue, row: Row)
    requires field in fields && Fits(fields[field].kind, v) && TypedRow(fields, row)
    ensures Holds(server, fields, EqualTo(field, v), RecordOf(fields, row))
       <==> row[fields[field].identifier] == OperandValue(server, fields[field].kind, v)
    ensures Compilable(fields, EqualTo(field, v)) && ConditionFragment(fields, EqualTo(field, v), 0).Ok?
  {
    CompilesExactlyWhen(fields, EqualTo(field, v), 0);
  }

  /**
   * A value written through its codec is found again by the compiled equality on it, on a
   * column of any kind: the inserted row is accepted.
   */
  lemma {:induction false} WriteThenQuery(
    server: Server, m: EntityMapping, e: Encoded, returning: bool, field: FieldName, p: PgValue, v: ScalarValue,
    defaults: Row, table: Table)
    requires Proper(m) && m.idField in m.fields && Sound(m, table) && RowFits(table.schema, defaults)
    requires field in m.fields && m.fields[field].permissions.insertable
    requires if field == m.idField then e.id == Ok(p) else field in e.values && e.values[field] == Ok(p)
    requires SameValue(server, m.fields[field].kind, p, v)
    requires Sent(server, InsertStatement(m, e, returning), defaults, table).Applied?
    ensures ConditionFragment(m.fields, EqualTo(field, v), 0).Ok?
    ensures var q := ConditionFragment(m.fields, EqualTo(field, v), 0).value;
            var w := Sent(server, InsertStatement(m, e, returning), defaults, table);
            && |w.rows| == |table.rows| + 1
            && Verdicts(server, q.sql, q.bindings, w.rows[|table.rows|]) == Accepts
  {
    assert field in FieldsWith(m, Inserting) && EntityValue(m, e, field) == Ok(p);
    StoredIsOperand(server, m.fields[field].kind, p, v);
    InsertRefused(m, e, returning);
    var row := InsertExecutes(server, m, e, returning, defaults, table);
    assert row[m.fields[field].identifier] == FieldValue(server, m, e, field, defaults);
    assert TypedRow(m.fields, row);
    EqualToHolds(server, m.fields, field, v, row);
    CompiledConditionMeans(server, m.fields, EqualTo(field, v), row);
  }

  // ----- By identity, and by a query on it -----

  function Query(c: Condition): FindParams {
    FindParams(Some(c), [], None, 0)
  }

  lemma {:induction false} QuerySelectsKey(server: Server, m: EntityMapping, v: ScalarValue, table: Table, binds: seq<Value>)
    requires Proper(m) && m.idField in m.fields && Sound(m, table)
    requires Fits(m.fields[m.idField].kind, v)
    requires FindReady(m.fields, Query(EqualTo(m.idField, v)))
    requires WhereFragment(m.fields, Some(EqualTo(m.idField, v))).Ok?
    requires BoundAt(binds, 0, WhereFragment(m.fields, Some(EqualTo(m.idField, v))).value.bindings)
    ensures SelectsKey(server, FilterExpr(m.fields, Query(EqualTo(m.idField, v))).value, binds, table.key,
                       OperandValue(server, m.fields[m.idField].kind, v), table.rows)
  {
    var params := Query(EqualTo(m.idField, v));
    HostedRows(m, table);
    forall r: Row | r in table.rows
      ensures table.key in r
      ensures Judge(server, FilterExpr(m.fields, params).value, r, binds)
           == AcceptsIf(r[table.key] == OperandValue(server, m.fields[m.idField].kind, v))
    {
      FilterMeans(server, m.fields, params, binds, r);
      EqualToHolds(server, m.fields, m.idField, v, r);
    }
  }

  /** The rows a query on the identity selects. */
  lemma {:induction false} QueriedById(server: Server, m: EntityMapping, v: ScalarValue, table: Table)
    requires Proper(m) && m.idField in m.fields && Sound(m, table)
    requires Fits(m.fields[m.idField].kind, v)
    ensures FindStatement(m, Query(EqualTo(m.idField, v))).Ok? && TypedRows(m.fields, table.rows)
    ensures var key := OperandValue(server, m.fields[m.idField].kind, v);
            Filtered(server, m.fields, Some(EqualTo(m.idField, v)), table.rows)
            == if key in Contents(table) then [Contents(table)[key]] else []
  {
    var params := Query(EqualTo(m.idField, v));
    FindCompilesExactlyWhen(m, params);
    FindSends(m, params);
    HostedRows(m, table);
    var binds := BindValues(FindBindings(m.fields, params));
    KeptIsFiltered(server, m.fields, params, binds, table.rows);
    QuerySelectsKey(server, m, v, table, binds);
    KeptByKey(server, FilterExpr(m.fields, params).value, binds, table.key,
              OperandValue(server, m.fields[m.idField].kind, v), table.rows);
  }

  lemma {:induction false} OneRowFind(server: Server, m: EntityMapping, params: FindParams, rows: seq<Row>, answer: seq<Row>)
    requires ValidParams(params) && params.sort == [] && params.limit.None? && params.offset == 0
    requires TypedRows(m.fields, rows) && |Filtered(server, m.fields, params.condition, rows)| <= 1
    ensures FindAnswer(server, m, params, rows, answer)
       <==> answer == ProjectAll(Filtered(server, m.fields, params.condition, rows), SelectedNames(m))
  {
    var kept := Filtered(server, m.fields, params.condition, rows);
    assert Arrangement(server, m.fields, params, rows, kept);
    WholeSlice(kept);
    forall sorted | Arrangement(server, m.fields, params, rows, sorted) ensures sorted == kept {
      OnlyRow(sorted, kept);
    }
  }

  /**
   * Fetching by identity compares the bare column, querying compares it under its cast or
   * collation; on every table they give the same rows, and remove reports whether there
   * was one.
   */
  lemma {:induction false} GetAgreesWithFind(
    server: Server, m: EntityMapping, id: PgValue, v: ScalarValue, defaults: Row, table: Table, answer: seq<Row>)
    requires Proper(m) && m.idField in m.fields && Sound(m, table)
    requires SameValue(server, m.fields[m.idField].kind, id, v)
    ensures Reads(server, GetStatement(m, Ok(id)), table, answer)
       <==> Reads(server, FindStatement(m, Query(EqualTo(m.idField, v))), table, answer)
    ensures Reads(server, GetStatement(m, Ok(id)), table, answer) ==>
              RemoveOutcome(Sent(server, RemoveStatement(m, Ok(id)), defaults, table)) == Removed(answer != [])
  {
    var kind := m.fields[m.idField].kind;
    var params := Query(EqualTo(m.idField, v));
    StoredIsOperand(server, kind, id, v);
    ProperFacts(m);
    GetAnswers(server, m, Ok(id), table, answer);
    RemoveDoes(server, m, Ok(id), defaults, table);
    QueriedById(server, m, v, table);
    FindMeans(server, m, params, table, answer);
    OneRowFind(server, m, params, table.rows, answer);
    OneSeen(m, table, OperandValue(server, kind, v),
            Filtered(server, m.fields, Some(EqualTo(m.idField, v)), table.rows));
  }

  // ----- Integers -----

  /** The integer an `i64` or `u64` operand is. */
  function Integer(v: ScalarValue): Option<int> {
    if v.I64? then Some(v.i) else if v.U64? then Some(v.u) else None
  }

  /** Every integer of 64 bits, with or without sign, is such an operand. */
  lemma {:induction false} IntegersAreOperands(x: int)
    ensures -9_223_372_036_854_775_808 <= x <= 9_223_372_036_854_775_807 ==> Integer(ScalarValue.I64(x)) == Some(x)
    ensures 0 <= x <= 18_446_744_073_709_551_615 ==> Integer(ScalarValue.U64(x)) == Some(x)
  {
  }

  predicate IntegersCompare(op: Operator, x: int, y: int) {
    if op.Eq? then x == y
    else if op.Ne? then x != y
    else if op.Gt? then x > y
    else if op.Gte? then x >= y
    else if op.Lt? then x < y
    else x <= y
  }

  lemma {:induction false} IntegerHolds(server: Server, op: Operator, x: ScalarValue, y: ScalarValue)
    requires op.Eq? || op.Ne? || op.Gt? || op.Gte? || op.Lt? || op.Lte?
    requires Integer(x).Some? && Integer(y).Some?
    ensures PredicateHolds(server, PgScalarKind.Numeric, op, Some(y), StoredValue(server, FromScalar(x).value))
       <==> IntegersCompare(op, Integer(x).value, Integer(y).value)
  {
  }

  /**
   * A row written from one integer and compared with another, signed or unsigned: the
   * compiled text decides as the integers do.
   */
  lemma {:induction false} IntegersCompareAsIntegers(
    server: Server, fields: FieldMap, field: FieldName, op: Operator, x: ScalarValue, y: ScalarValue, row: Row)
    requires field in fields && fields[field].kind.Numeric? && TypedRow(fields, row)
    requires op.Eq? || op.Ne? || op.Gt? || op.Gte? || op.Lt? || op.Lte?
    requires Integer(x).Some? && Integer(y).Some?
    requires row[fields[field].identifier] == StoredValue(server, FromScalar(x).value)
    ensures ConditionFragment(fields, Predicate(field, op, Some(y)), 0).Ok?
    ensures var q := ConditionFragment(fields, Predicate(field, op, Some(y)), 0).value;
            Verdicts(server, q.sql, q.bindings, row)
            == AcceptsIf(IntegersCompare(op, Integer(x).value, Integer(y).value))
  {
    var c := Predicate(field, op, Some(y));
    CompilesExactlyWhen(fields, c, 0);
    IntegerHolds(server, op, x, y);
    LeafHolds(server, fields, c, row);
    CompiledConditionMeans(server, fields, c, row);
  }

  lemma {:induction false} LeafHolds(server: Server, fields: FieldMap, c: Condition, row: Row)
    requires c.Predicate? && ValidCondition(c) && c.field in fields && TypedRow(fields, row)
    ensures Holds(server, fields, c, RecordOf(fields, row))
       <==> PredicateHolds(server, fields[c.field].kind, c.op, c.value, row[fields[c.field].identifier])
  {
  }

  lemma {:induction false} IntegerSetHolds(server: Server, negated: bool, x: ScalarValue, ys: seq<ScalarValue>)
    requires Integer(x).Some? && forall y | y in ys :: Integer(y).Some?
    ensures PredicateHolds(server, PgScalarKind.Numeric, if negated then NotIn else In, Some(List(ys)),
                           StoredValue(server, FromScalar(x).value))
       <==> (exists y | y in ys :: Integer(y) == Integer(x)) != negated
  {
    forall y | y in ys
      ensures StoredValue(server, FromScalar(x).value) == OperandValue(server, PgScalarKind.Numeric, y)
         <==> Integer(y) == Integer(x)
    {
    }
  }

  /** The same for sets of integers. */
  lemma {:induction false} IntegerSets(
    server: Server, fields: FieldMap, field: FieldName, negated: bool, x: ScalarValue, ys: seq<ScalarValue>, row: Row)
    requires field in fields && fields[field].kind.Numeric? && TypedRow(fields, row)
    requires Integer(x).Some? && forall y | y in ys :: Integer(y).Some?
    requires row[fields[field].identifier] == StoredValue(server, FromScalar(x).value)
    ensures var c := Predicate(field, if negated then NotIn else In, Some(List(ys)));
            && ConditionFragment(fields, c, 0).Ok?
            && var q := ConditionFragment(fields, c, 0).value;
               Verdicts(server, q.sql, q.bindings, row)
               == AcceptsIf((exists y | y in ys :: Integer(y) == Integer(x)) != negated)
  {
    var c := Predicate(field, if negated then NotIn else In, Some(List(ys)));
    CompilesExactlyWhen(fields, c, 0);
    IntegerSetHolds(server, negated, x, ys);
    LeafHolds(server, fields, c, row);
    CompiledConditionMeans(server, fields, c, row);
  }

  /** The order of the bound texts is another one. */
  lemma {:induction false} TextOrderIsNotIntegerOrder()
    ensures TextLess(IntText(10), IntText(9)) && !IntegersCompare(Lt, 10, 9)
  {
    assert IntText(10) == NatText(1) + [DigitChar(0)];
    assert IntText(10)[0] == '1' && IntText(9)[0] == '9';
  }
}
