// The intended expression of a compiled condition, evaluated by the server under the
// compiled bindings, is true exactly on the rows the portable condition holds of.

module MeaningProofs {
  import opened Results
  import opened Decimals
  import opened Mapping
  import opened Values
  import opened Conditions
  import opened Compiler
  import opened SqlGrammar
  import opened Intended
  import opened LexingProofs
  import opened SqlSemantics

  /** The row stores, in each mapped column, null or a value of the column's kind. */
  predicate TypedRow(fields: FieldMap, row: Row) {
    forall f | f in fields :: fields[f].identifier in row && HasKind(row[fields[f].identifier], fields[f].kind)
  }

  /** The record an application sees: each logical field is its physical column. */
  function RecordOf(fields: FieldMap, row: Row): Record
    requires TypedRow(fields, row)
  {
    map f | f in fields :: row[fields[f].identifier]
  }

  /** From position `n` on, the server holds these bindings. */
  ghost predicate BoundAt(binds: seq<Value>, n: nat, bs: seq<PgBindValue>) {
    n + |bs| <= |binds| && forall k | 0 <= k < |bs| :: binds[n + k] == BindValue(bs[k])
  }

  // ----- Operands -----

  /** An operand compiles exactly when it fits its column. */
  lemma {:induction false} NormalizesIfFits(kind: PgScalarKind, value: ScalarValue)
    ensures NormalizeBinding(kind, value).Ok? <==> Fits(kind, value)
  {
  }

  lemma {:induction false} TypeOfCast(kind: PgScalarKind)
    ensures PlaceholderCast(kind).Some? <==> kind.Numeric? || NativeKind(kind)
    ensures PlaceholderCast(kind).Some? ==> TypeKind(PlaceholderCast(kind).value) == Some(kind)
  {
  }

  /** A placeholder under the cast of its column yields the operand's value, not its text. */
  lemma {:induction false} ParamMeans(
    server: Server, kind: PgScalarKind, value: ScalarValue, index: nat, row: Row, binds: seq<Value>)
    requires NormalizeBinding(kind, value).Ok?
    requires index < |binds| && binds[index] == BindValue(NormalizeBinding(kind, value).value)
    ensures Eval(server, ParamExpr(index + 1, PlaceholderCast(kind)), row, binds)
         == Some(OperandValue(server, kind, value))
    ensures HasKind(OperandValue(server, kind, value), kind) && !OperandValue(server, kind, value).VNull?
  {
    TypeOfCast(kind);
    assert Eval(server, EParam(index + 1), row, binds) == Some(binds[index]);
    if value.I64? {
      IntTextRoundTrip(value.i);
    } else if value.U64? {
      IntTextRoundTrip(value.u);
    }
  }

  lemma {:induction false} ColumnMeans(server: Server, column: PgColumn, row: Row, binds: seq<Value>)
    requires column.identifier in row && HasKind(row[column.identifier], column.kind)
    ensures Eval(server, ColumnExpr(column), row, binds) == Some(row[column.identifier])
  {
    assert Eval(server, EColumn(column.identifier), row, binds) == Some(row[column.identifier]);
    TypeOfCast(column.kind);
  }

  // ----- LIKE -----

  /** Without an escape character the server's matching is the portable one. */
  lemma {:induction false} LikeMeans(text: string, pattern: string)
    ensures SqlLike(text, pattern, None) <==> LikeHolds(text, pattern)
    decreases |pattern|, |text|
  {
    if pattern == "" {
    } else if pattern[0] == '%' {
      LikeMeans(text, pattern[1..]);
      if text != "" {
        LikeMeans(text[1..], pattern);
        if LikeHolds(text[1..], pattern) {
          var k :| 0 <= k <= |text[1..]| && LikeHolds(text[1..][k..], pattern[1..]);
          assert text[k + 1..] == text[1..][k..];
        }
        if LikeHolds(text, pattern) && !LikeHolds(text, pattern[1..]) {
          var k :| 0 <= k <= |text| && LikeHolds(text[k..], pattern[1..]);
          assert text[0..] == text;
          assert text[1..][k - 1..] == text[k..];
        }
      } else if LikeHolds(text, pattern) {
        var k :| 0 <= k <= |text| && LikeHolds(text[k..], pattern[1..]);
        assert text[k..] == text;
      }
      assert text[0..] == text;
    } else if text != "" {
      LikeMeans(text[1..], pattern[1..]);
    }
  }

  /**
   * Why `ESCAPE ''` is written: under the server's default escape character a backslash
   * stops being an ordinary character, and the portable meaning is lost.
   */
  lemma {:induction false} DefaultEscapeDiffers()
    ensures LikeHolds("\\a", "\\%") && !SqlLike("\\a", "\\%", Some('\\'))
    ensures SqlLike("%", "\\%", Some('\\')) && !LikeHolds("%", "\\%")
  {
    assert "\\a"[1..] == "a" && "\\%"[1..] == "%" && "%"[1..] == "" && "a"[1..] == "";
    assert LikeHolds("a"[1..], "%"[1..]);
    assert LikeHolds("a", "%");
    assert "\\%"[2..] == "";
    assert SqlLike("%"[1..], "\\%"[2..], Some('\\'));
    assert "\\a"[0] == '\\' && "\\%"[1] == '%';
  }

  // ----- Comparisons and sets -----

  /** Comparing non-null operands of one kind; a null field makes the comparison unknown. */
  lemma {:induction false} ComparedValues(
    server: Server, op: Operator, v: Value, w: Value, kind: PgScalarKind, collatedC: bool)
    requires !op.In? && !op.NotIn? && !op.IsNull? && !op.IsNotNull? && !op.Like?
    requires HasKind(v, kind) && HasKind(w, kind) && !w.VNull? && (kind.Text? ==> collatedC)
    ensures CompareValues(server, CompareOpOf(op), v, w, collatedC)
         == Some(if v.VNull? then VNull else VBool(CompareHolds(op, v, w)))
  {
    if !v.VNull? {
      OneKindOneType(v, w, kind);
      ValueLessTotal(v, w);
    }
  }

  lemma {:induction false} CompareMeans(
    server: Server, column: PgColumn, op: Operator, value: ScalarValue, n: nat, row: Row, binds: seq<Value>)
    requires !op.In? && !op.NotIn? && !op.IsNull? && !op.IsNotNull? && !op.Like?
    requires column.identifier in row && HasKind(row[column.identifier], column.kind)
    requires NormalizeBinding(column.kind, value).Ok?
    requires n < |binds| && binds[n] == BindValue(NormalizeBinding(column.kind, value).value)
    ensures var v := row[column.identifier];
            Judge(server, PredicateExpr(column, op, Some(value), n), row, binds)
            == AcceptsIf(!v.VNull? && CompareHolds(op, v, OperandValue(server, column.kind, value)))
  {
    var v := row[column.identifier];
    var w := OperandValue(server, column.kind, value);
    var param := ParamExpr(n + 1, PlaceholderCast(column.kind));
    ColumnMeans(server, column, row, binds);
    ParamMeans(server, column.kind, value, n, row, binds);
    assert column.kind.Text? ==> CollatedC(ColumnExpr(column));
    ComparedValues(server, op, v, w, column.kind, CollatedC(ColumnExpr(column)) || CollatedC(param));
  }

  lemma {:induction false} LikePredicateMeans(
    server: Server, column: PgColumn, value: ScalarValue, n: nat, row: Row, binds: seq<Value>)
    requires column.kind.Text?
    requires column.identifier in row && HasKind(row[column.identifier], column.kind)
    requires NormalizeBinding(column.kind, value).Ok?
    requires n < |binds| && binds[n] == BindValue(NormalizeBinding(column.kind, value).value)
    ensures var v := row[column.identifier];
            Judge(server, PredicateExpr(column, Like, Some(value), n), row, binds)
            == AcceptsIf(!v.VNull? && CompareHolds(Like, v, OperandValue(server, column.kind, value)))
  {
    var v := row[column.identifier];
    ColumnMeans(server, column, row, binds);
    ParamMeans(server, column.kind, value, n, row, binds);
    assert Eval(server, EString(""), row, binds) == Some(VText(""));
    if !v.VNull? {
      LikeMeans(v.s, value.s);
    }
  }

  /** The values of a set operand, in order. */
  function OperandValues(server: Server, kind: PgScalarKind, values: seq<ScalarValue>): (ws: seq<Value>)
    ensures |ws| == |values|
    ensures forall k | 0 <= k < |values| :: ws[k] == OperandValue(server, kind, values[k])
  {
    seq(|values|, k requires 0 <= k < |values| => OperandValue(server, kind, values[k]))
  }

  lemma {:induction false} ListStep(kind: PgScalarKind, values: seq<ScalarValue>, i: nat, n: nat)
    requires i < |values|
    ensures ListFragment(kind, values, i, n).Ok?
       <==> NormalizeBinding(kind, values[i]).Ok? && ListFragment(kind, values, i + 1, n + 1).Ok?
    ensures ListFragment(kind, values, i, n).Ok? ==>
              ListFragment(kind, values, i, n).value.bindings
              == [NormalizeBinding(kind, values[i]).value] + ListFragment(kind, values, i + 1, n + 1).value.bindings
  {
  }

  /** A set operand compiles when all its elements do, to their bindings in order. */
  lemma {:induction false} NextBindings(
    kind: PgScalarKind, values: seq<ScalarValue>, i: nat, bs: seq<PgBindValue>, rest: seq<PgBindValue>)
    requires i < |values| && |rest| == |values| - i - 1
    requires NormalizeBinding(kind, values[i]).Ok? && bs == [NormalizeBinding(kind, values[i]).value] + rest
    requires forall k | 0 <= k < |rest| :: Ok(rest[k]) == NormalizeBinding(kind, values[i + 1 + k])
    ensures forall k | 0 <= k < |bs| :: Ok(bs[k]) == NormalizeBinding(kind, values[i + k])
  {
    forall k | 0 <= k < |bs| ensures Ok(bs[k]) == NormalizeBinding(kind, values[i + k]) {
      if k > 0 {
        assert bs[k] == rest[k - 1] && i + 1 + (k - 1) == i + k;
      }
    }
  }

  lemma {:induction false} ListBindings(kind: PgScalarKind, values: seq<ScalarValue>, i: nat, n: nat)
    requires i <= |values|
    ensures ListFragment(kind, values, i, n).Ok? <==> forall k | i <= k < |values| :: NormalizeBinding(kind, values[k]).Ok?
    ensures ListFragment(kind, values, i, n).Ok? ==>
              var bs := ListFragment(kind, values, i, n).value.bindings;
              && |bs| == |values| - i
              && forall k | 0 <= k < |bs| :: Ok(bs[k]) == NormalizeBinding(kind, values[i + k])
    decreases |values| - i
  {
    if i < |values| {
      ListStep(kind, values, i, n);
      ListBindings(kind, values, i + 1, n + 1);
      if ListFragment(kind, values, i, n).Ok? {
        var bs := ListFragment(kind, values, i, n).value.bindings;
        NextBindings(kind, values, i, bs, ListFragment(kind, values, i + 1, n + 1).value.bindings);
      }
    }
  }

  lemma {:induction false} ItemsEval(server: Server, items: seq<Expr>, vs: seq<Value>, row: Row, binds: seq<Value>)
    requires |items| == |vs| && forall k | 0 <= k < |items| :: Eval(server, items[k], row, binds) == Some(vs[k])
    ensures EvalItems(server, items, row, binds) == Some(vs)
    decreases |items|
  {
    if items != [] {
      ItemsEval(server, items[1..], vs[1..], row, binds);
      assert [vs[0]] + vs[1..] == vs;
    }
  }

  lemma {:induction false} ItemsMean(
    server: Server, kind: PgScalarKind, values: seq<ScalarValue>, n: nat, row: Row, binds: seq<Value>)
    requires ListFragment(kind, values, 0, n).Ok?
    requires BoundAt(binds, n, ListFragment(kind, values, 0, n).value.bindings)
    ensures EvalItems(server, ItemExprs(PlaceholderCast(kind), |values|, 0, n), row, binds)
         == Some(OperandValues(server, kind, values))
    ensures forall w | w in OperandValues(server, kind, values) :: HasKind(w, kind) && !w.VNull?
  {
    var bs := ListFragment(kind, values, 0, n).value.bindings;
    ListBindings(kind, values, 0, n);
    BoundItemsMean(server, kind, values, bs, n, row, binds);
  }

  lemma {:induction false} BoundItemsMean(
    server: Server, kind: PgScalarKind, values: seq<ScalarValue>, bs: seq<PgBindValue>, n: nat, row: Row, binds: seq<Value>)
    requires |bs| == |values| && forall k | 0 <= k < |bs| :: Ok(bs[k]) == NormalizeBinding(kind, values[k])
    requires BoundAt(binds, n, bs)
    ensures EvalItems(server, ItemExprs(PlaceholderCast(kind), |values|, 0, n), row, binds)
         == Some(OperandValues(server, kind, values))
    ensures forall w | w in OperandValues(server, kind, values) :: HasKind(w, kind) && !w.VNull?
  {
    var items := ItemExprs(PlaceholderCast(kind), |values|, 0, n);
    var ws := OperandValues(server, kind, values);
    forall k | 0 <= k < |values|
      ensures Eval(server, items[k], row, binds) == Some(ws[k])
      ensures HasKind(ws[k], kind) && !ws[k].VNull?
    {
      ItemMeans(server, kind, values[k], bs[k], n + k, row, binds);
    }
    ItemsEval(server, items, ws, row, binds);
  }

  lemma {:induction false} ItemMeans(
    server: Server, kind: PgScalarKind, value: ScalarValue, binding: PgBindValue, index: nat, row: Row, binds: seq<Value>)
    requires NormalizeBinding(kind, value) == Ok(binding)
    requires index < |binds| && binds[index] == BindValue(binding)
    ensures Eval(server, ParamExpr(index + 1, PlaceholderCast(kind)), row, binds)
         == Some(OperandValue(server, kind, value))
    ensures HasKind(OperandValue(server, kind, value), kind) && !OperandValue(server, kind, value).VNull?
  {
    ParamMeans(server, kind, value, index, row, binds);
  }

  lemma {:induction false} BoundInside(binds: seq<Value>, n: nat, bs: seq<PgBindValue>, a: seq<PgBindValue>, b: seq<PgBindValue>)
    requires BoundAt(binds, n, bs) && bs == a + b
    ensures BoundAt(binds, n, a) && BoundAt(binds, n + |a|, b)
  {
    forall k | 0 <= k < |a| ensures binds[n + k] == BindValue(a[k]) {
      assert bs[k] == a[k];
    }
    forall k | 0 <= k < |b| ensures binds[n + |a| + k] == BindValue(b[k]) {
      assert binds[n + (|a| + k)] == BindValue(bs[|a| + k]);
    }
  }

  /** IN over non-null elements of the field's kind: unknown on a null field, else membership. */
  lemma {:induction false} InMeans(server: Server, v: Value, ws: seq<Value>, kind: PgScalarKind)
    requires HasKind(v, kind) && forall w | w in ws :: HasKind(w, kind) && !w.VNull?
    ensures InValues(server, v, ws)
         == if v.VNull? && ws != [] then Some(VNull) else Some(VBool(v in ws))
  {
    if ws != [] {
      assert forall w | w in ws[1..] :: w in ws;
      InMeans(server, v, ws[1..], kind);
      assert ws[0] in ws;
      if !v.VNull? {
        OneKindOneType(v, ws[0], kind);
      }
      assert v in ws <==> v == ws[0] || v in ws[1..];
    }
  }

  lemma {:induction false} MemberMeans(server: Server, kind: PgScalarKind, values: seq<ScalarValue>, v: Value)
    ensures v in OperandValues(server, kind, values)
       <==> exists x | x in values :: v == OperandValue(server, kind, x)
  {
    var ws := OperandValues(server, kind, values);
    if v in ws {
      var k :| 0 <= k < |ws| && ws[k] == v;
      assert values[k] in values;
    }
    if x :| x in values && v == OperandValue(server, kind, x) {
      var k :| 0 <= k < |values| && values[k] == x;
      assert ws[k] == v;
    }
  }

  lemma {:induction false} FilledSetMeans(
    server: Server, column: PgColumn, negated: bool, values: seq<ScalarValue>, n: nat, row: Row, binds: seq<Value>)
    requires values != []
    requires column.identifier in row && HasKind(row[column.identifier], column.kind)
    requires ListFragment(column.kind, values, 0, n).Ok?
    requires BoundAt(binds, n, ListFragment(column.kind, values, 0, n).value.bindings)
    ensures var v := row[column.identifier];
            var e := EIn(ColumnExpr(column), negated, ItemExprs(PlaceholderCast(column.kind), |values|, 0, n));
            var found := v in OperandValues(server, column.kind, values);
            Eval(server, e, row, binds) == Some(if v.VNull? then VNull else VBool(found != negated))
  {
    var v := row[column.identifier];
    var ws := OperandValues(server, column.kind, values);
    ColumnMeans(server, column, row, binds);
    ItemsMean(server, column.kind, values, n, row, binds);
    InMeans(server, v, ws, column.kind);
    InEvaluates(server, ColumnExpr(column), negated, ItemExprs(PlaceholderCast(column.kind), |values|, 0, n), v, ws,
                if v.VNull? then VNull else VBool(v in ws), row, binds);
  }

  lemma {:induction false} InEvaluates(
    server: Server, e: Expr, negated: bool, items: seq<Expr>, v: Value, ws: seq<Value>, found: Value,
    row: Row, binds: seq<Value>)
    requires Eval(server, e, row, binds) == Some(v) && EvalItems(server, items, row, binds) == Some(ws)
    requires InValues(server, v, ws) == Some(found) && (found.VNull? || found.VBool?)
    ensures Eval(server, EIn(e, negated, items), row, binds)
         == Some(if found.VNull? then VNull else VBool(found.b != negated))
  {
  }

  lemma {:induction false} SetMeans(
    server: Server, column: PgColumn, negated: bool, values: seq<ScalarValue>, n: nat, row: Row, binds: seq<Value>)
    requires column.identifier in row && HasKind(row[column.identifier], column.kind)
    requires SetFragment(column, negated, values, n).Ok?
    requires BoundAt(binds, n, SetFragment(column, negated, values, n).value.bindings)
    ensures var op := if negated then NotIn else In;
            Judge(server, PredicateExpr(column, op, Some(List(values)), n), row, binds)
            == AcceptsIf(PredicateHolds(server, column.kind, op, Some(List(values)), row[column.identifier]))
  {
    if values == [] {
      ColumnMeans(server, column, row, binds);
    } else {
      FilledSetMeans(server, column, negated, values, n, row, binds);
      MemberMeans(server, column.kind, values, row[column.identifier]);
    }
  }

  lemma {:induction false} PredicateMeans(
    server: Server, column: PgColumn, op: Operator, value: Option<ScalarValue>, n: nat, row: Row, binds: seq<Value>)
    requires OperandPresent(op, value)
    requires column.identifier in row && HasKind(row[column.identifier], column.kind)
    requires PredicateFragment(column, op, value, n).Ok?
    requires BoundAt(binds, n, PredicateFragment(column, op, value, n).value.bindings)
    ensures Judge(server, PredicateExpr(column, op, value, n), row, binds)
         == AcceptsIf(PredicateHolds(server, column.kind, op, value, row[column.identifier]))
  {
    if op.IsNull? || op.IsNotNull? {
      ColumnMeans(server, column, row, binds);
    } else if op.In? || op.NotIn? {
      SetMeans(server, column, op.NotIn?, value.value.values, n, row, binds);
    } else {
      var bs := PredicateFragment(column, op, value, n).value.bindings;
      assert binds[n + 0] == BindValue(bs[0]);
      if op.Like? {
        LikePredicateMeans(server, column, value.value, n, row, binds);
      } else {
        CompareMeans(server, column, op, value.value, n, row, binds);
      }
    }
  }

  // ----- Conditions -----

  /** All (AND) or some (OR) of these hold. */
  ghost predicate Combined(operator: LogicalOperator, holds: seq<bool>) {
    if operator.And? then forall k | 0 <= k < |holds| :: holds[k] else exists k | 0 <= k < |holds| :: holds[k]
  }

  predicate Both(operator: LogicalOperator, a: bool, b: bool) {
    if operator.And? then a && b else a || b
  }

  lemma {:induction false} CombinedSplits(operator: LogicalOperator, holds: seq<bool>)
    requires holds != []
    ensures Combined(operator, holds) == Both(operator, holds[0], Combined(operator, holds[1..]))
  {
    var rest := holds[1..];
    assert forall k | 0 <= k < |rest| :: rest[k] == holds[k + 1];
    assert forall k | 0 < k < |holds| :: holds[k] == rest[k - 1];
  }

  /** Each expression accepts the row exactly when its flag says so. */
  ghost predicate Judged(server: Server, es: seq<Expr>, holds: seq<bool>, row: Row, binds: seq<Value>) {
    |es| == |holds| && forall k | 0 <= k < |es| :: Judge(server, es[k], row, binds) == AcceptsIf(holds[k])
  }

  lemma {:induction false} JoinMeans(
    server: Server, operator: LogicalOperator, left: Expr, right: Expr, row: Row, binds: seq<Value>, a: bool, b: bool)
    requires Judge(server, left, row, binds) == AcceptsIf(a) && Judge(server, right, row, binds) == AcceptsIf(b)
    ensures Judge(server, Join(operator, left, right), row, binds) == AcceptsIf(Both(operator, a, b))
  {
  }

  lemma {:induction false} ChainMeans(
    server: Server, operator: LogicalOperator, left: Expr, a: bool, es: seq<Expr>, holds: seq<bool>,
    row: Row, binds: seq<Value>)
    requires Judge(server, left, row, binds) == AcceptsIf(a) && Judged(server, es, holds, row, binds)
    ensures Judge(server, Chain(operator, left, es), row, binds)
         == AcceptsIf(Both(operator, a, Combined(operator, holds)))
    decreases |es|
  {
    if es != [] {
      JoinMeans(server, operator, left, es[0], row, binds, a, holds[0]);
      ChainMeans(server, operator, Join(operator, left, es[0]), Both(operator, a, holds[0]), es[1..], holds[1..],
                 row, binds);
      CombinedSplits(operator, holds);
    }
  }

  /** Which children hold of a record. */
  ghost function HoldsOf(server: Server, fields: FieldMap, cs: seq<Condition>, record: Record): (hs: seq<bool>)
    requires forall j | 0 <= j < |cs| :: ValidCondition(cs[j])
    ensures |hs| == |cs| && forall j | 0 <= j < |cs| :: hs[j] == Holds(server, fields, cs[j], record)
  {
    seq(|cs|, j requires 0 <= j < |cs| => Holds(server, fields, cs[j], record))
  }

  /**
   * A compiled condition accepts exactly the rows it holds of. No negation is ever
   * emitted, so unknown and false may be taken together.
   */
  lemma {:induction false} ConditionMeans(
    server: Server, fields: FieldMap, c: Condition, n: nat, row: Row, binds: seq<Value>)
    requires ValidCondition(c) && Mapped(fields, c) && TypedRow(fields, row)
    requires ConditionFragment(fields, c, n).Ok?
    requires BoundAt(binds, n, ConditionFragment(fields, c, n).value.bindings)
    ensures Judge(server, ConditionExpr(fields, c, n), row, binds)
         == AcceptsIf(Holds(server, fields, c, RecordOf(fields, row)))
    decreases c, 2
  {
    match c
    case Group(operator, cs) =>
      var es := ExprsOf(fields, cs, 0, n);
      var hs := HoldsOf(server, fields, cs, RecordOf(fields, row));
      ChildrenMean(server, fields, operator, cs, 0, n, row, binds);
      assert hs[0..] == hs;
      ChainMeans(server, operator, es[0], hs[0], es[1..], hs[1..], row, binds);
      CombinedSplits(operator, hs);
    case Predicate(field, op, value) =>
      PredicateMeans(server, fields[field], op, value, n, row, binds);
  }

  lemma {:induction false} FirstMeans(
    server: Server, fields: FieldMap, operator: LogicalOperator, cs: seq<Condition>, i: nat, n: nat,
    row: Row, binds: seq<Value>)
    requires i < |cs| && Ready(fields, cs) && TypedRow(fields, row)
    requires ChildrenFragment(fields, operator, cs, i, n).Ok?
    requires BoundAt(binds, n, ChildrenFragment(fields, operator, cs, i, n).value.bindings)
    ensures Judge(server, ConditionExpr(fields, cs[i], n), row, binds)
         == AcceptsIf(HoldsOf(server, fields, cs, RecordOf(fields, row))[i])
    ensures ChildrenFragment(fields, operator, cs, i + 1, n + Slots(cs[i])).Ok?
    ensures BoundAt(binds, n + Slots(cs[i]),
                    ChildrenFragment(fields, operator, cs, i + 1, n + Slots(cs[i])).value.bindings)
    decreases cs, 1, 0
  {
    FirstBound(fields, operator, cs, i, n, binds);
    ConditionMeans(server, fields, cs[i], n, row, binds);
  }

  lemma {:induction false} ChildrenMean(
    server: Server, fields: FieldMap, operator: LogicalOperator, cs: seq<Condition>, i: nat, n: nat,
    row: Row, binds: seq<Value>)
    requires i <= |cs| && Ready(fields, cs) && TypedRow(fields, row)
    requires ChildrenFragment(fields, operator, cs, i, n).Ok?
    requires BoundAt(binds, n, ChildrenFragment(fields, operator, cs, i, n).value.bindings)
    ensures Judged(server, ExprsOf(fields, cs, i, n),
                   HoldsOf(server, fields, cs, RecordOf(fields, row))[i..], row, binds)
    decreases cs, 1, |cs| - i
  {
    if i < |cs| {
      FirstMeans(server, fields, operator, cs, i, n, row, binds);
      ChildrenMean(server, fields, operator, cs, i + 1, n + Slots(cs[i]), row, binds);
      var hs := HoldsOf(server, fields, cs, RecordOf(fields, row));
      ConsJudged(server, ConditionExpr(fields, cs[i], n), ExprsOf(fields, cs, i + 1, n + Slots(cs[i])),
                 hs, i, row, binds);
    }
  }

  lemma {:induction false} ConsJudged(server: Server, e: Expr, es: seq<Expr>, hs: seq<bool>, i: nat, row: Row, binds: seq<Value>)
    requires i < |hs| && Judge(server, e, row, binds) == AcceptsIf(hs[i])
    requires Judged(server, es, hs[i + 1..], row, binds)
    ensures Judged(server, [e] + es, hs[i..], row, binds)
  {
    assert hs[i..] == [hs[i]] + hs[i + 1..];
  }

  /** The bindings of the children from `i` on are the child's own, then the others'. */
  lemma {:induction false} FirstBound(
    fields: FieldMap, operator: LogicalOperator, cs: seq<Condition>, i: nat, n: nat, binds: seq<Value>)
    requires i < |cs| && Ready(fields, cs)
    requires ChildrenFragment(fields, operator, cs, i, n).Ok?
    requires BoundAt(binds, n, ChildrenFragment(fields, operator, cs, i, n).value.bindings)
    ensures ConditionFragment(fields, cs[i], n).Ok?
    ensures BoundAt(binds, n, ConditionFragment(fields, cs[i], n).value.bindings)
    ensures ChildrenFragment(fields, operator, cs, i + 1, n + Slots(cs[i])).Ok?
    ensures BoundAt(binds, n + Slots(cs[i]),
                    ChildrenFragment(fields, operator, cs, i + 1, n + Slots(cs[i])).value.bindings)
  {
    var child, rest := ChildrenSplit(fields, operator, cs, i, n);
    ConditionLexes(fields, cs[i], n);
    BoundInside(binds, n, ChildrenFragment(fields, operator, cs, i, n).value.bindings, child.bindings, rest.bindings);
  }
}
