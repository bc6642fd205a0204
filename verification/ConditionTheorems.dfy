// The main results about compiled conditions: what their text says, when they compile, and
// what more mappings can change.

module ConditionTheorems {
  import opened Results
  import opened Mapping
  import opened Values
  import opened Conditions
  import opened Compiler
  import opened SqlLexer
  import opened SqlGrammar
  import opened SqlSemantics
  import opened Intended
  import opened LexingProofs
  import opened ParsingProofs
  import opened MeaningProofs

  // ----- Round trip -----

  /**
   * Whatever clause text follows, the server reads the intended expression and leaves
   * that text untouched, though the two are one string.
   */
  lemma {:induction false} TextRoundTrip(fields: FieldMap, c: Condition, n: nat, rest: string)
    requires ValidCondition(c) && ConditionFragment(fields, c, n).Ok?
    requires Boundary(rest) && Ends(Lex(rest)) && !Starts(Lex(rest), TWord("AND")) && !Starts(Lex(rest), TWord("OR"))
    ensures Mapped(fields, c)
    ensures ParseExpr(Lex(ConditionFragment(fields, c, n).value.sql + rest))
         == Done(ConditionExpr(fields, c, n), Lex(rest))
  {
    CompiledIsMapped(fields, c, n);
    ConditionLexes(fields, c, n);
    ConditionParses(fields, c, n);
    ExprClimbs(ConditionTokens(fields, c, n) + Lex(rest), ConditionExpr(fields, c, n), Lex(rest));
  }

  /** A group of one child is written the same under either operator. */
  lemma {:induction false} SingleChildForgetsOperator(fields: FieldMap, c: Condition, n: nat)
    ensures ConditionFragment(fields, Group(And, [c]), n) == ConditionFragment(fields, Group(Or, [c]), n)
    ensures ValidCondition(c) && Mapped(fields, c) ==>
              ConditionExpr(fields, Group(And, [c]), n) == ConditionExpr(fields, c, n)
  {
    var and := ChildFragment(fields, And, [c], 0, n);
    var or := ChildFragment(fields, Or, [c], 0, n);
    assert and == or;
    if and.Ok? {
      OnlyChild(fields, And, c, n);
      OnlyChild(fields, Or, c, n);
    }
  }

  lemma {:induction false} OnlyChild(fields: FieldMap, operator: LogicalOperator, c: Condition, n: nat)
    requires ChildFragment(fields, operator, [c], 0, n).Ok?
    ensures ChildrenFragment(fields, operator, [c], 0, n) == ChildFragment(fields, operator, [c], 0, n)
  {
    var child := ChildFragment(fields, operator, [c], 0, n).value;
    assert ChildrenFragment(fields, operator, [c], 1, n + |child.bindings|) == Ok(PgCompiledQuery("", []));
    assert child.sql + "" == child.sql && child.bindings + [] == child.bindings;
  }

  /** Why validation must refuse an empty group: it would be written `()`, which is not an expression. */
  lemma {:induction false} EmptyGroupIsUnreadable(fields: FieldMap, operator: LogicalOperator)
    ensures ConditionFragment(fields, Group(operator, []), 0) == Ok(PgCompiledQuery("()", []))
    ensures ParseExpr(Lex("()")) == Fail
  {
    assert "(" + "" + ")" == "()";
    assert "()"[1..] == ")" && ")"[1..] == "";
    assert Lex(")") == [TSym(')')] + Lex("");
    assert Lex("()") == [TSym('('), TSym(')')];
    var ts := [TSym('('), TSym(')')];
    assert ts[1..] == [TSym(')')];
    NothingClimbs(ts[1..]);
    NothingClimbs(ts);
  }

  lemma {:induction false} NothingClimbs(ts: seq<Token>)
    requires ParsePrimary(ts).Fail? && !Starts(ts, TWord("NOT"))
    ensures ParseExpr(ts).Fail?
  {
    assert ParseCollate(ts).Fail?;
    assert ParseComparison(ts).Fail?;
    assert ParseNot(ts).Fail?;
  }

  // ----- Meaning -----

  /** What the server does with one row under the text of a WHERE clause and its bindings. */
  function Verdicts(server: Server, sql: string, bindings: seq<PgBindValue>, row: Row): Verdict {
    match ParseExpr(Lex(sql))
    case Fail => Errs
    case Done(e, rest) => if rest == [] then Judge(server, e, row, BindValues(bindings)) else Errs
  }

  /**
   * The compiled text, lexed, parsed by precedence and evaluated in three-valued logic
   * under the compiled bindings, accepts exactly the rows the condition holds of; it never
   * fails on a row of the table.
   */
  lemma {:induction false} CompiledConditionMeans(server: Server, fields: FieldMap, c: Condition, row: Row)
    requires ValidCondition(c) && ConditionFragment(fields, c, 0).Ok? && TypedRow(fields, row)
    ensures var q := ConditionFragment(fields, c, 0).value;
            Verdicts(server, q.sql, q.bindings, row)
            == AcceptsIf(Holds(server, fields, c, RecordOf(fields, row)))
  {
    var q := ConditionFragment(fields, c, 0).value;
    TextRoundTrip(fields, c, 0, "");
    assert q.sql + "" == q.sql;
    ConditionMeans(server, fields, c, 0, row, BindValues(q.bindings));
  }

  // ----- When a condition compiles -----

  predicate OperandsFit(kind: PgScalarKind, op: Operator, value: Option<ScalarValue>)
    requires OperandPresent(op, value)
  {
    if op.IsNull? || op.IsNotNull? then true
    else if op.In? || op.NotIn? then forall v | v in value.value.values :: Fits(kind, v)
    else Fits(kind, value.value)
  }

  /** What a caller can check of a condition leaf by leaf. */
  predicate Compilable(fields: FieldMap, c: Condition)
    requires ValidCondition(c)
  {
    match c
    case Group(_, cs) => forall i | 0 <= i < |cs| :: Compilable(fields, cs[i])
    case Predicate(f, op, value) =>
      && f in fields
      && (op.Like? ==> fields[f].kind.Text?)
      && OperandsFit(fields[f].kind, op, value)
  }

  lemma {:induction false} ListRefusal(kind: PgScalarKind, values: seq<ScalarValue>, i: nat, n: nat)
    requires i <= |values|
    ensures var r := ListFragment(kind, values, i, n); r.Err? ==> r.kind == Validation
    decreases |values| - i
  {
    if i < |values| {
      ListRefusal(kind, values, i + 1, n + 1);
    }
  }

  lemma {:induction false} PredicateCompilesExactlyWhen(column: PgColumn, op: Operator, value: Option<ScalarValue>, n: nat)
    requires OperandPresent(op, value)
    ensures PredicateFragment(column, op, value, n).Ok?
       <==> (op.Like? ==> column.kind.Text?) && OperandsFit(column.kind, op, value)
    ensures var r := PredicateFragment(column, op, value, n); r.Err? ==> r.kind == Validation
  {
    if op.In? || op.NotIn? {
      ListBindings(column.kind, value.value.values, 0, n);
      ListRefusal(column.kind, value.value.values, 0, n);
      forall v ensures NormalizeBinding(column.kind, v).Ok? <==> Fits(column.kind, v) {
        NormalizesIfFits(column.kind, v);
      }
    } else if !op.IsNull? && !op.IsNotNull? {
      NormalizesIfFits(column.kind, value.value);
    }
  }

  lemma {:induction false} CompilesExactlyWhen(fields: FieldMap, c: Condition, n: nat)
    requires ValidCondition(c)
    ensures ConditionFragment(fields, c, n).Ok? <==> Compilable(fields, c)
    ensures var r := ConditionFragment(fields, c, n); r.Err? ==> r.kind == Validation
    decreases c, 1
  {
    match c
    case Group(operator, cs) => ChildrenCompileExactlyWhen(fields, operator, cs, 0, n);
    case Predicate(f, op, value) =>
      if f in fields {
        PredicateCompilesExactlyWhen(fields[f], op, value, n);
      }
  }

  lemma {:induction false} ChildrenCompileExactlyWhen(
    fields: FieldMap, operator: LogicalOperator, cs: seq<Condition>, i: nat, n: nat)
    requires i <= |cs| && forall j | 0 <= j < |cs| :: ValidCondition(cs[j])
    ensures ChildrenFragment(fields, operator, cs, i, n).Ok?
       <==> forall j | i <= j < |cs| :: Compilable(fields, cs[j])
    ensures var r := ChildrenFragment(fields, operator, cs, i, n); r.Err? ==> r.kind == Validation
    decreases cs, 0, |cs| - i
  {
    if i < |cs| {
      CompilesExactlyWhen(fields, cs[i], n);
      ChildrenOutcome(fields, operator, cs, i, n);
      var first := ConditionFragment(fields, cs[i], n);
      if first.Ok? {
        ChildrenCompileExactlyWhen(fields, operator, cs, i + 1, n + |first.value.bindings|);
      }
      assert (forall j | i <= j < |cs| :: Compilable(fields, cs[j]))
        <==> Compilable(fields, cs[i]) && (forall j | i + 1 <= j < |cs| :: Compilable(fields, cs[j]));
    }
  }

  // ----- More mappings -----

  /** Mapping further fields never changes what a condition that compiles is compiled to. */
  lemma {:induction false} MoreFieldsChangeNothing(fields: FieldMap, more: FieldMap, c: Condition, n: nat)
    requires Extends(fields, more) && ConditionFragment(fields, c, n).Ok?
    ensures ConditionFragment(more, c, n) == ConditionFragment(fields, c, n)
    decreases c, 1
  {
    if c.Group? {
      MoreFieldsChangeNoChild(fields, more, c.operator, c.conditions, 0, n);
    }
  }

  lemma {:induction false} MoreFieldsChangeNoChild(
    fields: FieldMap, more: FieldMap, operator: LogicalOperator, cs: seq<Condition>, i: nat, n: nat)
    requires Extends(fields, more) && i <= |cs| && ChildrenFragment(fields, operator, cs, i, n).Ok?
    ensures ChildrenFragment(more, operator, cs, i, n) == ChildrenFragment(fields, operator, cs, i, n)
    decreases cs, 0, |cs| - i
  {
    if i < |cs| {
      MoreFieldsChangeNothing(fields, more, cs[i], n);
      var child := ChildFragment(fields, operator, cs, i, n).value;
      MoreFieldsChangeNoChild(fields, more, operator, cs, i + 1, n + |child.bindings|);
    }
  }
}
