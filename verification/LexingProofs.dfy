// The text of a compiled condition splits into exactly its intended tokens, in front of
// any clause that may follow it.

module LexingProofs {
  import opened Results
  import opened Identifiers
  import opened Decimals
  import opened Mapping
  import opened Values
  import opened Conditions
  import opened Compiler
  import opened SqlLexer
  import opened Intended

  // ----- Key words and punctuation -----

  predicate BareWord(w: string) {
    w != "" && IdentStart(w[0]) && forall i | 0 <= i < |w| :: WordPart(w[i])
  }

  lemma {:induction false} WordLexes(w: string)
    requires BareWord(w)
    ensures Lexes(w, [TWord(w)])
  {
    forall rest | Boundary(rest) ensures Lex(w + rest) == [TWord(w)] + Lex(rest) {
      WordFirst(w, rest);
    }
  }

  /** A word set off by a blank in front. */
  lemma {:induction false} SpacedWordLexes(w: string)
    requires BareWord(w)
    ensures Lexes(" " + w, [TWord(w)])
  {
    forall rest | Boundary(rest) ensures Lex(" " + w + rest) == [TWord(w)] + Lex(rest) {
      assert " " + w + rest == " " + (w + rest);
      BlankFirst(w + rest);
      WordFirst(w, rest);
    }
  }

  lemma {:induction false} BlankClosed()
    ensures Closed(" ", [])
  {
    forall rest ensures Lex(" " + rest) == [] + Lex(rest) {
      BlankFirst(rest);
      assert [] + Lex(rest) == Lex(rest);
    }
  }

  lemma {:induction false} SymClosed(c: char)
    requires SymChar(c)
    ensures Closed([c], [TSym(c)])
  {
    forall rest ensures Lex([c] + rest) == [TSym(c)] + Lex(rest) {
      SymFirst(c, rest);
    }
  }

  lemma {:induction false} CommaClosed()
    ensures Closed(", ", [TSym(',')])
  {
    SymClosed(',');
    BlankClosed();
    ThenClosed(",", [TSym(',')], " ", []);
    assert "," + " " == ", ";
  }

  /** A blank, a word and a blank: nothing glues to it. */
  lemma {:induction false} SetOffWordClosed(w: string)
    requires BareWord(w)
    ensures Closed(" " + w + " ", [TWord(w)])
  {
    SpacedWordLexes(w);
    BlankClosed();
    ThenClosed(" " + w, [TWord(w)], " ", []);
  }

  lemma {:induction false} SetOffOpClosed(op: string)
    requires op != "" && forall i | 0 <= i < |op| :: OpChar(op[i])
    ensures Closed(" " + op + " ", [TOp(op)])
  {
    forall rest ensures Lex(" " + op + " " + rest) == [TOp(op)] + Lex(rest) {
      assert " " + op + " " + rest == " " + (op + (" " + rest));
      BlankFirst(op + (" " + rest));
      OpFirst(op, " " + rest);
      BlankFirst(rest);
    }
  }

  lemma {:induction false} TwoWordsLex(v: string, w: string)
    requires BareWord(v) && BareWord(w)
    ensures Lexes(" " + v + (" " + w), [TWord(v), TWord(w)])
  {
    SpacedWordLexes(v);
    SpacedWordLexes(w);
    ThenLexes(" " + v, [TWord(v)], " " + w, [TWord(w)]);
  }

  lemma {:induction false} IsNullLexes()
    ensures Lexes(" IS NULL", [TWord("IS"), TWord("NULL")])
  {
    TwoWordsLex("IS", "NULL");
    assert " IS NULL" == " " + "IS" + (" " + "NULL");
  }

  lemma {:induction false} IsNotNullLexes()
    ensures Lexes(" IS NOT NULL", [TWord("IS"), TWord("NOT"), TWord("NULL")])
  {
    SetOffWordClosed("IS");
    assert " " + "IS" + " " == " IS ";
    NotNullLexes();
    ThenLexes(" IS ", [TWord("IS")], "NOT NULL", [TWord("NOT"), TWord("NULL")]);
    assert " IS " + "NOT NULL" == " IS NOT NULL";
  }

  lemma {:induction false} NotNullLexes()
    ensures Lexes("NOT NULL", [TWord("NOT"), TWord("NULL")])
  {
    WordLexes("NOT");
    SpacedWordLexes("NULL");
    ThenLexes("NOT", [TWord("NOT")], " " + "NULL", [TWord("NULL")]);
    assert "NOT" + (" " + "NULL") == "NOT NULL";
  }

  lemma {:induction false} InOpenClosed()
    ensures Closed(" IN (", [TWord("IN"), TSym('(')])
  {
    assert " IN (" == " " + "IN" + " " + "(";
    SetOffWordClosed("IN");
    SymClosed('(');
    ClosedAs(" " + "IN" + " ", [TWord("IN")], "(", [TSym('(')], " IN (", [TWord("IN"), TSym('(')]);
  }

  lemma {:induction false} NotInOpenClosed()
    ensures Closed(" NOT IN (", [TWord("NOT"), TWord("IN"), TSym('(')])
  {
    InOpenClosed();
    SpacedWordLexes("NOT");
    assert " " + "NOT" == " NOT";
    ThenClosed(" NOT", [TWord("NOT")], " IN (", [TWord("IN"), TSym('(')]);
    assert " NOT IN (" == " NOT" + " IN (";
  }

  lemma {:induction false} OpenClosed(negated: bool)
    ensures Closed(if negated then " NOT IN (" else " IN (", OpenTokens(negated))
  {
    if negated {
      NotInOpenClosed();
    } else {
      InOpenClosed();
    }
  }

  lemma {:induction false} SeparatorClosed(operator: LogicalOperator)
    ensures Closed(Separator(operator), [SeparatorToken(operator)])
  {
    SetOffWordClosed("AND");
    SetOffWordClosed("OR");
    assert " AND " == " " + "AND" + " ";
    assert " OR " == " " + "OR" + " ";
  }

  lemma {:induction false} ComparisonTextClosed(op: Operator)
    requires !op.In? && !op.NotIn? && !op.IsNull? && !op.IsNotNull?
    ensures Closed(ComparisonText(op), [ComparisonToken(op)])
  {
    match op
    case Eq => SetOffOpClosed("="); assert " = " == " " + "=" + " ";
    case Ne => SetOffOpClosed("<>"); assert " <> " == " " + "<>" + " ";
    case Gt => SetOffOpClosed(">"); assert " > " == " " + ">" + " ";
    case Gte => SetOffOpClosed(">="); assert " >= " == " " + ">=" + " ";
    case Lt => SetOffOpClosed("<"); assert " < " == " " + "<" + " ";
    case Lte => SetOffOpClosed("<="); assert " <= " == " " + "<=" + " ";
    case Like => SetOffWordClosed("LIKE"); assert " LIKE " == " " + "LIKE" + " ";
  }

  lemma {:induction false} EscapeLexes()
    ensures Lexes(" ESCAPE ''", [TWord("ESCAPE"), TString("")])
  {
    assert " ESCAPE ''" == " " + "ESCAPE" + " " + "''";
    SetOffWordClosed("ESCAPE");
    EmptyStringLexes();
    LexesAs(" " + "ESCAPE" + " ", [TWord("ESCAPE")], "''", [TString("")], " ESCAPE ''", [TWord("ESCAPE"), TString("")]);
  }

  lemma {:induction false} EmptyStringLexes()
    ensures Lexes("''", [TString("")])
  {
    forall rest | Boundary(rest) ensures Lex("''" + rest) == [TString("")] + Lex(rest) {
      EmptyStringFirst(rest);
    }
  }

  // ----- Columns and placeholders -----

  lemma {:induction false} QuotedLexes(id: PgIdentifier)
    ensures Lexes(Quoted(id), [TQuoted(id)])
  {
    forall rest | Boundary(rest) ensures Lex(Quoted(id) + rest) == [TQuoted(id)] + Lex(rest) {
      QuotedFirst(id, rest);
    }
  }

  lemma {:induction false} Prepended(a: seq<Token>, b: seq<Token>, end: seq<Token>)
    ensures a + (b + end) == a + b + end
  {
  }

  lemma {:induction false} CastThenWord(ty: string, rest: string)
    requires BareWord(ty) && Boundary(rest)
    ensures Lex("::" + (ty + rest)) == [TCast, TWord(ty)] + Lex(rest)
  {
    CastFirst(ty + rest);
    WordFirst(ty, rest);
    Prepended([TCast], [TWord(ty)], Lex(rest));
    assert [TCast] + [TWord(ty)] == [TCast, TWord(ty)];
  }

  lemma {:induction false} CastParamFirst(index: nat, ty: string, rest: string)
    requires BareWord(ty) && Boundary(rest)
    ensures Lex("$" + NatText(index) + ("::" + (ty + rest))) == [TParam(index), TCast, TWord(ty)] + Lex(rest)
  {
    var after := "::" + (ty + rest);
    assert after[0] == ':';
    ParamFirst(index, after);
    CastThenWord(ty, rest);
    Prepended([TParam(index)], [TCast, TWord(ty)], Lex(rest));
    assert [TParam(index)] + [TCast, TWord(ty)] == [TParam(index), TCast, TWord(ty)];
  }

  lemma {:induction false} CastQuotedFirst(id: PgIdentifier, ty: string, rest: string)
    requires BareWord(ty) && Boundary(rest)
    ensures Lex(Quoted(id) + ("::" + (ty + rest))) == [TQuoted(id), TCast, TWord(ty)] + Lex(rest)
  {
    var after := "::" + (ty + rest);
    assert after[0] == ':';
    QuotedFirst(id, after);
    CastThenWord(ty, rest);
    Prepended([TQuoted(id)], [TCast, TWord(ty)], Lex(rest));
    assert [TQuoted(id)] + [TCast, TWord(ty)] == [TQuoted(id), TCast, TWord(ty)];
  }

  lemma {:induction false} CastTextGrouped(head: string, ty: string, rest: string)
    ensures head + ("::" + ty) + rest == head + ("::" + (ty + rest))
  {
    Assoc(head, "::" + ty, rest);
    Assoc("::", ty, rest);
  }

  lemma {:induction false} NumericColumnLexes(id: PgIdentifier)
    ensures Lexes(Quoted(id) + "::numeric", [TQuoted(id), TCast, TWord("numeric")])
  {
    assert "::" + "numeric" == "::numeric";
    forall rest | Boundary(rest)
      ensures Lex(Quoted(id) + "::numeric" + rest) == [TQuoted(id), TCast, TWord("numeric")] + Lex(rest)
    {
      CastTextGrouped(Quoted(id), "numeric", rest);
      CastQuotedFirst(id, "numeric", rest);
    }
  }

  lemma {:induction false} CollationLexes()
    ensures Lexes(" COLLATE \"C\"", [TWord("COLLATE"), TQuoted("C")])
  {
    assert " COLLATE \"C\"" == " " + "COLLATE" + " " + Quoted("C");
    SetOffWordClosed("COLLATE");
    QuotedLexes("C");
    LexesAs(" " + "COLLATE" + " ", [TWord("COLLATE")], Quoted("C"), [TQuoted("C")],
            " COLLATE \"C\"", [TWord("COLLATE"), TQuoted("C")]);
  }

  lemma {:induction false} ColumnLexes(column: PgColumn)
    ensures Lexes(ColumnExpression(column), ColumnTokens(column))
  {
    var id := column.identifier;
    QuotedLexes(id);
    if column.kind.Numeric? {
      NumericColumnLexes(id);
    } else if column.kind.Text? {
      CollationLexes();
      ThenLexes(Quoted(id), [TQuoted(id)], " COLLATE \"C\"", [TWord("COLLATE"), TQuoted("C")]);
    }
  }

  lemma {:induction false} CastNamesAreWords(kind: PgScalarKind)
    ensures PlaceholderCast(kind).Some? ==> BareWord(PlaceholderCast(kind).value)
  {
  }

  lemma {:induction false} PlaceholderLexes(index: nat, cast: Option<string>)
    requires cast.Some? ==> BareWord(cast.value)
    ensures Lexes(Placeholder(index, cast), ParamTokens(index, cast))
  {
    var head := "$" + NatText(index);
    forall rest | Boundary(rest)
      ensures Lex(Placeholder(index, cast) + rest) == ParamTokens(index, cast) + Lex(rest)
    {
      if cast.Some? {
        CastTextGrouped(head, cast.value, rest);
        CastParamFirst(index, cast.value, rest);
      } else {
        assert head + "" == head;
        ParamFirst(index, rest);
      }
    }
  }

  // ----- Conditions -----

  lemma {:induction false} ItemLexes(kind: PgScalarKind, i: nat, n: nat)
    ensures Lexes(Comma(i) + Placeholder(n + 1, PlaceholderCast(kind)),
                  CommaTokens(i) + ParamTokens(n + 1, PlaceholderCast(kind)))
  {
    CastNamesAreWords(kind);
    PlaceholderLexes(n + 1, PlaceholderCast(kind));
    if i > 0 {
      CommaClosed();
    } else {
      NothingLexes();
    }
    ThenLexes(Comma(i), CommaTokens(i), Placeholder(n + 1, PlaceholderCast(kind)),
              ParamTokens(n + 1, PlaceholderCast(kind)));
  }

  lemma {:induction false} ListLexes(kind: PgScalarKind, values: seq<ScalarValue>, i: nat, n: nat)
    requires i <= |values| && ListFragment(kind, values, i, n).Ok?
    ensures var q := ListFragment(kind, values, i, n).value;
            && Lexes(q.sql, ItemTokens(PlaceholderCast(kind), |values|, i, n))
            && |q.bindings| == |values| - i
            && (0 < i < |values| ==> q.sql != "" && Boundary(q.sql))
    decreases |values| - i
  {
    if i == |values| {
      NothingLexes();
      ClosedLexes("", []);
    } else {
      var cast := PlaceholderCast(kind);
      var item := ListItem(kind, values[i], i, n).value;
      var rest := ListFragment(kind, values, i + 1, n + 1).value;
      ItemLexes(kind, i, n);
      ListLexes(kind, values, i + 1, n + 1);
      var tokens := CommaTokens(i) + ParamTokens(n + 1, cast);
      if i + 1 == |values| {
        assert item.sql + rest.sql == item.sql;
        assert tokens + [] == tokens;
      } else {
        ThenLexes(item.sql, tokens, rest.sql, ItemTokens(cast, |values|, i + 1, n + 1));
      }
    }
  }

  lemma {:induction false} SetLexes(column: PgColumn, negated: bool, values: seq<ScalarValue>, n: nat)
    requires SetFragment(column, negated, values, n).Ok?
    ensures Lexes(SetFragment(column, negated, values, n).value.sql, SetTokens(column, negated, |values|, n))
    ensures |SetFragment(column, negated, values, n).value.bindings| == |values|
  {
    ColumnLexes(column);
    if values == [] {
      IsNotNullLexes();
      WordLexes("FALSE");
      ThenLexes(ColumnExpression(column), ColumnTokens(column),
                " IS NOT NULL", [TWord("IS"), TWord("NOT"), TWord("NULL")]);
    } else {
      var open := if negated then " NOT IN (" else " IN (";
      var items := ListFragment(column.kind, values, 0, n).value;
      var itemTokens := ItemTokens(PlaceholderCast(column.kind), |values|, 0, n);
      OpenClosed(negated);
      ListLexes(column.kind, values, 0, n);
      SymClosed(')');
      ThenClosed(ColumnExpression(column), ColumnTokens(column), open, OpenTokens(negated));
      ThenLexes(ColumnExpression(column) + open, ColumnTokens(column) + OpenTokens(negated), items.sql, itemTokens);
      ThenClosed(ColumnExpression(column) + open + items.sql,
                 ColumnTokens(column) + OpenTokens(negated) + itemTokens, ")", [TSym(')')]);
    }
  }

  lemma {:induction false} ComparisonLexes(column: PgColumn, op: Operator, value: ScalarValue, n: nat)
    requires !op.In? && !op.NotIn? && !op.IsNull? && !op.IsNotNull?
    requires ComparisonFragment(column, op, value, n).Ok?
    ensures Lexes(ComparisonFragment(column, op, value, n).value.sql, ComparisonTokens(column, op, n))
  {
    var cast := PlaceholderCast(column.kind);
    var head := ColumnExpression(column) + ComparisonText(op);
    var headTokens := ColumnTokens(column) + [ComparisonToken(op)];
    ColumnLexes(column);
    ComparisonTextClosed(op);
    ThenClosed(ColumnExpression(column), ColumnTokens(column), ComparisonText(op), [ComparisonToken(op)]);
    CastNamesAreWords(column.kind);
    PlaceholderLexes(n + 1, cast);
    ThenLexes(head, headTokens, Placeholder(n + 1, cast), ParamTokens(n + 1, cast));
    if op.Like? {
      EscapeLexes();
      ThenLexes(head + Placeholder(n + 1, cast), headTokens + ParamTokens(n + 1, cast),
                " ESCAPE ''", [TWord("ESCAPE"), TString("")]);
    } else {
      assert headTokens + ParamTokens(n + 1, cast) + [] == headTokens + ParamTokens(n + 1, cast);
    }
  }

  lemma {:induction false} PredicateLexes(column: PgColumn, op: Operator, value: Option<ScalarValue>, n: nat)
    requires OperandPresent(op, value) && PredicateFragment(column, op, value, n).Ok?
    ensures Lexes(PredicateFragment(column, op, value, n).value.sql, PredicateTokens(column, op, value, n))
    ensures |PredicateFragment(column, op, value, n).value.bindings| == PredicateSlots(op, value)
  {
    ColumnLexes(column);
    if op.IsNull? {
      IsNullLexes();
      ThenLexes(ColumnExpression(column), ColumnTokens(column), " IS NULL", [TWord("IS"), TWord("NULL")]);
    } else if op.IsNotNull? {
      IsNotNullLexes();
      ThenLexes(ColumnExpression(column), ColumnTokens(column),
                " IS NOT NULL", [TWord("IS"), TWord("NOT"), TWord("NULL")]);
    } else if op.In? || op.NotIn? {
      SetLexes(column, op.NotIn?, value.value.values, n);
    } else {
      ComparisonLexes(column, op, value.value, n);
    }
  }

  /** Only conditions over mapped fields compile. */
  lemma {:induction false} CompiledIsMapped(fields: FieldMap, c: Condition, n: nat)
    requires ConditionFragment(fields, c, n).Ok?
    ensures Mapped(fields, c)
    decreases c
  {
    if c.Group? {
      ChildrenMapped(fields, c.operator, c.conditions, 0, n);
    }
  }

  lemma {:induction false} ChildrenMapped(
    fields: FieldMap, operator: LogicalOperator, cs: seq<Condition>, i: nat, n: nat)
    requires i <= |cs| && ChildrenFragment(fields, operator, cs, i, n).Ok?
    ensures forall j | i <= j < |cs| :: Mapped(fields, cs[j])
    decreases cs, |cs| - i
  {
    if i < |cs| {
      var k := FirstChildMapped(fields, operator, cs, i, n);
      ChildrenMapped(fields, operator, cs, i + 1, k);
    }
  }

  lemma {:induction false} FirstChildMapped(
    fields: FieldMap, operator: LogicalOperator, cs: seq<Condition>, i: nat, n: nat) returns (k: nat)
    requires i < |cs| && ChildrenFragment(fields, operator, cs, i, n).Ok?
    ensures Mapped(fields, cs[i]) && ChildrenFragment(fields, operator, cs, i + 1, k).Ok?
    decreases cs, 0
  {
    var child, _ := ChildrenSplit(fields, operator, cs, i, n);
    k := n + |child.bindings|;
    CompiledIsMapped(fields, cs[i], n);
  }

  /** Text and tokens of a whole condition agree, and each placeholder has its binding. */
  lemma {:induction false} ConditionLexes(fields: FieldMap, c: Condition, n: nat)
    requires ValidCondition(c) && Mapped(fields, c) && ConditionFragment(fields, c, n).Ok?
    ensures Lexes(ConditionFragment(fields, c, n).value.sql, ConditionTokens(fields, c, n))
    ensures |ConditionFragment(fields, c, n).value.bindings| == Slots(c)
    decreases c, 1
  {
    match c
    case Group(operator, cs) =>
      var inner := ChildrenFragment(fields, operator, cs, 0, n).value;
      var innerTokens := Joined(operator, TokensOf(fields, cs, 0, n), 0);
      ChildrenLex(fields, operator, cs, 0, n);
      SymClosed('(');
      SymClosed(')');
      ThenLexes("(", [TSym('(')], inner.sql, innerTokens);
      ThenClosed("(" + inner.sql, [TSym('(')] + innerTokens, ")", [TSym(')')]);
    case Predicate(field, op, value) =>
      PredicateLexes(fields[field], op, value, n);
  }

  /** A child's text lexes, starts at a boundary unless it is the first, and is not empty then. */
  ghost predicate Piece(q: PgCompiledQuery, tokens: seq<Token>, slots: nat, first: bool) {
    Lexes(q.sql, tokens) && |q.bindings| == slots && (first || (q.sql != "" && Boundary(q.sql)))
  }

  lemma {:induction false} LeadLexes(operator: LogicalOperator, i: nat, text: string, tokens: seq<Token>)
    requires Lexes(text, tokens)
    ensures Lexes((if i > 0 then Separator(operator) else "") + text, LeadTokens(operator, i) + tokens)
    ensures i > 0 ==> Separator(operator) + text != "" && Boundary(Separator(operator) + text)
  {
    if i > 0 {
      SeparatorClosed(operator);
    } else {
      NothingLexes();
    }
    ThenLexes(if i > 0 then Separator(operator) else "", LeadTokens(operator, i), text, tokens);
  }

  lemma {:induction false} ChildLexes(
    fields: FieldMap, operator: LogicalOperator, cs: seq<Condition>, i: nat, n: nat)
    requires i < |cs| && Ready(fields, cs)
    requires ChildFragment(fields, operator, cs, i, n).Ok?
    ensures Piece(ChildFragment(fields, operator, cs, i, n).value,
                  LeadTokens(operator, i) + ConditionTokens(fields, cs[i], n), Slots(cs[i]), i == 0)
    decreases cs, 0, 0
  {
    ConditionLexes(fields, cs[i], n);
    LeadLexes(operator, i, ConditionFragment(fields, cs[i], n).value.sql, ConditionTokens(fields, cs[i], n));
  }

  lemma {:induction false} ChildrenLex(
    fields: FieldMap, operator: LogicalOperator, cs: seq<Condition>, i: nat, n: nat)
    requires i <= |cs| && Ready(fields, cs)
    requires ChildrenFragment(fields, operator, cs, i, n).Ok?
    ensures Piece(ChildrenFragment(fields, operator, cs, i, n).value,
                  Joined(operator, TokensOf(fields, cs, i, n), i), SlotsFrom(cs, i), i == 0 || i == |cs|)
    decreases cs, 1, |cs| - i
  {
    if i == |cs| {
      NothingIsAPiece();
    } else {
      var whole, child, rest, s, t := FirstChildLexes(fields, operator, cs, i, n);
      ChildrenLex(fields, operator, cs, i + 1, n + Slots(cs[i]));
      JoinPieces(whole, s + t, SlotsFrom(cs, i), child, rest, s, t, Slots(cs[i]), SlotsFrom(cs, i + 1),
                 i == 0, i + 1 == |cs|);
    }
  }

  lemma {:induction false} FirstChildLexes(
    fields: FieldMap, operator: LogicalOperator, cs: seq<Condition>, i: nat, n: nat)
    returns (whole: PgCompiledQuery, child: PgCompiledQuery, rest: PgCompiledQuery, s: seq<Token>, t: seq<Token>)
    requires i < |cs| && Ready(fields, cs)
    requires ChildrenFragment(fields, operator, cs, i, n).Ok?
    ensures ChildrenFragment(fields, operator, cs, i, n) == Ok(whole)
    ensures whole == PgCompiledQuery(child.sql + rest.sql, child.bindings + rest.bindings)
    ensures Piece(child, s, Slots(cs[i]), i == 0)
    ensures ChildrenFragment(fields, operator, cs, i + 1, n + Slots(cs[i])) == Ok(rest)
    ensures Joined(operator, TokensOf(fields, cs, i, n), i) == s + t
    ensures Joined(operator, TokensOf(fields, cs, i + 1, n + Slots(cs[i])), i + 1) == t
    ensures i + 1 == |cs| ==> rest.sql == "" && t == []
    decreases cs, 1, 0
  {
    child, rest := ChildrenSplit(fields, operator, cs, i, n);
    whole := PgCompiledQuery(child.sql + rest.sql, child.bindings + rest.bindings);
    ChildLexes(fields, operator, cs, i, n);
    s, t := TokensSplit(fields, operator, cs, i, n);
  }

  /** The tokens of a group's remaining children: one child's, then the others'. */
  lemma {:induction false} TokensSplit(fields: FieldMap, operator: LogicalOperator, cs: seq<Condition>, i: nat, n: nat)
    returns (s: seq<Token>, t: seq<Token>)
    requires i < |cs| && Ready(fields, cs)
    ensures s == LeadTokens(operator, i) + ConditionTokens(fields, cs[i], n)
    ensures t == Joined(operator, TokensOf(fields, cs, i + 1, n + Slots(cs[i])), i + 1)
    ensures i + 1 == |cs| ==> t == []
    ensures Joined(operator, TokensOf(fields, cs, i, n), i) == s + t
    ensures SlotsFrom(cs, i) == Slots(cs[i]) + SlotsFrom(cs, i + 1)
  {
    s := LeadTokens(operator, i) + ConditionTokens(fields, cs[i], n);
    t := Joined(operator, TokensOf(fields, cs, i + 1, n + Slots(cs[i])), i + 1);
    JoinedSplits(operator, ConditionTokens(fields, cs[i], n), TokensOf(fields, cs, i + 1, n + Slots(cs[i])), i);
  }

  lemma {:induction false} JoinedSplits(operator: LogicalOperator, piece: seq<Token>, pieces: seq<seq<Token>>, i: nat)
    ensures Joined(operator, [piece] + pieces, i) == LeadTokens(operator, i) + piece + Joined(operator, pieces, i + 1)
  {
    assert ([piece] + pieces)[1..] == pieces;
  }

  lemma {:induction false} NothingIsAPiece()
    ensures Piece(PgCompiledQuery("", []), [], 0, true)
  {
    NothingLexes();
    ClosedLexes("", []);
  }

  lemma {:induction false} JoinPieces(
    whole: PgCompiledQuery, tokens: seq<Token>, slots: nat,
    a: PgCompiledQuery, b: PgCompiledQuery, s: seq<Token>, t: seq<Token>, m: nat, k: nat, first: bool, last: bool)
    requires Piece(a, s, m, first) && Piece(b, t, k, last)
    requires last ==> b.sql == "" && t == []
    requires whole == PgCompiledQuery(a.sql + b.sql, a.bindings + b.bindings) && tokens == s + t && slots == m + k
    ensures Piece(whole, tokens, slots, first)
  {
    if last {
      assert a.sql + b.sql == a.sql;
      assert s + t == s;
    } else {
      ThenLexes(a.sql, s, b.sql, t);
    }
  }
}
