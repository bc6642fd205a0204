// Parsing undoes compiling: the tokens of a compiled condition, followed by any clause,
// parse to the intended expression and leave that clause untouched.

module ParsingProofs {
  import opened Results
  import opened Mapping
  import opened Values
  import opened Conditions
  import opened Compiler
  import opened SqlLexer
  import opened SqlGrammar
  import opened Intended

  /** The tokens that may come after an expression. */
  predicate EndsAt(t: Token) {
    || t == TSym(')') || t == TSym(',')
    || t == TWord("AND") || t == TWord("OR")
    || t == TWord("WHERE") || t == TWord("ORDER") || t == TWord("ASC") || t == TWord("DESC")
    || t == TWord("LIMIT") || t == TWord("OFFSET") || t == TWord("RETURNING")
  }

  predicate Ends(rest: seq<Token>) {
    rest == [] || EndsAt(rest[0])
  }

  // ----- Columns and placeholders -----

  lemma {:induction false} ColumnParses(column: PgColumn, rest: seq<Token>)
    requires !Starts(rest, TCast) && !Starts(rest, TWord("COLLATE"))
    ensures ParseCollate(ColumnTokens(column) + rest) == Done(ColumnExpr(column), rest)
  {
    var ts := ColumnTokens(column) + rest;
    var name := EColumn(column.identifier);
    assert ParsePrimary(ts) == Done(name, ts[1..]);
    if column.kind.Numeric? {
      assert ts[1..] == [TCast, TWord("numeric")] + rest;
      assert ts[1..][2..] == rest;
      assert CastTail(ECast(name, "numeric"), rest) == Done(ECast(name, "numeric"), rest);
      assert ParseCast(ts) == Done(ECast(name, "numeric"), rest);
    } else if column.kind.Text? {
      assert ts[1..] == [TWord("COLLATE"), TQuoted("C")] + rest;
      assert ParseCast(ts) == Done(name, ts[1..]);
      assert ts[1..][2..] == rest;
      assert CollateTail(ECollate(name, "C"), rest) == Done(ECollate(name, "C"), rest);
    } else {
      assert ts[1..] == rest;
      assert ParseCast(ts) == Done(name, rest);
    }
  }

  lemma {:induction false} ParamParses(index: nat, cast: Option<string>, rest: seq<Token>)
    requires !Starts(rest, TCast) && !Starts(rest, TWord("COLLATE"))
    ensures ParseCollate(ParamTokens(index, cast) + rest) == Done(ParamExpr(index, cast), rest)
  {
    var ts := ParamTokens(index, cast) + rest;
    assert ParsePrimary(ts) == Done(EParam(index), ts[1..]);
    if cast.Some? {
      assert ts[1..] == [TCast, TWord(cast.value)] + rest;
      assert ts[1..][2..] == rest;
      var e := ECast(EParam(index), cast.value);
      assert CastTail(e, rest) == Done(e, rest);
      assert ParseCast(ts) == Done(e, rest);
    } else {
      assert ts[1..] == rest;
      assert ParseCast(ts) == Done(EParam(index), rest);
    }
  }

  // ----- Climbing the precedence levels -----

  lemma {:induction false} ComparisonClimbs(ts: seq<Token>, e: Expr, rest: seq<Token>)
    requires ParseMember(ts) == Done(e, rest) && (rest == [] || !rest[0].TOp?)
    ensures ParseComparison(ts) == Done(e, rest)
  {
  }

  lemma {:induction false} NotClimbs(ts: seq<Token>, e: Expr, rest: seq<Token>)
    requires ParseComparison(ts) == Done(e, rest) && Ends(rest) && !Starts(ts, TWord("NOT"))
    ensures ParseNot(ts) == Done(e, rest)
  {
    assert IsTail(e, rest) == Done(e, rest);
    assert ParseIs(ts) == Done(e, rest);
  }

  lemma {:induction false} AtomClimbs(ts: seq<Token>, e: Expr, rest: seq<Token>)
    requires ParseCollate(ts) == Done(e, rest) && Ends(rest) && !Starts(ts, TWord("NOT"))
    ensures ParseNot(ts) == Done(e, rest)
  {
    assert ParseMember(ts) == Done(e, rest);
    ComparisonClimbs(ts, e, rest);
    NotClimbs(ts, e, rest);
  }

  /** At the end of an item nothing binds looser. */
  lemma {:induction false} ExprClimbs(ts: seq<Token>, e: Expr, rest: seq<Token>)
    requires ParseNot(ts) == Done(e, rest)
    requires !Starts(rest, TWord("AND")) && !Starts(rest, TWord("OR"))
    ensures ParseExpr(ts) == Done(e, rest)
  {
    assert ParseAnd(ts) == Done(e, rest);
  }

  // ----- Predicates -----

  /** A null test after an operand that stands where a condition may end. */
  lemma {:induction false} NullTestClimbs(ts: seq<Token>, e: Expr, after: seq<Token>, negated: bool, rest: seq<Token>)
    requires ParseCollate(ts) == Done(e, after) && !Starts(ts, TWord("NOT"))
    requires after == NullTest(negated) + rest && Ends(rest)
    ensures ParseNot(ts) == Done(EIsNull(e, negated), rest)
  {
    assert ParseMember(ts) == Done(e, after);
    ComparisonClimbs(ts, e, after);
    NullTestDropped(negated, rest);
    assert IsTail(EIsNull(e, negated), rest) == Done(EIsNull(e, negated), rest);
    assert ParseIs(ts) == Done(EIsNull(e, negated), rest);
  }

  function NullTest(negated: bool): seq<Token> {
    if negated then [TWord("IS"), TWord("NOT"), TWord("NULL")] else [TWord("IS"), TWord("NULL")]
  }

  lemma {:induction false} NullTestDropped(negated: bool, rest: seq<Token>)
    ensures var after := NullTest(negated) + rest;
            && Starts(after, TWord("IS"))
            && (if negated then Starts(after[1..], TWord("NOT")) && Starts(after[2..], TWord("NULL")) && after[3..] == rest
                else Starts(after[1..], TWord("NULL")) && after[2..] == rest)
  {
  }

  lemma {:induction false} NullTestParses(column: PgColumn, negated: bool, rest: seq<Token>)
    requires Ends(rest)
    ensures ParseNot(ColumnTokens(column) + NullTest(negated) + rest) == Done(EIsNull(ColumnExpr(column), negated), rest)
  {
    var after := NullTest(negated) + rest;
    Assoc(ColumnTokens(column), NullTest(negated), rest);
    ColumnParses(column, after);
    NullTestClimbs(ColumnTokens(column) + after, ColumnExpr(column), after, negated, rest);
  }

  lemma {:induction false} ItemParses(index: nat, cast: Option<string>, after: seq<Token>)
    requires Starts(after, TSym(',')) || Starts(after, TSym(')'))
    ensures ParseExpr(ParamTokens(index, cast) + after) == Done(ParamExpr(index, cast), after)
  {
    ParamParses(index, cast, after);
    AtomClimbs(ParamTokens(index, cast) + after, ParamExpr(index, cast), after);
    ExprClimbs(ParamTokens(index, cast) + after, ParamExpr(index, cast), after);
  }

  lemma {:induction false} NextItem(cast: Option<string>, count: nat, i: nat, n: nat, rest: seq<Token>)
    requires 0 < i < count
    ensures var ts := ItemTokens(cast, count, i, n) + [TSym(')')] + rest;
            && Starts(ts, TSym(','))
            && ts[1..] == ParamTokens(n + 1, cast) + (ItemTokens(cast, count, i + 1, n + 1) + [TSym(')')] + rest)
  {
    Comma3(ParamTokens(n + 1, cast), ItemTokens(cast, count, i + 1, n + 1), [TSym(')')], rest);
  }

  lemma {:induction false} Comma3(a: seq<Token>, b: seq<Token>, c: seq<Token>, d: seq<Token>)
    ensures ([TSym(',')] + a + b + c + d)[1..] == a + (b + c + d)
  {
  }

  lemma {:induction false} ItemsParse(
    e: Expr, negated: bool, done: seq<Expr>, cast: Option<string>, count: nat, i: nat, n: nat, rest: seq<Token>)
    requires 0 < i <= count
    ensures ItemsTail(e, negated, done, ItemTokens(cast, count, i, n) + [TSym(')')] + rest)
         == Done(EIn(e, negated, done + ItemExprs(cast, count, i, n)), rest)
    decreases count - i
  {
    var ts := ItemTokens(cast, count, i, n) + [TSym(')')] + rest;
    if i == count {
      assert ts[1..] == rest;
      assert done + [] == done;
    } else {
      var after := ItemTokens(cast, count, i + 1, n + 1) + [TSym(')')] + rest;
      NextItem(cast, count, i, n, rest);
      ItemParses(n + 1, cast, after);
      ItemsParse(e, negated, done + [ParamExpr(n + 1, cast)], cast, count, i + 1, n + 1, rest);
      assert done + [ParamExpr(n + 1, cast)] + ItemExprs(cast, count, i + 1, n + 1)
          == done + ItemExprs(cast, count, i, n);
    }
  }

  lemma {:induction false} InParses(e: Expr, negated: bool, cast: Option<string>, count: nat, n: nat, rest: seq<Token>)
    requires count > 0
    ensures InTail(e, negated, [TSym('(')] + ItemTokens(cast, count, 0, n) + [TSym(')')] + rest)
         == Done(EIn(e, negated, ItemExprs(cast, count, 0, n)), rest)
  {
    var ts := [TSym('(')] + ItemTokens(cast, count, 0, n) + [TSym(')')] + rest;
    var first := ParamTokens(n + 1, cast);
    var after := ItemTokens(cast, count, 1, n + 1) + [TSym(')')] + rest;
    FirstItem(cast, count, n);
    assert ts[1..] == first + after;
    ItemParses(n + 1, cast, after);
    ItemsParse(e, negated, [ParamExpr(n + 1, cast)], cast, count, 1, n + 1, rest);
  }

  lemma {:induction false} FirstItem(cast: Option<string>, count: nat, n: nat)
    requires count > 0
    ensures ItemTokens(cast, count, 0, n) == ParamTokens(n + 1, cast) + ItemTokens(cast, count, 1, n + 1)
    ensures ItemExprs(cast, count, 0, n) == [ParamExpr(n + 1, cast)] + ItemExprs(cast, count, 1, n + 1)
  {
    assert CommaTokens(0) + ParamTokens(n + 1, cast) == ParamTokens(n + 1, cast);
  }

  lemma {:induction false} MemberClimbs(ts: seq<Token>, left: Expr, after: seq<Token>, e: Expr, rest: seq<Token>)
    requires ParseCollate(ts) == Done(left, after) && MemberTail(left, after) == Done(e, rest)
    requires Ends(rest) && !Starts(ts, TWord("NOT"))
    ensures ParseNot(ts) == Done(e, rest)
  {
    assert ParseMember(ts) == Done(e, rest);
    ComparisonClimbs(ts, e, rest);
    NotClimbs(ts, e, rest);
  }

  lemma {:induction false} SetTokensGrouped(column: PgColumn, negated: bool, count: nat, n: nat, rest: seq<Token>)
    requires count > 0
    ensures SetTokens(column, negated, count, n) + rest
         == ColumnTokens(column)
            + ((if negated then [TWord("NOT"), TWord("IN")] else [TWord("IN")])
               + ([TSym('(')] + ItemTokens(PlaceholderCast(column.kind), count, 0, n) + [TSym(')')] + rest))
  {
    var word := if negated then [TWord("NOT"), TWord("IN")] else [TWord("IN")];
    assert OpenTokens(negated) == word + [TSym('(')];
    Grouped5(ColumnTokens(column), word, [TSym('(')],
             ItemTokens(PlaceholderCast(column.kind), count, 0, n), [TSym(')')], rest);
  }

  lemma {:induction false} Grouped5(a: seq<Token>, b: seq<Token>, c: seq<Token>, d: seq<Token>, e: seq<Token>, f: seq<Token>)
    ensures a + (b + c) + d + e + f == a + (b + (c + d + e + f))
  {
  }

  lemma {:induction false} SetParses(column: PgColumn, negated: bool, count: nat, n: nat, rest: seq<Token>)
    requires count > 0 && Ends(rest)
    ensures ParseNot(SetTokens(column, negated, count, n) + rest)
         == Done(EIn(ColumnExpr(column), negated, ItemExprs(PlaceholderCast(column.kind), count, 0, n)), rest)
  {
    var cast := PlaceholderCast(column.kind);
    var ts := SetTokens(column, negated, count, n) + rest;
    var items := [TSym('(')] + ItemTokens(cast, count, 0, n) + [TSym(')')] + rest;
    var after := (if negated then [TWord("NOT"), TWord("IN")] else [TWord("IN")]) + items;
    SetTokensGrouped(column, negated, count, n, rest);
    ColumnParses(column, after);
    InParses(ColumnExpr(column), negated, cast, count, n, rest);
    MemberIn(ColumnExpr(column), negated, items);
    MemberClimbs(ts, ColumnExpr(column), after, EIn(ColumnExpr(column), negated, ItemExprs(cast, count, 0, n)), rest);
  }

  lemma {:induction false} MemberIn(e: Expr, negated: bool, items: seq<Token>)
    ensures MemberTail(e, (if negated then [TWord("NOT"), TWord("IN")] else [TWord("IN")]) + items)
         == InTail(e, negated, items)
  {
    var after := (if negated then [TWord("NOT"), TWord("IN")] else [TWord("IN")]) + items;
    if negated {
      assert after[1..] == [TWord("IN")] + items;
      assert after[2..] == items;
    } else {
      assert after[1..] == items;
    }
  }

  lemma {:induction false} ComparisonTokenReads(op: Operator, operand: seq<Token>)
    requires !op.In? && !op.NotIn? && !op.IsNull? && !op.IsNotNull? && !op.Like?
    ensures ComparisonOp([ComparisonToken(op)] + operand) == Done(CompareOpOf(op), operand)
  {
    assert ([ComparisonToken(op)] + operand)[1..] == operand;
  }

  /** A comparison of two operands that stands where a condition may end. */
  lemma {:induction false} CompareClimbs(
    ts: seq<Token>, left: Expr, after: seq<Token>, op: CompareOp, operand: seq<Token>, right: Expr, rest: seq<Token>)
    requires ParseCollate(ts) == Done(left, after) && after != [] && after[0].TOp? && !Starts(ts, TWord("NOT"))
    requires ComparisonOp(after) == Done(op, operand) && ParseCollate(operand) == Done(right, rest) && Ends(rest)
    ensures ParseNot(ts) == Done(ECompare(op, left, right), rest)
  {
    assert ParseMember(ts) == Done(left, after);
    assert ParseMember(operand) == Done(right, rest);
    assert ComparisonOp(rest).Fail?;
    NotClimbs(ts, ECompare(op, left, right), rest);
  }

  lemma {:induction false} Grouped4<T>(a: seq<T>, b: seq<T>, c: seq<T>, d: seq<T>, e: seq<T>)
    ensures a + b + c + d + e == a + (b + (c + (d + e)))
  {
  }

  /** The tokens of a comparison, from its column on. */
  lemma {:induction false} ComparisonGrouped(column: PgColumn, op: Operator, n: nat, rest: seq<Token>)
    requires !op.In? && !op.NotIn? && !op.IsNull? && !op.IsNotNull?
    ensures var ts := ComparisonTokens(column, op, n) + rest;
            && ts == ColumnTokens(column)
                     + ([ComparisonToken(op)]
                        + (ParamTokens(n + 1, PlaceholderCast(column.kind)) + (EscapeTokens(op) + rest)))
            && !Starts(ts, TWord("NOT"))
  {
    Grouped4(ColumnTokens(column), [ComparisonToken(op)], ParamTokens(n + 1, PlaceholderCast(column.kind)),
             EscapeTokens(op), rest);
  }

  lemma {:induction false} CompareParses(column: PgColumn, op: Operator, n: nat, rest: seq<Token>)
    requires !op.In? && !op.NotIn? && !op.IsNull? && !op.IsNotNull? && !op.Like?
    requires Ends(rest)
    ensures ParseNot(ComparisonTokens(column, op, n) + rest)
         == Done(ECompare(CompareOpOf(op), ColumnExpr(column), ParamExpr(n + 1, PlaceholderCast(column.kind))), rest)
  {
    var cast := PlaceholderCast(column.kind);
    var operand := ParamTokens(n + 1, cast) + rest;
    var after := [ComparisonToken(op)] + operand;
    ComparisonGrouped(column, op, n, rest);
    assert EscapeTokens(op) + rest == rest;
    ColumnParses(column, after);
    ComparisonTokenReads(op, operand);
    ParamParses(n + 1, cast, rest);
    CompareClimbs(ComparisonTokens(column, op, n) + rest, ColumnExpr(column), after, CompareOpOf(op), operand,
                  ParamExpr(n + 1, cast), rest);
  }

  lemma {:induction false} EscapeParses(rest: seq<Token>)
    requires Ends(rest)
    ensures var escape := EscapeTokens(Like) + rest;
            Starts(escape, TWord("ESCAPE")) && ParseCollate(escape[1..]) == Done(EString(""), rest)
  {
    var ts := (EscapeTokens(Like) + rest)[1..];
    assert ts == [TString("")] + rest;
    assert ts[1..] == rest;
    assert ParsePrimary(ts) == Done(EString(""), rest);
    assert ParseCast(ts) == Done(EString(""), rest);
  }

  lemma {:induction false} FirstDropped<T>(t: T, ts: seq<T>)
    ensures ([t] + ts)[1..] == ts
  {
  }

  lemma {:induction false} LikeParses(column: PgColumn, n: nat, rest: seq<Token>)
    requires Ends(rest)
    ensures ParseNot(ComparisonTokens(column, Like, n) + rest)
         == Done(ELikeEscape(ColumnExpr(column), ParamExpr(n + 1, PlaceholderCast(column.kind)), EString("")), rest)
  {
    var cast := PlaceholderCast(column.kind);
    var escape := EscapeTokens(Like) + rest;
    var pattern := ParamTokens(n + 1, cast) + escape;
    var after := [TWord("LIKE")] + pattern;
    ComparisonGrouped(column, Like, n, rest);
    ColumnParses(column, after);
    FirstDropped(TWord("LIKE"), pattern);
    ParamParses(n + 1, cast, escape);
    EscapeParses(rest);
    LikeClimbs(ComparisonTokens(column, Like, n) + rest, ColumnExpr(column), after, ParamExpr(n + 1, cast), escape,
               EString(""), rest);
  }

  lemma {:induction false} LikeClimbs(
    ts: seq<Token>, e: Expr, after: seq<Token>, pattern: Expr, escape: seq<Token>, character: Expr, rest: seq<Token>)
    requires ParseCollate(ts) == Done(e, after) && Starts(after, TWord("LIKE")) && !Starts(ts, TWord("NOT"))
    requires ParseCollate(after[1..]) == Done(pattern, escape) && Starts(escape, TWord("ESCAPE"))
    requires ParseCollate(escape[1..]) == Done(character, rest) && Ends(rest)
    ensures ParseNot(ts) == Done(ELikeEscape(e, pattern, character), rest)
  {
    MemberClimbs(ts, e, after, ELikeEscape(e, pattern, character), rest);
  }

  lemma {:induction false} PredicateParses(column: PgColumn, op: Operator, value: Option<ScalarValue>, n: nat, rest: seq<Token>)
    requires OperandPresent(op, value) && Ends(rest)
    ensures ParseNot(PredicateTokens(column, op, value, n) + rest)
         == Done(PredicateExpr(column, op, value, n), rest)
  {
    if op.IsNull? || op.IsNotNull? {
      NullTestParses(column, op.IsNotNull?, rest);
    } else if op.In? || op.NotIn? {
      var count := |value.value.values|;
      if count > 0 {
        SetParses(column, op.NotIn?, count, n, rest);
      } else if op.NotIn? {
        NullTestParses(column, true, rest);
      } else {
        var ts := [TWord("FALSE")] + rest;
        assert ts[1..] == rest;
        assert ParsePrimary(ts) == Done(EBool(false), rest);
        assert ParseCast(ts) == Done(EBool(false), rest);
        AtomClimbs(ts, EBool(false), rest);
      }
    } else if op.Like? {
      LikeParses(column, n, rest);
    } else {
      CompareParses(column, op, n, rest);
    }
  }

  // ----- Conditions -----

  /** A parenthesised expression is a primary. */
  lemma {:induction false} GroupClimbs(inner: seq<Token>, e: Expr, rest: seq<Token>)
    requires ParseExpr(inner + [TSym(')')] + rest) == Done(e, [TSym(')')] + rest)
    requires Ends(rest)
    ensures ParseNot([TSym('(')] + inner + [TSym(')')] + rest) == Done(e, rest)
  {
    var ts := [TSym('(')] + inner + [TSym(')')] + rest;
    assert ts[1..] == inner + [TSym(')')] + rest;
    assert ([TSym(')')] + rest)[1..] == rest;
    assert ParsePrimary(ts) == Done(e, rest);
    assert ParseCast(ts) == Done(e, rest);
    AtomClimbs(ts, e, rest);
  }

  /** `piece` reads as `e` in front of anything that may end a condition. */
  ghost predicate Reads(piece: seq<Token>, e: Expr) {
    forall rest | Ends(rest) :: ParseNot(piece + rest) == Done(e, rest)
  }

  /** Print and parse: a compiled condition reads back as intended, whatever ends it. */
  lemma {:induction false} ConditionParses(fields: FieldMap, c: Condition, n: nat)
    requires ValidCondition(c) && Mapped(fields, c)
    ensures Reads(ConditionTokens(fields, c, n), ConditionExpr(fields, c, n))
    decreases c, 1
  {
    match c
    case Group(operator, cs) =>
      ChildrenParse(fields, cs, 0, n);
      GroupParses(operator, TokensOf(fields, cs, 0, n), ExprsOf(fields, cs, 0, n));
    case Predicate(field, op, value) =>
      forall rest | Ends(rest)
        ensures ParseNot(ConditionTokens(fields, c, n) + rest) == Done(ConditionExpr(fields, c, n), rest)
      {
        PredicateParses(fields[field], op, value, n, rest);
      }
  }

  lemma {:induction false} ChildrenParse(fields: FieldMap, cs: seq<Condition>, i: nat, n: nat)
    requires i <= |cs| && Ready(fields, cs)
    ensures forall k | 0 <= k < |cs| - i :: Reads(TokensOf(fields, cs, i, n)[k], ExprsOf(fields, cs, i, n)[k])
    decreases cs, 0, |cs| - i
  {
    if i < |cs| {
      var m := n + Slots(cs[i]);
      ConditionParses(fields, cs[i], n);
      ChildrenParse(fields, cs, i + 1, m);
      var pieces := TokensOf(fields, cs, i, n);
      var es := ExprsOf(fields, cs, i, n);
      forall k | 0 <= k < |cs| - i ensures Reads(pieces[k], es[k]) {
        if k > 0 {
          assert pieces[k] == TokensOf(fields, cs, i + 1, m)[k - 1] && es[k] == ExprsOf(fields, cs, i + 1, m)[k - 1];
        }
      }
    }
  }

  // ----- Groups -----

  lemma {:induction false} GroupParses(operator: LogicalOperator, pieces: seq<seq<Token>>, es: seq<Expr>)
    requires |pieces| == |es| && es != []
    requires forall k | 0 <= k < |es| :: Reads(pieces[k], es[k])
    ensures Reads([TSym('(')] + Joined(operator, pieces, 0) + [TSym(')')], Chain(operator, es[0], es[1..]))
  {
    var inner := Joined(operator, pieces, 0);
    var e := Chain(operator, es[0], es[1..]);
    forall rest | Ends(rest) ensures ParseNot([TSym('(')] + inner + [TSym(')')] + rest) == Done(e, rest) {
      InnerParses(operator, pieces, es, [TSym(')')] + rest);
      assert inner + ([TSym(')')] + rest) == inner + [TSym(')')] + rest;
      GroupClimbs(inner, e, rest);
    }
  }

  lemma {:induction false} InnerParses(operator: LogicalOperator, pieces: seq<seq<Token>>, es: seq<Expr>, end: seq<Token>)
    requires |pieces| == |es| && es != [] && Starts(end, TSym(')'))
    requires forall k | 0 <= k < |es| :: Reads(pieces[k], es[k])
    ensures ParseExpr(Joined(operator, pieces, 0) + end) == Done(Chain(operator, es[0], es[1..]), end)
  {
    var tail := Joined(operator, pieces[1..], 1) + end;
    var ts := pieces[0] + tail;
    assert Joined(operator, pieces, 0) + end == ts by {
      assert LeadTokens(operator, 0) + pieces[0] == pieces[0];
      Assoc(pieces[0], Joined(operator, pieces[1..], 1), end);
    }
    TailEnds(operator, pieces[1..], 1, end);
    assert ParseNot(ts) == Done(es[0], tail);
    var whole := Chain(operator, es[0], es[1..]);
    if operator.And? {
      AndChainParses(es[0], pieces[1..], es[1..], 1, end);
      AndCloses(ts, es[0], tail, whole, end);
    } else {
      OrChainParses(es[0], pieces[1..], es[1..], 1, end);
      OrCloses(ts, es[0], tail, whole, end);
    }
  }

  lemma {:induction false} AndCloses(ts: seq<Token>, first: Expr, tail: seq<Token>, e: Expr, end: seq<Token>)
    requires ParseNot(ts) == Done(first, tail) && AndTail(first, tail) == Done(e, end)
    requires !Starts(end, TWord("OR"))
    ensures ParseExpr(ts) == Done(e, end)
  {
    assert ParseAnd(ts) == Done(e, end);
  }

  lemma {:induction false} OrCloses(ts: seq<Token>, first: Expr, tail: seq<Token>, e: Expr, end: seq<Token>)
    requires ParseNot(ts) == Done(first, tail) && OrTail(first, tail) == Done(e, end)
    requires !Starts(tail, TWord("AND"))
    ensures ParseExpr(ts) == Done(e, end)
  {
    assert ParseAnd(ts) == Done(first, tail);
  }

  lemma {:induction false} TailEnds(operator: LogicalOperator, pieces: seq<seq<Token>>, i: nat, end: seq<Token>)
    requires i > 0 && Starts(end, TSym(')'))
    ensures Starts(Joined(operator, pieces, i) + end, if pieces == [] then TSym(')') else SeparatorToken(operator))
    ensures Ends(Joined(operator, pieces, i) + end)
  {
    if pieces == [] {
      assert Joined(operator, pieces, i) + end == end;
    }
  }

  /** After the first child, the rest of a group reads: separator, child, remaining children. */
  lemma {:induction false} NextPiece(operator: LogicalOperator, pieces: seq<seq<Token>>, i: nat, end: seq<Token>)
    requires i > 0 && pieces != []
    ensures var ts := Joined(operator, pieces, i) + end;
            && Starts(ts, SeparatorToken(operator))
            && ts[1..] == pieces[0] + (Joined(operator, pieces[1..], i + 1) + end)
  {
    Regrouped(SeparatorToken(operator), pieces[0], Joined(operator, pieces[1..], i + 1), end);
  }

  lemma {:induction false} Regrouped(t: Token, a: seq<Token>, b: seq<Token>, end: seq<Token>)
    ensures [t] + a + b + end == [t] + (a + (b + end))
    ensures ([t] + a + b + end)[1..] == a + (b + end)
  {
  }

  lemma {:induction false} AndNext(left: Expr, ts: seq<Token>, right: Expr, tail: seq<Token>, e: Expr, end: seq<Token>)
    requires Starts(ts, TWord("AND")) && ParseNot(ts[1..]) == Done(right, tail)
    requires AndTail(EAnd(left, right), tail) == Done(e, end)
    ensures AndTail(left, ts) == Done(e, end)
  {
  }

  lemma {:induction false} OrNext(left: Expr, ts: seq<Token>, right: Expr, tail: seq<Token>, e: Expr, end: seq<Token>)
    requires Starts(ts, TWord("OR")) && ParseNot(ts[1..]) == Done(right, tail) && !Starts(tail, TWord("AND"))
    requires OrTail(EOr(left, right), tail) == Done(e, end)
    ensures OrTail(left, ts) == Done(e, end)
  {
    assert ParseAnd(ts[1..]) == Done(right, tail);
  }

  lemma {:induction false} AndChainParses(
    left: Expr, pieces: seq<seq<Token>>, es: seq<Expr>, i: nat, end: seq<Token>)
    requires |pieces| == |es| && i > 0 && Starts(end, TSym(')'))
    requires forall k | 0 <= k < |es| :: Reads(pieces[k], es[k])
    ensures AndTail(left, Joined(And, pieces, i) + end) == Done(Chain(And, left, es), end)
    decreases |es|
  {
    if es == [] {
      assert [] + end == end;
    } else {
      var tail := Joined(And, pieces[1..], i + 1) + end;
      NextPiece(And, pieces, i, end);
      TailEnds(And, pieces[1..], i + 1, end);
      AndChainParses(EAnd(left, es[0]), pieces[1..], es[1..], i + 1, end);
      AndNext(left, Joined(And, pieces, i) + end, es[0], tail, Chain(And, left, es), end);
    }
  }

  lemma {:induction false} OrChainParses(
    left: Expr, pieces: seq<seq<Token>>, es: seq<Expr>, i: nat, end: seq<Token>)
    requires |pieces| == |es| && i > 0 && Starts(end, TSym(')'))
    requires forall k | 0 <= k < |es| :: Reads(pieces[k], es[k])
    ensures OrTail(left, Joined(Or, pieces, i) + end) == Done(Chain(Or, left, es), end)
    decreases |es|
  {
    if es == [] {
      assert [] + end == end;
    } else {
      var tail := Joined(Or, pieces[1..], i + 1) + end;
      NextPiece(Or, pieces, i, end);
      TailEnds(Or, pieces[1..], i + 1, end);
      OrChainParses(EOr(left, es[0]), pieces[1..], es[1..], i + 1, end);
      OrNext(left, Joined(Or, pieces, i) + end, es[0], tail, Chain(Or, left, es), end);
    }
  }
}
