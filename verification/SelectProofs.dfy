// Reads of the repository as the server reads them: find, count and get statements, from
// text to tokens to statement, with the clauses in any combination.

module SelectProofs {
  import opened Results
  import opened Mapping
  import opened Values
  import opened Conditions
  import opened Compiler
  import opened Entity
  import opened Repository
  import opened SqlLexer
  import opened SqlGrammar
  import opened SqlStatements
  import opened Intended
  import opened LexingProofs
  import opened ParsingProofs
  import opened StatementProofs

  // ----- What a find is meant to be -----

  /** The fields the parameters name are mapped, and the condition is valid. */
  predicate FindReady(fields: FieldMap, params: FindParams) {
    && ValidParams(params)
    && (params.condition.Some? ==> Mapped(fields, params.condition.value))
    && SortMapped(fields, params.sort)
  }

  function FilterSlots(params: FindParams): nat
    requires ValidParams(params)
  {
    match params.condition
    case Some(c) => Slots(c)
    case None => 0
  }

  function WhereTokens(fields: FieldMap, params: FindParams): seq<Token>
    requires FindReady(fields, params)
  {
    match params.condition
    case Some(c) => [TWord("WHERE")] + ConditionTokens(fields, c, 0)
    case None => []
  }

  function DirectionTokens(direction: SortDirection): seq<Token> {
    if direction.Ascending? then [TWord("ASC"), TWord("NULLS"), TWord("FIRST")]
    else [TWord("DESC"), TWord("NULLS"), TWord("LAST")]
  }

  function SortTokens(fields: FieldMap, sort: seq<Sort>, i: nat): seq<Token>
    requires i <= |sort| && SortMapped(fields, sort)
    decreases |sort| - i
  {
    if i == |sort| then []
    else
      CommaTokens(i) + ColumnTokens(fields[sort[i].field]) + DirectionTokens(sort[i].direction)
      + SortTokens(fields, sort, i + 1)
  }

  function OrderTokens(fields: FieldMap, sort: seq<Sort>): seq<Token>
    requires SortMapped(fields, sort)
  {
    if sort == [] then [] else [TWord("ORDER"), TWord("BY")] + SortTokens(fields, sort, 0)
  }

  function PageTokens(word: string, present: bool, index: nat): seq<Token> {
    if present then [TWord(word), TParam(index)] else []
  }

  function LimitIndex(params: FindParams): nat
    requires ValidParams(params)
  {
    FilterSlots(params) + 1
  }

  function OffsetIndex(params: FindParams): nat
    requires ValidParams(params)
  {
    if params.limit.Some? then FilterSlots(params) + 2 else FilterSlots(params) + 1
  }

  function PagingTokens(params: FindParams): seq<Token>
    requires ValidParams(params)
  {
    PageTokens("LIMIT", params.limit.Some?, LimitIndex(params))
    + PageTokens("OFFSET", params.offset > 0, OffsetIndex(params))
  }

  function FindTokens(fields: FieldMap, params: FindParams): seq<Token>
    requires FindReady(fields, params)
  {
    WhereTokens(fields, params) + (OrderTokens(fields, params.sort) + PagingTokens(params))
  }

  function FilterExpr(fields: FieldMap, params: FindParams): Option<Expr>
    requires FindReady(fields, params)
  {
    match params.condition
    case Some(c) => Some(ConditionExpr(fields, c, 0))
    case None => None
  }

  function OrderKey(fields: FieldMap, sort: Sort): SortKey
    requires sort.field in fields
  {
    SortKey(ColumnExpr(fields[sort.field]), sort.direction.Ascending?, sort.direction.Ascending?)
  }

  function OrderKeys(fields: FieldMap, sort: seq<Sort>, i: nat): (keys: seq<SortKey>)
    requires i <= |sort| && SortMapped(fields, sort)
    ensures |keys| == |sort| - i && forall k | 0 <= k < |keys| :: keys[k] == OrderKey(fields, sort[i + k])
    decreases |sort| - i
  {
    if i == |sort| then [] else [OrderKey(fields, sort[i])] + OrderKeys(fields, sort, i + 1)
  }

  function IntendedFind(m: EntityMapping, params: FindParams): Statement
    requires FindReady(m.fields, params)
  {
    Select(SelectedNames(m), TableNameOf(m.table), FilterExpr(m.fields, params), OrderKeys(m.fields, params.sort, 0),
           if params.limit.Some? then Some(EParam(LimitIndex(params))) else None,
           if params.offset > 0 then Some(EParam(OffsetIndex(params))) else None)
  }

  // ----- Lexing -----

  /** An emitted clause list so far: empty with no tokens, or lexing to its tokens. */
  ghost predicate Clauses(sql: string, tokens: seq<Token>) {
    Lexes(sql, tokens) && (sql == "" <==> tokens == [])
  }

  lemma {:induction false} AddClause(sql: string, tokens: seq<Token>, clause: string, clauseTokens: seq<Token>)
    requires Clauses(sql, tokens) && Lexes(clause, clauseTokens) && clause != "" && clauseTokens != []
    ensures Clauses(Separated(sql) + clause, tokens + clauseTokens)
  {
    if sql == "" {
      assert "" + clause == clause;
      assert [] + clauseTokens == clauseTokens;
    } else {
      BlankClosed();
      ThenClosed(sql, tokens, " ", []);
      assert tokens + [] == tokens;
      ThenLexes(sql + " ", tokens, clause, clauseTokens);
    }
  }

  lemma {:induction false} DirectionLexes(direction: SortDirection)
    ensures Lexes(DirectionText(direction), DirectionTokens(direction))
  {
    if direction.Ascending? {
      ThreeWordsLex("ASC", "NULLS", "FIRST");
      assert " " + "ASC" + (" " + "NULLS") + (" " + "FIRST") == " ASC NULLS FIRST";
    } else {
      ThreeWordsLex("DESC", "NULLS", "LAST");
      assert " " + "DESC" + (" " + "NULLS") + (" " + "LAST") == " DESC NULLS LAST";
    }
  }

  lemma {:induction false} ThreeWordsLex(u: string, v: string, w: string)
    requires BareWord(u) && BareWord(v) && BareWord(w)
    ensures Lexes(" " + u + (" " + v) + (" " + w), [TWord(u), TWord(v), TWord(w)])
  {
    TwoWordsLex(u, v);
    SpacedWordLexes(w);
    ThenLexes(" " + u + (" " + v), [TWord(u), TWord(v)], " " + w, [TWord(w)]);
    assert [TWord(u), TWord(v)] + [TWord(w)] == [TWord(u), TWord(v), TWord(w)];
  }

  lemma {:induction false} SortItemLexes(fields: FieldMap, sort: seq<Sort>, i: nat)
    requires i < |sort| && SortItem(fields, sort, i).Ok?
    ensures sort[i].field in fields
    ensures var text := SortItem(fields, sort, i).value;
            && Lexes(text, CommaTokens(i) + ColumnTokens(fields[sort[i].field]) + DirectionTokens(sort[i].direction))
            && text != "" && (i > 0 ==> Boundary(text))
  {
    var column := fields[sort[i].field];
    ColumnLexes(column);
    DirectionLexes(sort[i].direction);
    if i > 0 {
      CommaClosed();
    } else {
      NothingLexes();
    }
    ThenLexes(Comma(i), CommaTokens(i), ColumnExpression(column), ColumnTokens(column));
    ThenLexes(Comma(i) + ColumnExpression(column), CommaTokens(i) + ColumnTokens(column),
              DirectionText(sort[i].direction), DirectionTokens(sort[i].direction));
  }

  lemma {:induction false} SortStep(fields: FieldMap, sort: seq<Sort>, i: nat)
    requires i < |sort|
    ensures SortItems(fields, sort, i).Ok? <==> sort[i].field in fields && SortItems(fields, sort, i + 1).Ok?
  {
  }

  lemma {:induction false} SortResolves(fields: FieldMap, sort: seq<Sort>, i: nat)
    requires i <= |sort|
    ensures SortItems(fields, sort, i).Ok? <==> forall k | i <= k < |sort| :: sort[k].field in fields
    decreases |sort| - i
  {
    if i < |sort| {
      SortStep(fields, sort, i);
      SortResolves(fields, sort, i + 1);
      assert (forall k | i <= k < |sort| :: sort[k].field in fields)
        <==> sort[i].field in fields && (forall k | i + 1 <= k < |sort| :: sort[k].field in fields);
    }
  }

  lemma {:induction false} SortItemsLex(fields: FieldMap, sort: seq<Sort>, i: nat)
    requires i <= |sort| && SortMapped(fields, sort) && SortItems(fields, sort, i).Ok?
    ensures var text := SortItems(fields, sort, i).value;
            && Lexes(text, SortTokens(fields, sort, i))
            && (if i == |sort| then text == "" else text != "" && (i > 0 ==> Boundary(text)))
    decreases |sort| - i
  {
    NothingLexes();
    ClosedLexes("", []);
    if i < |sort| {
      var item, rest := SortItemsSplit(fields, sort, i);
      SortItemLexes(fields, sort, i);
      SortItemsLex(fields, sort, i + 1);
      var tokens := CommaTokens(i) + ColumnTokens(fields[sort[i].field]) + DirectionTokens(sort[i].direction);
      LastOrMoreLexes(item, tokens, rest, SortTokens(fields, sort, i + 1));
    }
  }

  lemma {:induction false} SortItemsSplit(fields: FieldMap, sort: seq<Sort>, i: nat) returns (item: string, rest: string)
    requires i < |sort| && SortMapped(fields, sort) && SortItems(fields, sort, i).Ok?
    ensures SortItem(fields, sort, i) == Ok(item) && SortItems(fields, sort, i + 1) == Ok(rest)
    ensures SortItems(fields, sort, i).value == item + rest
    ensures SortTokens(fields, sort, i)
         == CommaTokens(i) + ColumnTokens(fields[sort[i].field]) + DirectionTokens(sort[i].direction)
            + SortTokens(fields, sort, i + 1)
    ensures i + 1 == |sort| ==> rest == "" && SortTokens(fields, sort, i + 1) == []
    ensures i > 0 && item != "" && Boundary(item) ==> Boundary(item + rest)
  {
    item := SortItem(fields, sort, i).value;
    rest := SortItems(fields, sort, i + 1).value;
  }

  lemma {:induction false} LastOrMoreLexes(a: string, s: seq<Token>, b: string, t: seq<Token>)
    requires Lexes(a, s) && Lexes(b, t)
    requires if b == "" then t == [] else Boundary(b)
    ensures Lexes(a + b, s + t)
  {
    if b == "" {
      assert a + b == a && s + t == s;
    } else {
      ThenLexes(a, s, b, t);
    }
  }

  lemma {:induction false} WhereLexes(fields: FieldMap, params: FindParams)
    requires FindReady(fields, params) && WhereFragment(fields, params.condition).Ok?
    ensures var q := WhereFragment(fields, params.condition).value;
            Clauses(q.sql, WhereTokens(fields, params)) && |q.bindings| == FilterSlots(params)
  {
    match params.condition
    case None =>
      NothingLexes();
      ClosedLexes("", []);
    case Some(c) =>
      var q := ConditionFragment(fields, c, 0).value;
      ConditionLexes(fields, c, 0);
      WhereClosed();
      ThenLexes("WHERE ", [TWord("WHERE")], q.sql, ConditionTokens(fields, c, 0));
      assert [] + q.bindings == q.bindings;
  }

  lemma {:induction false} SortLexes(fields: FieldMap, sort: seq<Sort>, q: PgCompiledQuery, tokens: seq<Token>)
    requires SortMapped(fields, sort) && Clauses(q.sql, tokens)
    ensures SortFragment(fields, sort, q).Ok? && SortFragment(fields, sort, q).value.bindings == q.bindings
    ensures Clauses(SortFragment(fields, sort, q).value.sql, tokens + OrderTokens(fields, sort))
  {
    SortResolves(fields, sort, 0);
    if sort == [] {
      assert tokens + [] == tokens;
    } else {
      var items := SortItems(fields, sort, 0).value;
      SortItemsLex(fields, sort, 0);
      OrderByClosed();
      ThenLexes("ORDER BY ", [TWord("ORDER"), TWord("BY")], items, SortTokens(fields, sort, 0));
      AddClause(q.sql, tokens, "ORDER BY " + items, [TWord("ORDER"), TWord("BY")] + SortTokens(fields, sort, 0));
      Assoc(Separated(q.sql), "ORDER BY ", items);
    }
  }

  lemma {:induction false} PageLexes(word: string, amount: nat, q: PgCompiledQuery, tokens: seq<Token>)
    requires word == "LIMIT" || word == "OFFSET"
    requires Clauses(q.sql, tokens) && amount <= MAX_BIGINT
    ensures PageFragment(word + " ", amount, q).Ok?
    ensures PageFragment(word + " ", amount, q).value.bindings == q.bindings + [PgBindValue.I64(amount)]
    ensures Clauses(PageFragment(word + " ", amount, q).value.sql, tokens + [TWord(word), TParam(|q.bindings| + 1)])
  {
    var index := |q.bindings| + 1;
    var placeholder := Placeholder(index, None);
    WordBlankClosed(word);
    PlaceholderLexes(index, None);
    ThenLexes(word + " ", [TWord(word)], placeholder, [TParam(index)]);
    assert [TWord(word)] + [TParam(index)] == [TWord(word), TParam(index)];
    AddClause(q.sql, tokens, word + " " + placeholder, [TWord(word), TParam(index)]);
    Assoc(Separated(q.sql), word + " ", placeholder);
  }

  /** What a compiled find's parameters must satisfy. */
  lemma {:induction false} FindIsReady(fields: FieldMap, params: FindParams)
    requires FindFragment(fields, params).Ok?
    ensures FindReady(fields, params)
    ensures params.limit.Some? ==> params.limit.value <= MAX_BIGINT
    ensures params.offset <= MAX_BIGINT
  {
    var filtered := WhereFragment(fields, params.condition).value;
    if params.condition.Some? {
      CompiledIsMapped(fields, params.condition.value, 0);
    }
    if params.sort != [] {
      SortResolves(fields, params.sort, 0);
    }
  }

  /** The bindings of a find: the condition's, then the limit, then the offset. */
  function FindBindings(fields: FieldMap, params: FindParams): seq<PgBindValue>
    requires WhereFragment(fields, params.condition).Ok?
    requires params.limit.Some? ==> params.limit.value <= MAX_BIGINT
    requires params.offset <= MAX_BIGINT
  {
    WhereFragment(fields, params.condition).value.bindings
    + (if params.limit.Some? then [PgBindValue.I64(params.limit.value)] else [])
    + (if params.offset > 0 then [PgBindValue.I64(params.offset)] else [])
  }

  /** A page clause that may be absent. */
  lemma {:induction false} OptionalPageLexes(
    word: string, present: bool, amount: nat, index: nat, q: PgCompiledQuery, tokens: seq<Token>)
    returns (after: PgCompiledQuery)
    requires word == "LIMIT" || word == "OFFSET"
    requires Clauses(q.sql, tokens) && (present ==> amount <= MAX_BIGINT) && index == |q.bindings| + 1
    ensures if present then PageFragment(word + " ", amount, q) == Ok(after) else after == q
    ensures Clauses(after.sql, tokens + PageTokens(word, present, index))
    ensures after.bindings == q.bindings + (if present then [PgBindValue.I64(amount)] else [])
  {
    if present {
      PageLexes(word, amount, q, tokens);
      after := PageFragment(word + " ", amount, q).value;
    } else {
      after := q;
      assert tokens + [] == tokens;
    }
  }

  lemma {:induction false} PageStages(limit: Option<nat>, offset: nat, q: PgCompiledQuery, limited: PgCompiledQuery, paged: PgCompiledQuery)
    requires if limit.Some? then PageFragment("LIMIT" + " ", limit.value, q) == Ok(limited) else limited == q
    requires if offset > 0 then PageFragment("OFFSET" + " ", offset, limited) == Ok(paged) else paged == limited
    ensures PagedFragment(limit, offset, q) == Ok(paged)
  {
    assert "LIMIT" + " " == "LIMIT " && "OFFSET" + " " == "OFFSET ";
  }

  /** The fragment before its page clauses. */
  lemma {:induction false} SortedLexes(fields: FieldMap, params: FindParams) returns (sorted: PgCompiledQuery)
    requires FindReady(fields, params) && WhereFragment(fields, params.condition).Ok?
    ensures FindFragment(fields, params) == PagedFragment(params.limit, params.offset, sorted)
    ensures sorted.bindings == WhereFragment(fields, params.condition).value.bindings
    ensures |sorted.bindings| == FilterSlots(params)
    ensures Clauses(sorted.sql, WhereTokens(fields, params) + OrderTokens(fields, params.sort))
  {
    WhereLexes(fields, params);
    var filtered := WhereFragment(fields, params.condition).value;
    SortLexes(fields, params.sort, filtered, WhereTokens(fields, params));
    sorted := SortFragment(fields, params.sort, filtered).value;
  }

  lemma {:induction false} FindLexes(fields: FieldMap, params: FindParams)
    requires FindReady(fields, params) && WhereFragment(fields, params.condition).Ok?
    requires params.limit.Some? ==> params.limit.value <= MAX_BIGINT
    requires params.offset <= MAX_BIGINT
    ensures FindFragment(fields, params).Ok?
    ensures Clauses(FindFragment(fields, params).value.sql, FindTokens(fields, params))
    ensures FindFragment(fields, params).value.bindings == FindBindings(fields, params)
  {
    var sorted := SortedLexes(fields, params);
    var paged := PagedLexes(params, sorted, WhereTokens(fields, params) + OrderTokens(fields, params.sort));
    Assoc(WhereTokens(fields, params), OrderTokens(fields, params.sort), PagingTokens(params));
  }

  /** The page clauses after the others. */
  lemma {:induction false} PagedLexes(params: FindParams, sorted: PgCompiledQuery, tokens: seq<Token>)
    returns (paged: PgCompiledQuery)
    requires ValidParams(params) && |sorted.bindings| == FilterSlots(params) && Clauses(sorted.sql, tokens)
    requires (params.limit.Some? ==> params.limit.value <= MAX_BIGINT) && params.offset <= MAX_BIGINT
    ensures PagedFragment(params.limit, params.offset, sorted) == Ok(paged)
    ensures Clauses(paged.sql, tokens + PagingTokens(params))
    ensures paged.bindings
         == sorted.bindings
            + (if params.limit.Some? then [PgBindValue.I64(params.limit.value)] else [])
            + (if params.offset > 0 then [PgBindValue.I64(params.offset)] else [])
  {
    var limit := PageTokens("LIMIT", params.limit.Some?, LimitIndex(params));
    var amount := if params.limit.Some? then params.limit.value else 0;
    var limited := OptionalPageLexes("LIMIT", params.limit.Some?, amount, LimitIndex(params), sorted, tokens);
    paged := OptionalPageLexes("OFFSET", params.offset > 0, params.offset, OffsetIndex(params), limited, tokens + limit);
    PageStages(params.limit, params.offset, sorted, limited, paged);
    Assoc(tokens, limit, PageTokens("OFFSET", params.offset > 0, OffsetIndex(params)));
  }

  // ----- Parsing -----

  lemma {:induction false} WhereParses(fields: FieldMap, params: FindParams, rest: seq<Token>)
    requires FindReady(fields, params)
    requires rest == [] || rest[0] == TWord("ORDER") || rest[0] == TWord("LIMIT") || rest[0] == TWord("OFFSET")
    ensures ParseClause("WHERE", WhereTokens(fields, params) + rest) == Done(FilterExpr(fields, params), rest)
  {
    match params.condition
    case None => assert [] + rest == rest;
    case Some(c) =>
      ConditionParses(fields, c, 0);
      var tokens := ConditionTokens(fields, c, 0);
      assert [TWord("WHERE")] + tokens + rest == [TWord("WHERE")] + (tokens + rest);
      assert ([TWord("WHERE")] + (tokens + rest))[1..] == tokens + rest;
      ExprClimbs(tokens + rest, ConditionExpr(fields, c, 0), rest);
  }

  lemma {:induction false} KeyParses(column: PgColumn, direction: SortDirection, rest: seq<Token>)
    ensures ParseSortKey(ColumnTokens(column) + DirectionTokens(direction) + rest)
         == Done(SortKey(ColumnExpr(column), direction.Ascending?, direction.Ascending?), rest)
  {
    var after := DirectionTokens(direction) + rest;
    var ts := ColumnTokens(column) + after;
    assert ColumnTokens(column) + DirectionTokens(direction) + rest == ts;
    ColumnParses(column, after);
    AtomClimbs(ts, ColumnExpr(column), after);
    ExprClimbs(ts, ColumnExpr(column), after);
    assert after[3..] == rest;
  }

  lemma {:induction false} KeysCons(ts: seq<Token>, key: SortKey, after: seq<Token>, keys: seq<SortKey>, rest: seq<Token>)
    requires ParseSortKey(ts) == Done(key, after) && Starts(after, TSym(','))
    requires ParseSortKeys(after[1..]) == Done(keys, rest)
    ensures ParseSortKeys(ts) == Done([key] + keys, rest)
  {
  }

  lemma {:induction false} SortSplits(comma: seq<Token>, column: seq<Token>, direction: seq<Token>, more: seq<Token>, rest: seq<Token>)
    ensures comma + column + direction + more + rest == comma + (column + direction + (more + rest))
  {
  }

  /** The keys from `i` on, without the comma in front. */
  lemma {:induction false} KeysParse(fields: FieldMap, sort: seq<Sort>, i: nat, rest: seq<Token>)
    requires i < |sort| && SortMapped(fields, sort) && !Starts(rest, TSym(','))
    ensures SortTokens(fields, sort, i) + rest
         == CommaTokens(i) + (ColumnTokens(fields[sort[i].field]) + DirectionTokens(sort[i].direction)
                              + (SortTokens(fields, sort, i + 1) + rest))
    ensures ParseSortKeys(ColumnTokens(fields[sort[i].field]) + DirectionTokens(sort[i].direction)
                          + (SortTokens(fields, sort, i + 1) + rest))
         == Done(OrderKeys(fields, sort, i), rest)
    decreases |sort| - i
  {
    var column := fields[sort[i].field];
    var direction := sort[i].direction;
    var after := SortTokens(fields, sort, i + 1) + rest;
    var ts := ColumnTokens(column) + DirectionTokens(direction) + after;
    SortSplits(CommaTokens(i), ColumnTokens(column), DirectionTokens(direction), SortTokens(fields, sort, i + 1), rest);
    KeyParses(column, direction, after);
    if i + 1 == |sort| {
      assert after == rest;
      assert OrderKeys(fields, sort, i + 1) == [];
      assert [OrderKey(fields, sort[i])] + [] == [OrderKey(fields, sort[i])];
    } else {
      KeysParse(fields, sort, i + 1, rest);
      var next := ColumnTokens(fields[sort[i + 1].field]) + DirectionTokens(sort[i + 1].direction)
                  + (SortTokens(fields, sort, i + 2) + rest);
      assert after == [TSym(',')] + next;
      assert after[1..] == next;
      KeysCons(ts, OrderKey(fields, sort[i]), after, OrderKeys(fields, sort, i + 1), rest);
    }
  }

  lemma {:induction false} OrderFrom(tokens: seq<Token>, keys: seq<SortKey>, rest: seq<Token>)
    requires ParseSortKeys(tokens) == Done(keys, rest)
    ensures ParseOrder([TWord("ORDER"), TWord("BY")] + tokens) == Done(keys, rest)
  {
    var ts := [TWord("ORDER"), TWord("BY")] + tokens;
    assert ts[1..] == [TWord("BY")] + tokens;
    assert ts[2..] == tokens;
  }

  lemma {:induction false} NothingBefore<T>(s: seq<T>)
    ensures [] + s == s
  {
  }

  lemma {:induction false} OrderParses(fields: FieldMap, sort: seq<Sort>, rest: seq<Token>)
    requires SortMapped(fields, sort)
    requires rest == [] || rest[0] == TWord("LIMIT") || rest[0] == TWord("OFFSET")
    ensures ParseOrder(OrderTokens(fields, sort) + rest) == Done(OrderKeys(fields, sort, 0), rest)
  {
    if sort == [] {
      assert [] + rest == rest;
    } else {
      KeysParse(fields, sort, 0, rest);
      var tokens := SortTokens(fields, sort, 0);
      NothingBefore(ColumnTokens(fields[sort[0].field]) + DirectionTokens(sort[0].direction)
                    + (SortTokens(fields, sort, 1) + rest));
      OrderFrom(tokens + rest, OrderKeys(fields, sort, 0), rest);
      Assoc([TWord("ORDER"), TWord("BY")], tokens, rest);
    }
  }

  lemma {:induction false} PageParses(word: string, present: bool, index: nat, rest: seq<Token>)
    requires word == "LIMIT" || word == "OFFSET"
    requires rest == [] || (rest[0] == TWord("OFFSET") && word == "LIMIT")
    ensures ParseClause(word, PageTokens(word, present, index) + rest)
         == Done(if present then Some(EParam(index)) else None, rest)
  {
    if present {
      var ts := [TWord(word), TParam(index)] + rest;
      assert ts[1..] == ParamTokens(index, None) + rest;
      ParamParses(index, None, rest);
      AtomClimbs(ts[1..], EParam(index), rest);
      ExprClimbs(ts[1..], EParam(index), rest);
    } else {
      assert [] + rest == rest;
    }
  }

  lemma {:induction false} FindTailParses(fields: FieldMap, params: FindParams, columns: seq<string>, table: TableName)
    requires FindReady(fields, params)
    ensures ParseSelectTail(columns, table, FindTokens(fields, params))
         == Some(Select(columns, table, FilterExpr(fields, params), OrderKeys(fields, params.sort, 0),
                        if params.limit.Some? then Some(EParam(LimitIndex(params))) else None,
                        if params.offset > 0 then Some(EParam(OffsetIndex(params))) else None))
  {
    var d := PageTokens("OFFSET", params.offset > 0, OffsetIndex(params));
    var c := PageTokens("LIMIT", params.limit.Some?, LimitIndex(params));
    var b := OrderTokens(fields, params.sort);
    assert d + [] == d;
    PageParses("OFFSET", params.offset > 0, OffsetIndex(params), []);
    PageParses("LIMIT", params.limit.Some?, LimitIndex(params), d);
    OrderParses(fields, params.sort, c + d);
    WhereParses(fields, params, b + (c + d));
  }

  // ----- Whole statements -----

  /** The tokens of `SELECT columns FROM table`, and of what follows. */
  function SelectTokens(m: EntityMapping, tail: seq<Token>): seq<Token> {
    [TWord("SELECT")] + Commas(NamePieces(SelectedNames(m))) + [TWord("FROM")] + TableTokens(m.table) + tail
  }

  lemma {:induction false} PrefixLexes(m: EntityMapping)
    ensures SelectPrefix(m).Ok?
    ensures Lexes(SelectPrefix(m).value, SelectTokens(m, []))
  {
    var names := Commas(NamePieces(SelectedNames(m)));
    SelectedLex(m);
    var columns := SelectedColumns(m).value;
    SelectClosed();
    FromClosed();
    TableLexes(m.table);
    ThenLexes("SELECT ", [TWord("SELECT")], columns, names);
    ThenClosed("SELECT " + columns, [TWord("SELECT")] + names, " FROM ", [TWord("FROM")]);
    ThenLexes("SELECT " + columns + " FROM ", [TWord("SELECT")] + names + [TWord("FROM")],
              QuotedTable(m.table), TableTokens(m.table));
    var all := [TWord("SELECT")] + names + [TWord("FROM")] + TableTokens(m.table);
    assert all + [] == all;
  }

  lemma {:induction false} AppendLexes(sql: string, tokens: seq<Token>, fragment: string, fragmentTokens: seq<Token>)
    requires Lexes(sql, tokens) && Clauses(fragment, fragmentTokens)
    ensures Lexes(AppendFragment(sql, fragment), tokens + fragmentTokens)
  {
    if fragment == "" {
      assert tokens + [] == tokens;
    } else {
      BlankClosed();
      ThenClosed(sql, tokens, " ", []);
      assert tokens + [] == tokens;
      ThenLexes(sql + " ", tokens, fragment, fragmentTokens);
    }
  }

  lemma {:induction false} SelectParts(names: seq<string>, table: PgTable, tail: seq<Token>)
    requires names != [] && !Starts(tail, TSym('.'))
    ensures ParseSelect(Commas(NamePieces(names)) + ([TWord("FROM")] + (TableTokens(table) + tail)))
         == ParseSelectTail(names, TableNameOf(table), tail)
  {
    var from := [TWord("FROM")] + (TableTokens(table) + tail);
    NamesParse(names, from);
    assert from[1..] == TableTokens(table) + tail;
    TableParses(table, tail);
  }

  /** A select list never looks like the head of a count. */
  lemma {:induction false} SelectTokensParse(m: EntityMapping, tail: seq<Token>)
    requires SelectedNames(m) != [] && !Starts(tail, TSym('.'))
    ensures ParseStatement(SelectTokens(m, tail)) == ParseSelectTail(SelectedNames(m), TableNameOf(m.table), tail)
  {
    var names := Commas(NamePieces(SelectedNames(m)));
    var rest := names + ([TWord("FROM")] + (TableTokens(m.table) + tail));
    assert SelectTokens(m, tail) == [TWord("SELECT")] + rest;
    assert ([TWord("SELECT")] + rest)[1..] == rest;
    assert rest[0].TQuoted?;
    assert COUNT_HEAD[0] == TWord("COUNT");
    assert !(COUNT_HEAD <= rest);
    SelectParts(SelectedNames(m), m.table, tail);
  }

  lemma {:induction false} ClauseTokensStart(fields: FieldMap, params: FindParams)
    requires FindReady(fields, params)
    ensures !Starts(FindTokens(fields, params), TSym('.'))
  {
  }

  /** What the server reads from a compiled find. */
  lemma {:induction false} FindReads(m: EntityMapping, params: FindParams)
    requires SelectedNames(m) != [] && FindStatement(m, params).Ok?
    ensures FindReady(m.fields, params)
    ensures ParseStatement(Lex(FindStatement(m, params).value.sql)) == Some(IntendedFind(m, params))
  {
    FindIsReady(m.fields, params);
    FindLexes(m.fields, params);
    PrefixLexes(m);
    var tail := FindTokens(m.fields, params);
    var fragment := FindFragment(m.fields, params).value.sql;
    AppendLexes(SelectPrefix(m).value, SelectTokens(m, []), fragment, tail);
    assert SelectTokens(m, []) + tail == SelectTokens(m, tail);
    WholeText(FindStatement(m, params).value.sql, SelectTokens(m, tail));
    ClauseTokensStart(m.fields, params);
    SelectTokensParse(m, tail);
    FindTailParses(m.fields, params, SelectedNames(m), TableNameOf(m.table));
  }

  /** What the server reads from a compiled count: only the filter matters. */
  lemma {:induction false} CountReads(m: EntityMapping, params: FindParams)
    requires CountStatement(m, params).Ok?
    ensures FindReady(m.fields, params.(sort := []))
    ensures ParseStatement(Lex(CountStatement(m, params).value.sql))
         == Some(SelectCount(TableNameOf(m.table), FilterExpr(m.fields, params.(sort := []))))
  {
    var unsorted := params.(sort := []);
    if params.condition.Some? {
      CompiledIsMapped(m.fields, params.condition.value, 0);
    }
    WhereLexes(m.fields, unsorted);
    CountHeadClosed();
    TableLexes(m.table);
    var head := "SELECT COUNT(*) AS count FROM ";
    var headTokens := [TWord("SELECT")] + COUNT_HEAD;
    ThenLexes(head, headTokens, QuotedTable(m.table), TableTokens(m.table));
    var tail := WhereTokens(m.fields, unsorted);
    AppendLexes(head + QuotedTable(m.table), headTokens + TableTokens(m.table),
                CountFragment(m.fields, params).value.sql, tail);
    WholeText(CountStatement(m, params).value.sql, headTokens + TableTokens(m.table) + tail);
    CountTokensParse(m.table, tail, FilterExpr(m.fields, unsorted), m.fields, unsorted);
  }

  lemma {:induction false} CountTokensParse(
    table: PgTable, tail: seq<Token>, filter: Option<Expr>, fields: FieldMap, params: FindParams)
    requires FindReady(fields, params) && tail == WhereTokens(fields, params) && filter == FilterExpr(fields, params)
    ensures ParseStatement([TWord("SELECT")] + COUNT_HEAD + TableTokens(table) + tail)
         == Some(SelectCount(TableNameOf(table), filter))
  {
    var after := TableTokens(table) + tail;
    var ts := [TWord("SELECT")] + COUNT_HEAD + TableTokens(table) + tail;
    assert ts == [TWord("SELECT")] + (COUNT_HEAD + after);
    assert ts[1..] == COUNT_HEAD + after;
    assert ts[1 + |COUNT_HEAD|..] == after;
    TableParses(table, tail);
    WhereParses(fields, params, []);
    assert tail + [] == tail;
  }

  /** What the server reads from a compiled get. */
  lemma {:induction false} SelectThen(m: EntityMapping, a: seq<Token>, b: seq<Token>)
    ensures SelectTokens(m, []) + a + b == SelectTokens(m, a + b)
  {
  }

  lemma {:induction false} GetLexes(m: EntityMapping, id: Result<PgValue>)
    requires m.idField in m.fields && GetStatement(m, id).Ok?
    ensures Lex(GetStatement(m, id).value.sql)
         == SelectTokens(m, [TWord("WHERE")] + IdTokens(m.fields[m.idField], 1))
  {
    var column := m.fields[m.idField];
    var prefix := SelectPrefix(m).value;
    PrefixLexes(m);
    WhereClosed();
    IdLexes(column, 1);
    ThenClosed(prefix, SelectTokens(m, []), " WHERE ", [TWord("WHERE")]);
    SelectThen(m, [TWord("WHERE")], IdTokens(column, 1));
    LexesAs(prefix + " WHERE ", SelectTokens(m, []) + [TWord("WHERE")], CompiledId(m, id).value.sql, IdTokens(column, 1),
            GetStatement(m, id).value.sql, SelectTokens(m, [TWord("WHERE")] + IdTokens(column, 1)));
    WholeText(GetStatement(m, id).value.sql, SelectTokens(m, [TWord("WHERE")] + IdTokens(column, 1)));
  }

  lemma {:induction false} GetReads(m: EntityMapping, id: Result<PgValue>)
    requires SelectedNames(m) != [] && m.idField in m.fields && GetStatement(m, id).Ok?
    ensures ParseStatement(Lex(GetStatement(m, id).value.sql))
         == Some(Select(SelectedNames(m), TableNameOf(m.table), Some(IdExpr(m.fields[m.idField], 1)), [], None, None))
  {
    var column := m.fields[m.idField];
    GetLexes(m, id);
    SelectTokensParse(m, [TWord("WHERE")] + IdTokens(column, 1));
    assert IdTokens(column, 1) + [] == IdTokens(column, 1);
    WhereIdParses(column, 1, []);
  }

}
