// The repository's statements read back as intended: from text to tokens to statement.

module StatementProofs {
  import opened Results
  import opened Identifiers
  import opened Mapping
  import opened Values
  import opened Compiler
  import opened Entity
  import opened Repository
  import opened SqlLexer
  import opened SqlGrammar
  import opened SqlStatements
  import opened Intended
  import opened LexingProofs
  import opened ParsingProofs

  // ----- Key words -----

  lemma {:induction false} WordBlankClosed(w: string)
    requires BareWord(w)
    ensures Closed(w + " ", [TWord(w)])
  {
    WordLexes(w);
    BlankClosed();
    ThenClosed(w, [TWord(w)], " ", []);
  }

  lemma {:induction false} TwoWordsBlankClosed(v: string, w: string)
    requires BareWord(v) && BareWord(w)
    ensures Closed(v + " " + (w + " "), [TWord(v), TWord(w)])
  {
    WordBlankClosed(v);
    WordBlankClosed(w);
    ThenClosed(v + " ", [TWord(v)], w + " ", [TWord(w)]);
  }

  lemma {:induction false} InsertIntoClosed()
    ensures Closed("INSERT INTO ", [TWord("INSERT"), TWord("INTO")])
  {
    TwoWordsBlankClosed("INSERT", "INTO");
    assert "INSERT" + " " + ("INTO" + " ") == "INSERT INTO ";
  }

  lemma {:induction false} DeleteFromClosed()
    ensures Closed("DELETE FROM ", [TWord("DELETE"), TWord("FROM")])
  {
    TwoWordsBlankClosed("DELETE", "FROM");
    assert "DELETE" + " " + ("FROM" + " ") == "DELETE FROM ";
  }

  lemma {:induction false} OrderByClosed()
    ensures Closed("ORDER BY ", [TWord("ORDER"), TWord("BY")])
  {
    TwoWordsBlankClosed("ORDER", "BY");
    assert "ORDER" + " " + ("BY" + " ") == "ORDER BY ";
  }

  lemma {:induction false} SelectClosed()
    ensures Closed("SELECT ", [TWord("SELECT")])
  {
    WordBlankClosed("SELECT");
    assert "SELECT" + " " == "SELECT ";
  }

  lemma {:induction false} UpdateClosed()
    ensures Closed("UPDATE ", [TWord("UPDATE")])
  {
    WordBlankClosed("UPDATE");
    assert "UPDATE" + " " == "UPDATE ";
  }

  lemma {:induction false} WhereClosed()
    ensures Closed("WHERE ", [TWord("WHERE")])
    ensures Closed(" WHERE ", [TWord("WHERE")])
  {
    WordBlankClosed("WHERE");
    assert "WHERE" + " " == "WHERE ";
    SetOffWordClosed("WHERE");
    assert " " + "WHERE" + " " == " WHERE ";
  }

  lemma {:induction false} FromClosed()
    ensures Closed(" FROM ", [TWord("FROM")])
  {
    SetOffWordClosed("FROM");
    assert " " + "FROM" + " " == " FROM ";
  }

  lemma {:induction false} SetClosed()
    ensures Closed(" SET ", [TWord("SET")])
  {
    SetOffWordClosed("SET");
    assert " " + "SET" + " " == " SET ";
  }

  lemma {:induction false} ReturningClosed()
    ensures Closed(" RETURNING ", [TWord("RETURNING")])
  {
    SetOffWordClosed("RETURNING");
    assert " " + "RETURNING" + " " == " RETURNING ";
  }

  lemma {:induction false} EqualsClosed()
    ensures Closed(" = ", [TOp("=")])
  {
    SetOffOpClosed("=");
    assert " " + "=" + " " == " = ";
  }

  lemma {:induction false} DefaultValuesLexes()
    ensures Lexes(" DEFAULT VALUES", [TWord("DEFAULT"), TWord("VALUES")])
  {
    TwoWordsLex("DEFAULT", "VALUES");
    assert " " + "DEFAULT" + (" " + "VALUES") == " DEFAULT VALUES";
  }

  lemma {:induction false} OpenListClosed()
    ensures Closed(" (", [TSym('(')])
  {
    BlankClosed();
    SymClosed('(');
    ThenClosed(" ", [], "(", [TSym('(')]);
    assert " " + "(" == " (";
    assert [] + [TSym('(')] == [TSym('(')];
  }

  lemma {:induction false} ThreeClosed(a: string, s: seq<Token>, b: string, t: seq<Token>, c: string, u: seq<Token>)
    requires Closed(a, s) && Closed(b, t) && Closed(c, u)
    ensures Closed(a + b + c, s + t + u)
  {
    ThenClosed(a, s, b, t);
    ThenClosed(a + b, s + t, c, u);
  }

  lemma {:induction false} ValuesClosed()
    ensures Closed(") VALUES (", [TSym(')'), TWord("VALUES"), TSym('(')])
  {
    SymClosed(')');
    SymClosed('(');
    SetOffWordClosed("VALUES");
    ThreeClosed(")", [TSym(')')], " " + "VALUES" + " ", [TWord("VALUES")], "(", [TSym('(')]);
    assert ")" + (" " + "VALUES" + " ") + "(" == ") VALUES (";
    assert [TSym(')')] + [TWord("VALUES")] + [TSym('(')] == [TSym(')'), TWord("VALUES"), TSym('(')];
  }

  lemma {:induction false} GluedFirst(rest: string)
    ensures Lex("COUNT" + ("(" + rest)) == [TWord("COUNT")] + ([TSym('(')] + Lex(rest))
    ensures Lex("*" + (")" + rest)) == [TOp("*")] + ([TSym(')')] + Lex(rest))
  {
    WordFirst("COUNT", "(" + rest);
    SymFirst('(', rest);
    OpFirst("*", ")" + rest);
    SymFirst(')', rest);
  }

  lemma {:induction false} CountOpenClosed()
    ensures Closed("COUNT(", [TWord("COUNT"), TSym('(')])
  {
    assert [TWord("COUNT")] + [TSym('(')] == [TWord("COUNT"), TSym('(')];
    assert "COUNT" + "(" == "COUNT(";
    forall rest ensures Lex("COUNT(" + rest) == [TWord("COUNT"), TSym('(')] + Lex(rest) {
      Assoc("COUNT", "(", rest);
      GluedFirst(rest);
      Prepended([TWord("COUNT")], [TSym('(')], Lex(rest));
    }
  }

  lemma {:induction false} StarCloseClosed()
    ensures Closed("*)", [TOp("*"), TSym(')')])
  {
    assert [TOp("*")] + [TSym(')')] == [TOp("*"), TSym(')')];
    assert "*" + ")" == "*)";
    forall rest ensures Lex("*)" + rest) == [TOp("*"), TSym(')')] + Lex(rest) {
      Assoc("*", ")", rest);
      GluedFirst(rest);
      Prepended([TOp("*")], [TSym(')')], Lex(rest));
    }
  }

  lemma {:induction false} ThreeWordsClosed(u: string, v: string, w: string)
    requires BareWord(u) && BareWord(v) && BareWord(w)
    ensures Closed(" " + u + (" " + v) + (" " + w + " "), [TWord(u), TWord(v)] + [TWord(w)])
  {
    TwoWordsLex(u, v);
    SetOffWordClosed(w);
    ThenClosed(" " + u + (" " + v), [TWord(u), TWord(v)], " " + w + " ", [TWord(w)]);
  }

  lemma {:induction false} CountTailClosed()
    ensures Closed(" AS count FROM ", [TWord("AS"), TWord("count"), TWord("FROM")])
  {
    ThreeWordsClosed("AS", "count", "FROM");
    assert " " + "AS" + (" " + "count") + (" " + "FROM" + " ") == " AS count FROM ";
    assert [TWord("AS"), TWord("count")] + [TWord("FROM")] == [TWord("AS"), TWord("count"), TWord("FROM")];
  }

  lemma {:induction false} CountHeadClosed()
    ensures Closed("SELECT COUNT(*) AS count FROM ", [TWord("SELECT")] + COUNT_HEAD)
  {
    SelectClosed();
    CountOpenClosed();
    StarCloseClosed();
    CountTailClosed();
    ThreeClosed("SELECT ", [TWord("SELECT")], "COUNT(", [TWord("COUNT"), TSym('(')], "*)", [TOp("*"), TSym(')')]);
    var head := [TWord("SELECT")] + [TWord("COUNT"), TSym('(')] + [TOp("*"), TSym(')')];
    ThenClosed("SELECT " + "COUNT(" + "*)", head, " AS count FROM ", [TWord("AS"), TWord("count"), TWord("FROM")]);
    CountHeadText();
    assert head + [TWord("AS"), TWord("count"), TWord("FROM")] == [TWord("SELECT")] + COUNT_HEAD;
  }

  lemma {:induction false} CountHeadText()
    ensures "SELECT " + "COUNT(" + "*)" + " AS count FROM " == "SELECT COUNT(*) AS count FROM "
  {
  }

  // ----- Lists -----

  /** Pieces with commas between them. */
  function Commas(pieces: seq<seq<Token>>): seq<Token> {
    if |pieces| == 0 then []
    else if |pieces| == 1 then pieces[0]
    else pieces[0] + [TSym(',')] + Commas(pieces[1..])
  }

  lemma {:induction false} CommasSplit(pieces: seq<seq<Token>>, rest: seq<Token>)
    requires |pieces| > 1
    ensures var after := [TSym(',')] + (Commas(pieces[1..]) + rest);
            && Commas(pieces) + rest == pieces[0] + after
            && after[1..] == Commas(pieces[1..]) + rest
  {
  }

  ghost predicate AllLex(texts: seq<string>, pieces: seq<seq<Token>>) {
    |texts| == |pieces| && forall k | 0 <= k < |texts| :: Lexes(texts[k], pieces[k])
  }

  lemma {:induction false} ConsAllLex(
    allTexts: seq<string>, allPieces: seq<seq<Token>>,
    text: string, piece: seq<Token>, texts: seq<string>, pieces: seq<seq<Token>>)
    requires Lexes(text, piece) && AllLex(texts, pieces)
    requires allTexts == [text] + texts && allPieces == [piece] + pieces
    ensures AllLex(allTexts, allPieces)
  {
  }

  lemma {:induction false} JoinLexes(texts: seq<string>, pieces: seq<seq<Token>>)
    requires AllLex(texts, pieces)
    ensures Lexes(JoinComma(texts), Commas(pieces))
    decreases |texts|
  {
    if |texts| == 0 {
      NothingLexes();
      ClosedLexes("", []);
    } else if |texts| > 1 {
      JoinLexes(texts[1..], pieces[1..]);
      CommaClosed();
      ThenClosed(texts[0], pieces[0], ", ", [TSym(',')]);
      ThenLexes(texts[0] + ", ", pieces[0] + [TSym(',')], JoinComma(texts[1..]), Commas(pieces[1..]));
    }
  }

  /** The columns of these fields, by their physical names. */
  function NamesOf(fields: FieldMap, fs: seq<FieldName>): (names: seq<string>)
    requires forall f | f in fs :: f in fields
    ensures |names| == |fs| && forall k | 0 <= k < |fs| :: names[k] == fields[fs[k]].identifier
  {
    seq(|fs|, k requires 0 <= k < |fs| => fields[fs[k]].identifier)
  }

  function NamePieces(names: seq<string>): (pieces: seq<seq<Token>>)
    ensures |pieces| == |names| && forall k | 0 <= k < |names| :: pieces[k] == [TQuoted(names[k])]
  {
    seq(|names|, k requires 0 <= k < |names| => [TQuoted(names[k])])
  }

  lemma {:induction false} QuotedColumnsLex(fields: FieldMap, fs: seq<FieldName>)
    requires forall f | f in fs :: f in fields
    ensures QuotedColumns(fields, fs).Ok?
    ensures AllLex(QuotedColumns(fields, fs).value, NamePieces(NamesOf(fields, fs)))
    decreases |fs|
  {
    if fs != [] {
      QuotedColumnsLex(fields, fs[1..]);
      QuotedLexes(fields[fs[0]].identifier);
      assert NamesOf(fields, fs)[1..] == NamesOf(fields, fs[1..]);
      assert NamePieces(NamesOf(fields, fs))[1..] == NamePieces(NamesOf(fields, fs[1..]));
    }
  }

  lemma {:induction false} NamesParse(names: seq<string>, rest: seq<Token>)
    requires names != [] && !Starts(rest, TSym(','))
    ensures ParseNames(Commas(NamePieces(names)) + rest) == Done(names, rest)
    decreases |names|
  {
    var ts := Commas(NamePieces(names)) + rest;
    if |names| == 1 {
      assert ts[1..] == rest;
      assert [names[0]] == names;
    } else {
      assert NamePieces(names)[1..] == NamePieces(names[1..]);
      var more := Commas(NamePieces(names[1..])) + rest;
      assert ts == [TQuoted(names[0]), TSym(',')] + more;
      assert ts[1..] == [TSym(',')] + more;
      assert ts[2..] == more;
      NamesParse(names[1..], rest);
      assert [names[0]] + names[1..] == names;
    }
  }

  // ----- Tables -----

  function TableNameOf(table: PgTable): TableName {
    match table.schema
    case Some(schema) => TableName(Some(schema), table.name)
    case None => TableName(None, table.name)
  }

  function TableTokens(table: PgTable): seq<Token> {
    match table.schema
    case Some(schema) => [TQuoted(schema), TSym('.'), TQuoted(table.name)]
    case None => [TQuoted(table.name)]
  }

  lemma {:induction false} QualifiedFirst(schema: PgIdentifier, name: PgIdentifier, rest: string)
    requires Boundary(rest)
    ensures Lex(Quoted(schema) + ("." + (Quoted(name) + rest)))
         == [TQuoted(schema)] + ([TSym('.')] + ([TQuoted(name)] + Lex(rest)))
  {
    QuotedFirst(schema, "." + (Quoted(name) + rest));
    SymFirst('.', Quoted(name) + rest);
    QuotedFirst(name, rest);
  }

  lemma {:induction false} DottedGrouped(a: string, b: string, c: string, rest: string)
    ensures a + b + c + rest == a + (b + (c + rest))
  {
  }

  lemma {:induction false} DottedTokens(a: Token, b: Token, c: Token, end: seq<Token>)
    ensures [a] + ([b] + ([c] + end)) == [a, b, c] + end
  {
  }

  lemma {:induction false} TableLexes(table: PgTable)
    ensures Lexes(QuotedTable(table), TableTokens(table))
  {
    match table.schema
    case Some(schema) =>
      forall rest | Boundary(rest) ensures Lex(QuotedTable(table) + rest) == TableTokens(table) + Lex(rest) {
        DottedGrouped(Quoted(schema), ".", Quoted(table.name), rest);
        QualifiedFirst(schema, table.name, rest);
        DottedTokens(TQuoted(schema), TSym('.'), TQuoted(table.name), Lex(rest));
      }
    case None => QuotedLexes(table.name);
  }

  lemma {:induction false} TableParses(table: PgTable, rest: seq<Token>)
    requires !Starts(rest, TSym('.'))
    ensures ParseTable(TableTokens(table) + rest) == Done(TableNameOf(table), rest)
  {
    var ts := TableTokens(table) + rest;
    if table.schema.Some? {
      assert ts[3..] == rest;
    } else {
      assert ts[1..] == rest;
    }
  }

  // ----- Sources -----

  /** The source a written field is given. */
  function SourceOf(m: EntityMapping, e: Encoded, field: FieldName, n: nat): Source
    requires field in m.fields && EntityValue(m, e, field).Ok?
  {
    if EntityValue(m, e, field).value.Default? then SDefault
    else SExpr(ParamExpr(n + 1, PlaceholderCast(m.fields[field].kind)))
  }

  function SourceTokens(m: EntityMapping, e: Encoded, field: FieldName, n: nat): seq<Token>
    requires field in m.fields && EntityValue(m, e, field).Ok?
  {
    if EntityValue(m, e, field).value.Default? then [TWord("DEFAULT")]
    else ParamTokens(n + 1, PlaceholderCast(m.fields[field].kind))
  }

  /** How many placeholders one written field takes. */
  function Takes(m: EntityMapping, e: Encoded, field: FieldName): nat
    requires EntityValue(m, e, field).Ok?
  {
    if EntityValue(m, e, field).value.Default? then 0 else 1
  }

  predicate Writable(m: EntityMapping, e: Encoded, fs: seq<FieldName>) {
    forall f | f in fs :: f in m.fields && EntityValue(m, e, f).Ok?
  }

  function SourcesOf(m: EntityMapping, e: Encoded, fs: seq<FieldName>, n: nat): (sources: seq<Source>)
    requires Writable(m, e, fs)
    ensures |sources| == |fs|
    decreases |fs|
  {
    if fs == [] then []
    else [SourceOf(m, e, fs[0], n)] + SourcesOf(m, e, fs[1..], n + Takes(m, e, fs[0]))
  }

  function SourcePieces(m: EntityMapping, e: Encoded, fs: seq<FieldName>, n: nat): (pieces: seq<seq<Token>>)
    requires Writable(m, e, fs)
    ensures |pieces| == |fs|
    decreases |fs|
  {
    if fs == [] then []
    else [SourceTokens(m, e, fs[0], n)] + SourcePieces(m, e, fs[1..], n + Takes(m, e, fs[0]))
  }

  lemma {:induction false} SourceLexes(m: EntityMapping, e: Encoded, field: FieldName, n: nat)
    requires SourceItem(m, e, field, n).Ok?
    ensures field in m.fields && EntityValue(m, e, field).Ok?
    ensures Lexes(SourceItem(m, e, field, n).value.sql, SourceTokens(m, e, field, n))
    ensures |SourceItem(m, e, field, n).value.bindings| == Takes(m, e, field)
  {
    WordLexes("DEFAULT");
    CastNamesAreWords(m.fields[field].kind);
    PlaceholderLexes(n + 1, PlaceholderCast(m.fields[field].kind));
  }

  lemma {:induction false} SourcesWritable(m: EntityMapping, e: Encoded, fs: seq<FieldName>, n: nat)
    requires SourceItems(m, e, fs, n).Ok? || AssignmentItems(m, e, fs, n).Ok?
    ensures Writable(m, e, fs)
    decreases |fs|
  {
    if fs != [] {
      SourcesWritable(m, e, fs[1..], n + |SourceItem(m, e, fs[0], n).value.bindings|);
      assert forall f | f in fs :: f == fs[0] || f in fs[1..];
    }
  }

  lemma {:induction false} SourcesSplit(m: EntityMapping, e: Encoded, fs: seq<FieldName>, n: nat)
    returns (item: PgCompiledQuery, rest: Sources)
    requires fs != [] && Writable(m, e, fs) && SourceItems(m, e, fs, n).Ok?
    ensures SourceItem(m, e, fs[0], n) == Ok(item) && SourceItems(m, e, fs[1..], n + |item.bindings|) == Ok(rest)
    ensures SourceItems(m, e, fs, n).value.texts == [item.sql] + rest.texts
  {
    item := SourceItem(m, e, fs[0], n).value;
    rest := SourceItems(m, e, fs[1..], n + |item.bindings|).value;
  }

  lemma {:induction false} SourcesLex(m: EntityMapping, e: Encoded, fs: seq<FieldName>, n: nat)
    requires Writable(m, e, fs) && SourceItems(m, e, fs, n).Ok?
    ensures AllLex(SourceItems(m, e, fs, n).value.texts, SourcePieces(m, e, fs, n))
    decreases |fs|
  {
    if fs != [] {
      var item, rest := SourcesSplit(m, e, fs, n);
      SourceLexes(m, e, fs[0], n);
      SourcesLex(m, e, fs[1..], n + |item.bindings|);
      ConsAllLex(SourceItems(m, e, fs, n).value.texts, SourcePieces(m, e, fs, n),
                 item.sql, SourceTokens(m, e, fs[0], n), rest.texts,
                 SourcePieces(m, e, fs[1..], n + |item.bindings|));
    }
  }

  lemma {:induction false} SourceParses(m: EntityMapping, e: Encoded, field: FieldName, n: nat, rest: seq<Token>)
    requires field in m.fields && EntityValue(m, e, field).Ok?
    requires Ends(rest) && !Starts(rest, TWord("AND")) && !Starts(rest, TWord("OR"))
    ensures ParseSource(SourceTokens(m, e, field, n) + rest) == Done(SourceOf(m, e, field, n), rest)
  {
    var ts := SourceTokens(m, e, field, n) + rest;
    if EntityValue(m, e, field).value.Default? {
      assert ts[1..] == rest;
    } else {
      var cast := PlaceholderCast(m.fields[field].kind);
      ParamParses(n + 1, cast, rest);
      AtomClimbs(ts, ParamExpr(n + 1, cast), rest);
      ExprClimbs(ts, ParamExpr(n + 1, cast), rest);
    }
  }

  lemma {:induction false} SourcesParse(m: EntityMapping, e: Encoded, fs: seq<FieldName>, n: nat, rest: seq<Token>)
    requires fs != [] && Writable(m, e, fs)
    requires Starts(rest, TSym(')'))
    ensures ParseSources(Commas(SourcePieces(m, e, fs, n)) + rest) == Done(SourcesOf(m, e, fs, n), rest)
    decreases |fs|
  {
    var pieces := SourcePieces(m, e, fs, n);
    if |fs| == 1 {
      SourceParses(m, e, fs[0], n, rest);
      assert SourcesOf(m, e, fs, n) == [SourceOf(m, e, fs[0], n)];
    } else {
      var k := n + Takes(m, e, fs[0]);
      assert pieces[1..] == SourcePieces(m, e, fs[1..], k);
      var after := [TSym(',')] + (Commas(pieces[1..]) + rest);
      CommasSplit(pieces, rest);
      SourceParses(m, e, fs[0], n, after);
      SourcesParse(m, e, fs[1..], k, rest);
    }
  }

  // ----- Assignments -----

  function AssignmentPieces(m: EntityMapping, e: Encoded, fs: seq<FieldName>, n: nat): (pieces: seq<seq<Token>>)
    requires Writable(m, e, fs)
    ensures |pieces| == |fs|
    decreases |fs|
  {
    if fs == [] then []
    else
      [[TQuoted(m.fields[fs[0]].identifier), TOp("=")] + SourceTokens(m, e, fs[0], n)]
      + AssignmentPieces(m, e, fs[1..], n + Takes(m, e, fs[0]))
  }

  /** `"column" = ` in front of a piece. */
  lemma {:induction false} AssignedLexes(id: PgIdentifier, text: string, tokens: seq<Token>)
    requires Lexes(text, tokens)
    ensures Lexes(Quoted(id) + " = " + text, [TQuoted(id), TOp("=")] + tokens)
  {
    QuotedLexes(id);
    EqualsClosed();
    ThenClosed(Quoted(id), [TQuoted(id)], " = ", [TOp("=")]);
    ThenLexes(Quoted(id) + " = ", [TQuoted(id)] + [TOp("=")], text, tokens);
    assert [TQuoted(id)] + [TOp("=")] == [TQuoted(id), TOp("=")];
  }

  lemma {:induction false} AssignmentsLex(m: EntityMapping, e: Encoded, fs: seq<FieldName>, n: nat)
    requires Writable(m, e, fs) && AssignmentItems(m, e, fs, n).Ok?
    ensures AllLex(AssignmentItems(m, e, fs, n).value.texts, AssignmentPieces(m, e, fs, n))
    decreases |fs|
  {
    if fs != [] {
      SourceLexes(m, e, fs[0], n);
      var item := SourceItem(m, e, fs[0], n).value;
      var id := m.fields[fs[0]].identifier;
      AssignedLexes(id, item.sql, SourceTokens(m, e, fs[0], n));
      var rest := AssignmentItems(m, e, fs[1..], n + |item.bindings|).value;
      AssignmentsLex(m, e, fs[1..], n + |item.bindings|);
      ConsAllLex(AssignmentItems(m, e, fs, n).value.texts, AssignmentPieces(m, e, fs, n),
                 Quoted(id) + " = " + item.sql, [TQuoted(id), TOp("=")] + SourceTokens(m, e, fs[0], n), rest.texts,
                 AssignmentPieces(m, e, fs[1..], n + |item.bindings|));
    }
  }

  lemma {:induction false} AssignmentSplits(id: string, source: seq<Token>, rest: seq<Token>)
    ensures var ts := [TQuoted(id), TOp("=")] + source + rest;
            && ts[0] == TQuoted(id) && Starts(ts[1..], TOp("=")) && ts[2..] == source + rest
  {
  }

  /** One `"column" = source` in front of anything that ends an item. */
  lemma {:induction false} AssignmentParses(m: EntityMapping, e: Encoded, field: FieldName, n: nat, after: seq<Token>)
    requires field in m.fields && EntityValue(m, e, field).Ok?
    requires Ends(after) && !Starts(after, TWord("AND")) && !Starts(after, TWord("OR"))
    ensures var id := m.fields[field].identifier;
            var ts := [TQuoted(id), TOp("=")] + SourceTokens(m, e, field, n) + after;
            && ts != [] && ts[0] == TQuoted(id) && Starts(ts[1..], TOp("="))
            && ParseSource(ts[2..]) == Done(SourceOf(m, e, field, n), after)
  {
    AssignmentSplits(m.fields[field].identifier, SourceTokens(m, e, field, n), after);
    SourceParses(m, e, field, n, after);
  }

  lemma {:induction false} NamesCons(fields: FieldMap, fs: seq<FieldName>)
    requires fs != [] && forall f | f in fs :: f in fields
    ensures NamesOf(fields, fs) == [fields[fs[0]].identifier] + NamesOf(fields, fs[1..])
  {
  }

  lemma {:induction false} AssignmentsParse(m: EntityMapping, e: Encoded, fs: seq<FieldName>, n: nat, rest: seq<Token>)
    requires fs != [] && Writable(m, e, fs)
    requires Starts(rest, TWord("WHERE"))
    ensures ParseAssignments(Commas(AssignmentPieces(m, e, fs, n)) + rest)
         == Done((NamesOf(m.fields, fs), SourcesOf(m, e, fs, n)), rest)
    decreases |fs|
  {
    var id := m.fields[fs[0]].identifier;
    var pieces := AssignmentPieces(m, e, fs, n);
    var k := n + Takes(m, e, fs[0]);
    NamesCons(m.fields, fs);
    AssignmentsCons(m, e, fs, n);
    if |fs| == 1 {
      AssignmentParses(m, e, fs[0], n, rest);
      AssignmentLast(Commas(pieces) + rest, id, SourceOf(m, e, fs[0], n), rest);
      assert NamesOf(m.fields, fs) == [id];
      assert SourcesOf(m, e, fs, n) == [SourceOf(m, e, fs[0], n)];
    } else {
      var after := [TSym(',')] + (Commas(pieces[1..]) + rest);
      CommasSplit(pieces, rest);
      AssignmentParses(m, e, fs[0], n, after);
      AssignmentsParse(m, e, fs[1..], k, rest);
      AssignmentNext(Commas(pieces) + rest, id, SourceOf(m, e, fs[0], n), after,
                     NamesOf(m.fields, fs[1..]), SourcesOf(m, e, fs[1..], k), rest);
    }
  }

  lemma {:induction false} AssignmentsCons(m: EntityMapping, e: Encoded, fs: seq<FieldName>, n: nat)
    requires fs != [] && Writable(m, e, fs)
    ensures AssignmentPieces(m, e, fs, n)[0]
         == [TQuoted(m.fields[fs[0]].identifier), TOp("=")] + SourceTokens(m, e, fs[0], n)
    ensures AssignmentPieces(m, e, fs, n)[1..] == AssignmentPieces(m, e, fs[1..], n + Takes(m, e, fs[0]))
    ensures SourcesOf(m, e, fs, n) == [SourceOf(m, e, fs[0], n)] + SourcesOf(m, e, fs[1..], n + Takes(m, e, fs[0]))
  {
  }

  lemma {:induction false} AssignmentLast(ts: seq<Token>, id: string, source: Source, rest: seq<Token>)
    requires ts != [] && ts[0] == TQuoted(id) && Starts(ts[1..], TOp("="))
    requires ParseSource(ts[2..]) == Done(source, rest) && !Starts(rest, TSym(','))
    ensures ParseAssignments(ts) == Done(([id], [source]), rest)
  {
  }

  lemma {:induction false} AssignmentNext(
    ts: seq<Token>, id: string, source: Source, after: seq<Token>, names: seq<string>, sources: seq<Source>,
    rest: seq<Token>)
    requires ts != [] && ts[0] == TQuoted(id) && Starts(ts[1..], TOp("="))
    requires ParseSource(ts[2..]) == Done(source, after) && Starts(after, TSym(','))
    requires ParseAssignments(after[1..]) == Done((names, sources), rest)
    ensures ParseAssignments(ts) == Done(([id] + names, [source] + sources), rest)
  {
  }

  // ----- RETURNING -----

  function SelectedNames(m: EntityMapping): seq<string> {
    NamesOf(m.fields, FieldsWith(m, Selecting))
  }

  function ReturningTokens(m: EntityMapping, returning: bool): seq<Token> {
    if returning then [TWord("RETURNING")] + Commas(NamePieces(SelectedNames(m))) else []
  }

  lemma {:induction false} SelectedLex(m: EntityMapping)
    ensures SelectedColumns(m).Ok?
    ensures Lexes(SelectedColumns(m).value, Commas(NamePieces(SelectedNames(m))))
  {
    QuotedColumnsLex(m.fields, FieldsWith(m, Selecting));
    JoinLexes(QuotedColumns(m.fields, FieldsWith(m, Selecting)).value, NamePieces(SelectedNames(m)));
  }

  lemma {:induction false} ReturningLexes(m: EntityMapping, returning: bool, q: PgCompiledQuery, tokens: seq<Token>)
    requires Lexes(q.sql, tokens)
    ensures Returning(m, returning, q).Ok? && Returning(m, returning, q).value.bindings == q.bindings
    ensures Lexes(Returning(m, returning, q).value.sql, tokens + ReturningTokens(m, returning))
  {
    SelectedLex(m);
    if returning {
      var columns := SelectedColumns(m).value;
      var names := Commas(NamePieces(SelectedNames(m)));
      ReturningClosed();
      ThenLexes(" RETURNING ", [TWord("RETURNING")], columns, names);
      ThenLexes(q.sql, tokens, " RETURNING " + columns, [TWord("RETURNING")] + names);
      Assoc(q.sql, " RETURNING ", columns);
    } else {
      assert tokens + [] == tokens;
    }
  }

  lemma {:induction false} ReturningParses(m: EntityMapping, returning: bool)
    requires SelectedNames(m) != []
    ensures ParseReturning(ReturningTokens(m, returning)) == Some(if returning then SelectedNames(m) else [])
  {
    if returning {
      var names := Commas(NamePieces(SelectedNames(m)));
      NamesParse(SelectedNames(m), []);
      assert names + [] == names;
      assert ([TWord("RETURNING")] + names)[1..] == names;
    }
  }

  // ----- INSERT -----

  function InsertTokens(m: EntityMapping, e: Encoded): seq<Token>
    requires Writable(m, e, FieldsWith(m, Inserting))
  {
    var fs := FieldsWith(m, Inserting);
    var head := [TWord("INSERT"), TWord("INTO")] + TableTokens(m.table);
    if fs == [] then head + [TWord("DEFAULT"), TWord("VALUES")]
    else
      head + [TSym('(')] + Commas(NamePieces(NamesOf(m.fields, fs)))
      + [TSym(')'), TWord("VALUES"), TSym('(')] + Commas(SourcePieces(m, e, fs, 0)) + [TSym(')')]
  }

  lemma {:induction false} InsertHeadLexes(m: EntityMapping)
    ensures Lexes("INSERT INTO " + QuotedTable(m.table), [TWord("INSERT"), TWord("INTO")] + TableTokens(m.table))
  {
    InsertIntoClosed();
    TableLexes(m.table);
    ThenLexes("INSERT INTO ", [TWord("INSERT"), TWord("INTO")], QuotedTable(m.table), TableTokens(m.table));
  }

  lemma {:induction false} ListedLexes(
    head: string, headTokens: seq<Token>, names: string, nameTokens: seq<Token>, values: string, valueTokens: seq<Token>)
    requires Lexes(head, headTokens) && Lexes(names, nameTokens) && Lexes(values, valueTokens)
    ensures Lexes(head + " (" + names + ") VALUES (" + values + ")",
                  headTokens + [TSym('(')] + nameTokens + [TSym(')'), TWord("VALUES"), TSym('(')] + valueTokens + [TSym(')')])
  {
    OpenListClosed();
    ValuesClosed();
    SymClosed(')');
    var open := headTokens + [TSym('(')];
    ThenClosed(head, headTokens, " (", [TSym('(')]);
    ThenLexes(head + " (", open, names, nameTokens);
    var middle := open + nameTokens + [TSym(')'), TWord("VALUES"), TSym('(')];
    ThenClosed(head + " (" + names, open + nameTokens, ") VALUES (", [TSym(')'), TWord("VALUES"), TSym('(')]);
    ThenLexes(head + " (" + names + ") VALUES (", middle, values, valueTokens);
    ThenClosed(head + " (" + names + ") VALUES (" + values, middle + valueTokens, ")", [TSym(')')]);
  }

  lemma {:induction false} InsertLexes(m: EntityMapping, e: Encoded, returning: bool)
    requires InsertStatement(m, e, returning).Ok?
    ensures Writable(m, e, FieldsWith(m, Inserting))
    ensures Lexes(InsertStatement(m, e, returning).value.sql, InsertTokens(m, e) + ReturningTokens(m, returning))
  {
    var fs := FieldsWith(m, Inserting);
    var head := "INSERT INTO " + QuotedTable(m.table);
    var headTokens := [TWord("INSERT"), TWord("INTO")] + TableTokens(m.table);
    InsertHeadLexes(m);
    if fs == [] {
      DefaultValuesLexes();
      ThenLexes(head, headTokens, " DEFAULT VALUES", [TWord("DEFAULT"), TWord("VALUES")]);
      ReturningLexes(m, returning, PgCompiledQuery(head + " DEFAULT VALUES", []), InsertTokens(m, e));
    } else {
      var columns := QuotedColumns(m.fields, fs).value;
      var sources := SourceItems(m, e, fs, 0).value;
      QuotedColumnsLex(m.fields, fs);
      JoinLexes(columns, NamePieces(NamesOf(m.fields, fs)));
      SourcesWritable(m, e, fs, 0);
      SourcesLex(m, e, fs, 0);
      JoinLexes(sources.texts, SourcePieces(m, e, fs, 0));
      ListedLexes(head, headTokens, JoinComma(columns), Commas(NamePieces(NamesOf(m.fields, fs))),
                  JoinComma(sources.texts), Commas(SourcePieces(m, e, fs, 0)));
      ReturningLexes(m, returning,
                     PgCompiledQuery(head + " (" + JoinComma(columns) + ") VALUES (" + JoinComma(sources.texts) + ")",
                                     sources.bindings),
                     InsertTokens(m, e));
    }
  }

  /** The statement an insert is meant to be. */
  function IntendedInsert(m: EntityMapping, e: Encoded, returning: bool): Statement
    requires Writable(m, e, FieldsWith(m, Inserting))
  {
    var fs := FieldsWith(m, Inserting);
    Insert(TableNameOf(m.table), NamesOf(m.fields, fs), SourcesOf(m, e, fs, 0),
           if returning then SelectedNames(m) else [])
  }

  lemma {:induction false} InsertListParses(
    table: TableName, rest: seq<Token>, names: seq<string>, values: seq<Token>, sources: seq<Source>,
    tail: seq<Token>, returned: seq<string>, ts: seq<Token>)
    requires names != []
    requires rest == [TSym('(')] + (Commas(NamePieces(names)) + ([TSym(')'), TWord("VALUES"), TSym('(')]
                     + (values + ([TSym(')')] + tail))))
    requires ParseTable(ts) == Done(table, rest)
    requires ParseSources(values + ([TSym(')')] + tail)) == Done(sources, [TSym(')')] + tail)
    requires ParseReturning(tail) == Some(returned)
    ensures ParseInsert(ts) == Some(Insert(table, names, sources, returned))
  {
    var after := [TSym(')'), TWord("VALUES"), TSym('(')] + (values + ([TSym(')')] + tail));
    NamesParse(names, after);
    assert rest[1..] == Commas(NamePieces(names)) + after;
    assert after[3..] == values + ([TSym(')')] + tail);
    assert ([TSym(')')] + tail)[1..] == tail;
    InsertParts(ts, table, rest, names, after, sources, [TSym(')')] + tail, returned);
  }

  lemma {:induction false} InsertParts(
    ts: seq<Token>, table: TableName, rest: seq<Token>, names: seq<string>, after: seq<Token>, sources: seq<Source>,
    end: seq<Token>, returned: seq<string>)
    requires ParseTable(ts) == Done(table, rest) && Starts(rest, TSym('('))
    requires ParseNames(rest[1..]) == Done(names, after)
    requires |after| >= 3 && after[0] == TSym(')') && after[1] == TWord("VALUES") && after[2] == TSym('(')
    requires ParseSources(after[3..]) == Done(sources, end) && Starts(end, TSym(')'))
    requires ParseReturning(end[1..]) == Some(returned)
    ensures ParseInsert(ts) == Some(Insert(table, names, sources, returned))
  {
  }

  lemma {:induction false} InsertGrouped(a: seq<Token>, b: seq<Token>, c: seq<Token>, d: seq<Token>, e: seq<Token>, f: seq<Token>, g: seq<Token>)
    ensures [TWord("INSERT"), TWord("INTO")] + a + b + c + d + e + f + g
         == [TWord("INSERT"), TWord("INTO")] + (a + (b + (c + (d + (e + (f + g))))))
  {
  }

  /** What the server reads from a compiled insert: each column, its source, the returned columns. */
  lemma {:induction false} InsertReads(m: EntityMapping, e: Encoded, returning: bool)
    requires SelectedNames(m) != [] && InsertStatement(m, e, returning).Ok?
    ensures Writable(m, e, FieldsWith(m, Inserting))
    ensures ParseStatement(Lex(InsertStatement(m, e, returning).value.sql)) == Some(IntendedInsert(m, e, returning))
  {
    InsertLexes(m, e, returning);
    WholeText(InsertStatement(m, e, returning).value.sql, InsertTokens(m, e) + ReturningTokens(m, returning));
    InsertTokensParse(m, e, returning);
  }

  lemma {:induction false} InsertHeadParses(after: seq<Token>)
    ensures ParseStatement([TWord("INSERT"), TWord("INTO")] + after) == ParseInsert(after)
  {
    var ts := [TWord("INSERT"), TWord("INTO")] + after;
    assert ts[1..] == [TWord("INTO")] + after;
    assert ts[2..] == after;
  }

  lemma {:induction false} DefaultValuesParse(table: PgTable, tail: seq<Token>, returned: seq<string>)
    requires ParseReturning(tail) == Some(returned)
    ensures ParseInsert(TableTokens(table) + ([TWord("DEFAULT"), TWord("VALUES")] + tail))
         == Some(Insert(TableNameOf(table), [], [], returned))
  {
    var rest := [TWord("DEFAULT"), TWord("VALUES")] + tail;
    TableParses(table, rest);
    assert rest[1..] == [TWord("VALUES")] + tail;
    assert rest[2..] == tail;
  }

  lemma {:induction false} InsertTokensParse(m: EntityMapping, e: Encoded, returning: bool)
    requires SelectedNames(m) != []
    requires Writable(m, e, FieldsWith(m, Inserting))
    ensures ParseStatement(InsertTokens(m, e) + ReturningTokens(m, returning)) == Some(IntendedInsert(m, e, returning))
  {
    var fs := FieldsWith(m, Inserting);
    var tail := ReturningTokens(m, returning);
    var table := TableTokens(m.table);
    ReturningParses(m, returning);
    if fs == [] {
      var rest := [TWord("DEFAULT"), TWord("VALUES")] + tail;
      assert InsertTokens(m, e) + tail == [TWord("INSERT"), TWord("INTO")] + (table + rest);
      InsertHeadParses(table + rest);
      DefaultValuesParse(m.table, tail, if returning then SelectedNames(m) else []);
    } else {
      FilledInsertParses(m, e, fs, returning);
    }
  }

  lemma {:induction false} FilledInsertParses(m: EntityMapping, e: Encoded, fs: seq<FieldName>, returning: bool)
    requires SelectedNames(m) != [] && fs == FieldsWith(m, Inserting) && fs != [] && Writable(m, e, fs)
    ensures ParseStatement(InsertTokens(m, e) + ReturningTokens(m, returning)) == Some(IntendedInsert(m, e, returning))
  {
    var tail := ReturningTokens(m, returning);
    var table := TableTokens(m.table);
    var names := NamesOf(m.fields, fs);
    var values := Commas(SourcePieces(m, e, fs, 0));
    var rest := [TSym('(')] + (Commas(NamePieces(names)) + ([TSym(')'), TWord("VALUES"), TSym('(')]
                + (values + ([TSym(')')] + tail))));
    InsertGrouped(table, [TSym('(')], Commas(NamePieces(names)),
                  [TSym(')'), TWord("VALUES"), TSym('(')], values, [TSym(')')], tail);
    InsertHeadParses(table + rest);
    TableParses(m.table, rest);
    SourcesParse(m, e, fs, 0, [TSym(')')] + tail);
    ReturningParses(m, returning);
    InsertListParses(TableNameOf(m.table), rest, names, values, SourcesOf(m, e, fs, 0), tail,
                     if returning then SelectedNames(m) else [], table + rest);
  }

  // ----- The identity condition -----

  function IdTokens(column: PgColumn, index: nat): seq<Token> {
    [TQuoted(column.identifier), TOp("=")] + ParamTokens(index, PlaceholderCast(column.kind))
  }

  /** The identity is compared as a bare column: no cast, no collation. */
  function IdExpr(column: PgColumn, index: nat): Expr {
    ECompare(CEq, EColumn(column.identifier), ParamExpr(index, PlaceholderCast(column.kind)))
  }

  lemma {:induction false} IdLexes(column: PgColumn, index: nat)
    ensures Lexes(Quoted(column.identifier) + " = " + Placeholder(index, PlaceholderCast(column.kind)),
                  IdTokens(column, index))
  {
    CastNamesAreWords(column.kind);
    PlaceholderLexes(index, PlaceholderCast(column.kind));
    AssignedLexes(column.identifier, Placeholder(index, PlaceholderCast(column.kind)),
                  ParamTokens(index, PlaceholderCast(column.kind)));
  }

  lemma {:induction false} BareColumnParses(name: string, rest: seq<Token>)
    requires Starts(rest, TOp("="))
    ensures ParseCollate([TQuoted(name)] + rest) == Done(EColumn(name), rest)
  {
    var ts := [TQuoted(name)] + rest;
    assert ts[1..] == rest;
    assert ParsePrimary(ts) == Done(EColumn(name), rest);
    assert ParseCast(ts) == Done(EColumn(name), rest);
  }

  lemma {:induction false} IdParses(column: PgColumn, index: nat, rest: seq<Token>)
    requires Ends(rest) && !Starts(rest, TWord("AND")) && !Starts(rest, TWord("OR"))
    ensures ParseExpr(IdTokens(column, index) + rest) == Done(IdExpr(column, index), rest)
  {
    var cast := PlaceholderCast(column.kind);
    var operand := ParamTokens(index, cast) + rest;
    var after := [TOp("=")] + operand;
    var ts := [TQuoted(column.identifier)] + after;
    assert IdTokens(column, index) + rest == ts;
    BareColumnParses(column.identifier, after);
    FirstDropped(TOp("="), operand);
    ParamParses(index, cast, rest);
    CompareClimbs(ts, EColumn(column.identifier), after, CEq, operand, ParamExpr(index, cast), rest);
    ExprClimbs(ts, IdExpr(column, index), rest);
  }

  lemma {:induction false} WhereIdParses(column: PgColumn, index: nat, rest: seq<Token>)
    requires Ends(rest) && !Starts(rest, TWord("AND")) && !Starts(rest, TWord("OR"))
    ensures ParseClause("WHERE", [TWord("WHERE")] + (IdTokens(column, index) + rest))
         == Done(Some(IdExpr(column, index)), rest)
  {
    IdParses(column, index, rest);
    assert ([TWord("WHERE")] + (IdTokens(column, index) + rest))[1..] == IdTokens(column, index) + rest;
  }

  // ----- DELETE -----

  lemma {:induction false} RemoveReads(m: EntityMapping, id: Result<PgValue>)
    requires m.idField in m.fields && RemoveStatement(m, id).Ok?
    ensures ParseStatement(Lex(RemoveStatement(m, id).value.sql))
         == Some(Delete(TableNameOf(m.table), Some(IdExpr(m.fields[m.idField], 1))))
  {
    var column := m.fields[m.idField];
    var condition := CompiledId(m, id).value;
    var table := TableTokens(m.table);
    var filter := [TWord("WHERE")] + IdTokens(column, 1);
    DeleteFromClosed();
    TableLexes(m.table);
    WhereClosed();
    IdLexes(column, 1);
    var head := [TWord("DELETE"), TWord("FROM")];
    ThenLexes("DELETE FROM ", head, QuotedTable(m.table), table);
    ThenClosed("DELETE FROM " + QuotedTable(m.table), head + table, " WHERE ", [TWord("WHERE")]);
    ThenLexes("DELETE FROM " + QuotedTable(m.table) + " WHERE ", head + table + [TWord("WHERE")],
              condition.sql, IdTokens(column, 1));
    WholeText(RemoveStatement(m, id).value.sql, head + table + [TWord("WHERE")] + IdTokens(column, 1));
    RemoveTokensParse(m.table, column);
  }

  lemma {:induction false} DeleteGrouped(a: seq<Token>, b: seq<Token>)
    ensures var ts := [TWord("DELETE"), TWord("FROM")] + a + [TWord("WHERE")] + b;
            && |ts| > 2 && ts[0] == TWord("DELETE") && ts[1] == TWord("FROM")
            && ts[1..][0] == TWord("FROM") && ts[2..] == a + ([TWord("WHERE")] + (b + []))
  {
  }

  lemma {:induction false} DeleteParts(ts: seq<Token>, table: TableName, filter: seq<Token>, e: Expr)
    requires |ts| > 2 && ts[0] == TWord("DELETE") && Starts(ts[1..], TWord("FROM"))
    requires ParseTable(ts[2..]) == Done(table, filter) && ParseClause("WHERE", filter) == Done(Some(e), [])
    ensures ParseStatement(ts) == Some(Delete(table, Some(e)))
  {
  }

  lemma {:induction false} RemoveTokensParse(table: PgTable, column: PgColumn)
    ensures ParseStatement([TWord("DELETE"), TWord("FROM")] + TableTokens(table) + [TWord("WHERE")] + IdTokens(column, 1))
         == Some(Delete(TableNameOf(table), Some(IdExpr(column, 1))))
  {
    var filter := [TWord("WHERE")] + (IdTokens(column, 1) + []);
    DeleteGrouped(TableTokens(table), IdTokens(column, 1));
    TableParses(table, filter);
    WhereIdParses(column, 1, []);
    DeleteParts([TWord("DELETE"), TWord("FROM")] + TableTokens(table) + [TWord("WHERE")] + IdTokens(column, 1),
                TableNameOf(table), filter, IdExpr(column, 1));
  }

  // ----- UPDATE -----

  function ReplaceTokens(m: EntityMapping, e: Encoded, index: nat): seq<Token>
    requires m.idField in m.fields && Writable(m, e, ReplacedFields(m))
  {
    [TWord("UPDATE")] + TableTokens(m.table) + [TWord("SET")] + Commas(AssignmentPieces(m, e, ReplacedFields(m), 0))
    + [TWord("WHERE")] + IdTokens(m.fields[m.idField], index)
  }

  lemma {:induction false} UpdateTextLexes(
    table: string, tableTokens: seq<Token>, sets: string, setTokens: seq<Token>, filter: string, filterTokens: seq<Token>)
    requires Lexes(table, tableTokens) && Lexes(sets, setTokens) && Lexes(filter, filterTokens)
    ensures Lexes("UPDATE " + table + " SET " + sets + " WHERE " + filter,
                  [TWord("UPDATE")] + tableTokens + [TWord("SET")] + setTokens + [TWord("WHERE")] + filterTokens)
  {
    UpdateClosed();
    SetClosed();
    WhereClosed();
    var a := [TWord("UPDATE")] + tableTokens;
    var b := a + [TWord("SET")];
    var c := b + setTokens + [TWord("WHERE")];
    ThenLexes("UPDATE ", [TWord("UPDATE")], table, tableTokens);
    ThenClosed("UPDATE " + table, a, " SET ", [TWord("SET")]);
    ThenLexes("UPDATE " + table + " SET ", b, sets, setTokens);
    ThenClosed("UPDATE " + table + " SET " + sets, b + setTokens, " WHERE ", [TWord("WHERE")]);
    ThenLexes("UPDATE " + table + " SET " + sets + " WHERE ", c, filter, filterTokens);
  }

  /** The identity's placeholder comes after those of the assignments. */
  function IdIndex(m: EntityMapping, e: Encoded): nat {
    match AssignmentItems(m, e, ReplacedFields(m), 0)
    case Ok(sources) => |sources.bindings| + 1
    case Err(_) => 0
  }

  lemma {:induction false} FilterGrouped(head: string, a: string, b: string, c: string, tokens: seq<Token>)
    requires Lexes(head + (a + b + c), tokens)
    ensures Lexes(head + a + b + c, tokens)
  {
    assert head + a + b + c == head + (a + b + c);
  }

  lemma {:induction false} ReplaceBodyLexes(m: EntityMapping, e: Encoded, column: PgColumn, texts: seq<string>)
    requires m.idField in m.fields && column == m.fields[m.idField]
    requires Writable(m, e, ReplacedFields(m))
    requires AllLex(texts, AssignmentPieces(m, e, ReplacedFields(m), 0))
    ensures Lexes("UPDATE " + QuotedTable(m.table) + " SET " + JoinComma(texts)
                  + " WHERE " + Quoted(column.identifier) + " = "
                  + Placeholder(IdIndex(m, e), PlaceholderCast(column.kind)),
                  ReplaceTokens(m, e, IdIndex(m, e)))
  {
    var pieces := AssignmentPieces(m, e, ReplacedFields(m), 0);
    var placeholder := Placeholder(IdIndex(m, e), PlaceholderCast(column.kind));
    JoinLexes(texts, pieces);
    TableLexes(m.table);
    IdLexes(column, IdIndex(m, e));
    UpdateTextLexes(QuotedTable(m.table), TableTokens(m.table), JoinComma(texts), Commas(pieces),
                    Quoted(column.identifier) + " = " + placeholder, IdTokens(column, IdIndex(m, e)));
    FilterGrouped("UPDATE " + QuotedTable(m.table) + " SET " + JoinComma(texts) + " WHERE ",
                  Quoted(column.identifier), " = ", placeholder, ReplaceTokens(m, e, IdIndex(m, e)));
  }

  lemma {:induction false} ReplaceLexes(m: EntityMapping, e: Encoded, returning: bool)
    requires m.idField in m.fields && ReplaceStatement(m, e, returning).Ok?
    ensures Writable(m, e, ReplacedFields(m))
    ensures Lexes(ReplaceStatement(m, e, returning).value.sql,
                  ReplaceTokens(m, e, IdIndex(m, e)) + ReturningTokens(m, returning))
  {
    var fs := ReplacedFields(m);
    var column := m.fields[m.idField];
    var sources := AssignmentItems(m, e, fs, 0).value;
    SourcesWritable(m, e, fs, 0);
    AssignmentsLex(m, e, fs, 0);
    ReplaceBodyLexes(m, e, column, sources.texts);
    var body := "UPDATE " + QuotedTable(m.table) + " SET " + JoinComma(sources.texts)
                + " WHERE " + Quoted(column.identifier) + " = "
                + Placeholder(IdIndex(m, e), PlaceholderCast(column.kind));
    ReturningLexes(m, returning, PgCompiledQuery(body, sources.bindings + [IdBinding(m, e.id).value]),
                   ReplaceTokens(m, e, IdIndex(m, e)));
  }

  function IntendedReplace(m: EntityMapping, e: Encoded, returning: bool): Statement
    requires m.idField in m.fields && Writable(m, e, ReplacedFields(m))
  {
    Update(TableNameOf(m.table), NamesOf(m.fields, ReplacedFields(m)), SourcesOf(m, e, ReplacedFields(m), 0),
           Some(IdExpr(m.fields[m.idField], IdIndex(m, e))), if returning then SelectedNames(m) else [])
  }

  /** What the server reads from a compiled replacement. */
  lemma {:induction false} ReplaceReads(m: EntityMapping, e: Encoded, returning: bool)
    requires SelectedNames(m) != [] && m.idField in m.fields && ReplaceStatement(m, e, returning).Ok?
    ensures Writable(m, e, ReplacedFields(m))
    ensures ParseStatement(Lex(ReplaceStatement(m, e, returning).value.sql)) == Some(IntendedReplace(m, e, returning))
  {
    ReplaceLexes(m, e, returning);
    WholeText(ReplaceStatement(m, e, returning).value.sql,
              ReplaceTokens(m, e, IdIndex(m, e)) + ReturningTokens(m, returning));
    ReplaceTokensParse(m, e, returning);
  }

  lemma {:induction false} ReplaceGrouped(a: seq<Token>, b: seq<Token>, c: seq<Token>, d: seq<Token>)
    ensures [TWord("UPDATE")] + a + [TWord("SET")] + b + [TWord("WHERE")] + c + d
         == [TWord("UPDATE")] + (a + ([TWord("SET")] + (b + ([TWord("WHERE")] + (c + d)))))
  {
  }

  lemma {:induction false} UpdateParts(
    ts: seq<Token>, table: TableName, sets: seq<Token>, columns: seq<string>, sources: seq<Source>,
    filter: seq<Token>, e: Expr, tail: seq<Token>, returned: seq<string>)
    requires Starts(ts, TWord("UPDATE")) && ParseTable(ts[1..]) == Done(table, sets) && Starts(sets, TWord("SET"))
    requires ParseAssignments(sets[1..]) == Done((columns, sources), filter)
    requires ParseClause("WHERE", filter) == Done(Some(e), tail)
    requires ParseReturning(tail) == Some(returned)
    ensures ParseStatement(ts) == Some(Update(table, columns, sources, Some(e), returned))
  {
  }

  lemma {:induction false} ReplaceTokensParse(m: EntityMapping, e: Encoded, returning: bool)
    requires SelectedNames(m) != [] && m.idField in m.fields
    requires ReplacedFields(m) != [] && Writable(m, e, ReplacedFields(m))
    ensures ParseStatement(ReplaceTokens(m, e, IdIndex(m, e)) + ReturningTokens(m, returning))
         == Some(IntendedReplace(m, e, returning))
  {
    var fs := ReplacedFields(m);
    var column := m.fields[m.idField];
    var tail := ReturningTokens(m, returning);
    var sets := Commas(AssignmentPieces(m, e, fs, 0));
    var filter := [TWord("WHERE")] + (IdTokens(column, IdIndex(m, e)) + tail);
    var rest := [TWord("SET")] + (sets + filter);
    var after := TableTokens(m.table) + rest;
    ReplaceGrouped(TableTokens(m.table), sets, IdTokens(column, IdIndex(m, e)), tail);
    FirstDropped(TWord("UPDATE"), after);
    TableParses(m.table, rest);
    AssignmentsParse(m, e, fs, 0, filter);
    WhereIdParses(column, IdIndex(m, e), tail);
    ReturningParses(m, returning);
    FirstDropped(TWord("SET"), sets + filter);
    UpdateParts([TWord("UPDATE")] + after, TableNameOf(m.table), rest, NamesOf(m.fields, fs), SourcesOf(m, e, fs, 0),
                filter, IdExpr(column, IdIndex(m, e)), tail, if returning then SelectedNames(m) else []);
  }
}
