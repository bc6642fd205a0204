// What find and count statements yield on a table: exactly the portable filter, sort and
// slice, and the size of it.

module FindTheorems {
  import opened Results
  import opened Mapping
  import opened Values
  import opened Conditions
  import opened Compiler
  import opened Entity
  import opened Repository
  import opened SqlGrammar
  import opened SqlSemantics
  import opened SqlStatements
  import opened Intended
  import opened MeaningProofs
  import opened StatementProofs
  import opened SelectProofs
  import opened Queries

  /** The mapped columns exist, with their kinds. */
  predicate InSchema(m: EntityMapping, schema: Schema) {
    forall f | f in m.fields ::
      m.fields[f].identifier in schema && schema[m.fields[f].identifier] == m.fields[f].kind
  }

  /** The table is the one the mapping describes, and its rows are well typed. */
  ghost predicate Hosts(m: EntityMapping, table: Table) {
    && table.name == TableNameOf(m.table)
    && InSchema(m, table.schema)
    && forall r | r in table.rows :: RowFits(table.schema, r)
  }

  lemma {:induction false} HostedRows(m: EntityMapping, table: Table)
    requires Hosts(m, table)
    ensures TypedRows(m.fields, table.rows)
  {
  }

  // ----- Filter -----

  lemma {:induction false} FilterMeans(server: Server, fields: FieldMap, params: FindParams, binds: seq<Value>, row: Row)
    requires FindReady(fields, params) && WhereFragment(fields, params.condition).Ok? && TypedRow(fields, row)
    requires BoundAt(binds, 0, WhereFragment(fields, params.condition).value.bindings)
    ensures params.condition.Some? ==>
              Judge(server, FilterExpr(fields, params).value, row, binds)
              == AcceptsIf(Matches(server, fields, params.condition, row))
  {
    if params.condition.Some? {
      var c := params.condition.value;
      var bindings := ConditionFragment(fields, c, 0).value.bindings;
      assert [] + bindings == bindings;
      ConditionMeans(server, fields, c, 0, row, binds);
    }
  }

  lemma {:induction false} KeptIsFiltered(
    server: Server, fields: FieldMap, params: FindParams, binds: seq<Value>, rows: seq<Row>)
    requires FindReady(fields, params) && WhereFragment(fields, params.condition).Ok? && TypedRows(fields, rows)
    requires BoundAt(binds, 0, WhereFragment(fields, params.condition).value.bindings)
    ensures FilterSound(server, FilterExpr(fields, params), binds, rows)
    ensures Kept(server, FilterExpr(fields, params), binds, rows)
         == Filtered(server, fields, params.condition, rows)
    decreases |rows|
  {
    if rows != [] {
      assert rows == [rows[0]] + rows[1..];
      FilterMeans(server, fields, params, binds, rows[0]);
      KeptIsFiltered(server, fields, params, binds, rows[1..]);
      assert forall r | r in rows :: r == rows[0] || r in rows[1..];
    }
  }

  // ----- Order -----

  lemma {:induction false} KeyMeans(server: Server, column: PgColumn, direction: SortDirection, v: Value, w: Value)
    requires HasKind(v, column.kind) && HasKind(w, column.kind)
    ensures CompareKeys(server, SortKey(ColumnExpr(column), direction.Ascending?, direction.Ascending?), v, w)
         == Directed(direction, CompareField(v, w))
  {
    if !v.VNull? && !w.VNull? {
      OneKindOneType(v, w, column.kind);
      ValueLessTotal(v, w);
      assert column.kind.Text? ==> CollatedC(ColumnExpr(column));
    }
  }

  lemma {:induction false} KeysMean(
    server: Server, fields: FieldMap, sort: seq<Sort>, i: nat, a: Row, b: Row, binds: seq<Value>)
    requires i <= |sort| && SortMapped(fields, sort) && TypedRow(fields, a) && TypedRow(fields, b)
    ensures CompareRows(server, OrderKeys(fields, sort, i), a, b, binds)
         == Some(CompareRecords(fields, sort[i..], a, b))
    decreases |sort| - i
  {
    if i < |sort| {
      var column := fields[sort[i].field];
      assert sort[i..][0] == sort[i] && sort[i..][1..] == sort[i + 1..];
      ColumnMeans(server, column, a, binds);
      ColumnMeans(server, column, b, binds);
      KeyMeans(server, column, sort[i].direction, a[column.identifier], b[column.identifier]);
      FieldsCompare(a[column.identifier], b[column.identifier], column.kind);
      KeysMean(server, fields, sort, i + 1, a, b, binds);
      assert OrderKeys(fields, sort, i)[1..] == OrderKeys(fields, sort, i + 1);
    }
  }

  lemma {:induction false} OrderMeans(server: Server, fields: FieldMap, sort: seq<Sort>, rows: seq<Row>, binds: seq<Value>)
    requires SortMapped(fields, sort) && TypedRows(fields, rows)
    ensures OrderedBy(server, OrderKeys(fields, sort, 0), rows, binds) <==> Arranged(fields, sort, rows)
  {
    assert sort[0..] == sort;
    forall i, j | 0 <= i < j < |rows|
      ensures CompareRows(server, OrderKeys(fields, sort, 0), rows[i], rows[j], binds)
           == Some(CompareRecords(fields, sort, rows[i], rows[j]))
    {
      KeysMean(server, fields, sort, 0, rows[i], rows[j], binds);
    }
  }

  // ----- Page -----

  lemma {:induction false} AmountMeans(server: Server, index: nat, amount: nat, binds: seq<Value>)
    requires 0 < index <= |binds| && binds[index - 1] == VBigint(amount)
    ensures Amount(server, Some(EParam(index)), binds) == Some(Some(amount))
  {
    assert Eval(server, EParam(index), map[], binds) == Some(binds[index - 1]);
  }

  lemma {:induction false} PagesMean(server: Server, fields: FieldMap, params: FindParams, binds: seq<Value>)
    requires FindReady(fields, params) && WhereFragment(fields, params.condition).Ok?
    requires |WhereFragment(fields, params.condition).value.bindings| == FilterSlots(params)
    requires (params.limit.Some? ==> params.limit.value <= MAX_BIGINT) && params.offset <= MAX_BIGINT
    requires binds == BindValues(FindBindings(fields, params))
    ensures Amount(server, if params.limit.Some? then Some(EParam(LimitIndex(params))) else None, binds)
         == Some(params.limit)
    ensures Amount(server, if params.offset > 0 then Some(EParam(OffsetIndex(params))) else None, binds)
         == Some(if params.offset > 0 then Some(params.offset) else None)
  {
    var bindings := FindBindings(fields, params);
    if params.limit.Some? {
      assert bindings[LimitIndex(params) - 1] == PgBindValue.I64(params.limit.value);
      AmountMeans(server, LimitIndex(params), params.limit.value, binds);
    }
    if params.offset > 0 {
      assert bindings[OffsetIndex(params) - 1] == PgBindValue.I64(params.offset);
      AmountMeans(server, OffsetIndex(params), params.offset, binds);
    }
  }

  lemma {:induction false} PageIsSlice(rows: seq<Row>, limit: Option<nat>, offset: nat)
    ensures Page(rows, limit, offset) == Slice(rows, limit, offset)
  {
  }

  // ----- Find -----

  /** A portable answer to find: a slice of some arrangement of the selected rows. */
  ghost predicate FindAnswer(server: Server, m: EntityMapping, params: FindParams, rows: seq<Row>, answer: seq<Row>)
    requires ValidParams(params) && SortMapped(m.fields, params.sort) && TypedRows(m.fields, rows)
  {
    exists sorted ::
      && Arrangement(server, m.fields, params, rows, sorted)
      && answer == ProjectAll(Slice(sorted, params.limit, params.offset), SelectedNames(m))
  }

  lemma {:induction false} PermutedRows(fields: FieldMap, s: seq<Row>, t: seq<Row>)
    requires multiset(s) == multiset(t) && TypedRows(fields, t)
    ensures TypedRows(fields, s)
  {
    forall r | r in s ensures TypedRow(fields, r) {
      assert r in multiset(t);
    }
  }

  lemma {:induction false} SelectedInSchema(m: EntityMapping, table: Table)
    requires Hosts(m, table)
    ensures forall c | c in SelectedNames(m) :: c in table.schema
  {
    var fs := FieldsWith(m, Selecting);
    forall c | c in SelectedNames(m) ensures c in table.schema {
      var k :| 0 <= k < |fs| && SelectedNames(m)[k] == c;
      assert fs[k] in fs && c == m.fields[fs[k]].identifier;
    }
  }

  lemma {:induction false} FindMeansSorted(
    server: Server, m: EntityMapping, params: FindParams, table: Table, binds: seq<Value>, answer: seq<Row>)
    requires FindReady(m.fields, params) && Hosts(m, table) && TypedRows(m.fields, table.rows)
    requires FilterSound(server, FilterExpr(m.fields, params), binds, table.rows)
    requires Kept(server, FilterExpr(m.fields, params), binds, table.rows)
          == Filtered(server, m.fields, params.condition, table.rows)
    requires Amount(server, IntendedFind(m, params).limit, binds) == Some(params.limit)
    requires Amount(server, IntendedFind(m, params).offset, binds)
          == Some(if params.offset > 0 then Some(params.offset) else None)
    ensures SelectAnswers(server, IntendedFind(m, params), binds, table, answer)
       <==> FindAnswer(server, m, params, table.rows, answer)
  {
    SelectedInSchema(m, table);
    var kept := Filtered(server, m.fields, params.condition, table.rows);
    forall sorted: seq<Row> | multiset(sorted) == multiset(kept)
      ensures TypedRows(m.fields, sorted)
      ensures OrderedBy(server, OrderKeys(m.fields, params.sort, 0), sorted, binds)
         <==> Arranged(m.fields, params.sort, sorted)
      ensures Page(sorted, params.limit, params.offset) == Slice(sorted, params.limit, params.offset)
    {
      PermutedRows(m.fields, sorted, kept);
      OrderMeans(server, m.fields, params.sort, sorted, binds);
      PageIsSlice(sorted, params.limit, params.offset);
    }
  }

  /** The bindings a compiled find sends. */
  lemma {:induction false} FindSends(m: EntityMapping, params: FindParams)
    requires FindStatement(m, params).Ok?
    ensures FindReady(m.fields, params) && WhereFragment(m.fields, params.condition).Ok?
    ensures |WhereFragment(m.fields, params.condition).value.bindings| == FilterSlots(params)
    ensures (params.limit.Some? ==> params.limit.value <= MAX_BIGINT) && params.offset <= MAX_BIGINT
    ensures FindStatement(m, params).value.bindings == FindBindings(m.fields, params)
    ensures BoundAt(BindValues(FindBindings(m.fields, params)), 0,
                    WhereFragment(m.fields, params.condition).value.bindings)
  {
    FindIsReady(m.fields, params);
    FindLexes(m.fields, params);
    WhereLexes(m.fields, params);
  }

  /** A compiled find, as text with bindings, answers exactly with filter, then sort, then slice. */
  lemma {:induction false} FindMeans(server: Server, m: EntityMapping, params: FindParams, table: Table, answer: seq<Row>)
    requires SelectedNames(m) != [] && FindStatement(m, params).Ok? && Hosts(m, table)
    ensures FindReady(m.fields, params) && TypedRows(m.fields, table.rows)
    ensures var q := FindStatement(m, params).value;
            Answers(server, q.sql, BindValues(q.bindings), table, answer)
            <==> FindAnswer(server, m, params, table.rows, answer)
  {
    var binds := BindValues(FindStatement(m, params).value.bindings);
    FindReads(m, params);
    FindSends(m, params);
    HostedRows(m, table);
    KeptIsFiltered(server, m.fields, params, binds, table.rows);
    PagesMean(server, m.fields, params, binds);
    FindMeansSorted(server, m, params, table, binds, answer);
  }

  /** Without visible ties all arrangements look the same. */
  lemma {:induction false} ArrangementsLookAlike(
    server: Server, m: EntityMapping, params: FindParams, rows: seq<Row>, s: seq<Row>, t: seq<Row>)
    requires ValidParams(params) && SortMapped(m.fields, params.sort) && TypedRows(m.fields, rows)
    requires NoVisibleTies(m.fields, params.sort, SelectedNames(m), Filtered(server, m.fields, params.condition, rows))
    requires Arrangement(server, m.fields, params, rows, s) && Arrangement(server, m.fields, params, rows, t)
    ensures ProjectAll(s, SelectedNames(m)) == ProjectAll(t, SelectedNames(m))
  {
    var kept := Filtered(server, m.fields, params.condition, rows);
    assert |multiset(s)| == |s| && |multiset(t)| == |t|;
    forall k | 0 <= k < |s| ensures Project(s[k], SelectedNames(m)) == Project(t[k], SelectedNames(m)) {
      PositionsTie(m.fields, params.sort, s, t, k);
      assert s[k] in multiset(kept) && t[k] in multiset(kept);
    }
  }

  lemma {:induction false} SlicedProjection(rows: seq<Row>, limit: Option<nat>, offset: nat, columns: seq<string>)
    ensures ProjectAll(Slice(rows, limit, offset), columns) == Slice(ProjectAll(rows, columns), limit, offset)
  {
  }

  /** Without visible ties every answer is the one slice of any arrangement. */
  lemma {:induction false} AnswerIsDetermined(
    server: Server, m: EntityMapping, params: FindParams, rows: seq<Row>, sorted: seq<Row>, answer: seq<Row>)
    requires ValidParams(params) && SortMapped(m.fields, params.sort) && TypedRows(m.fields, rows)
    requires NoVisibleTies(m.fields, params.sort, SelectedNames(m), Filtered(server, m.fields, params.condition, rows))
    requires Arrangement(server, m.fields, params, rows, sorted) && FindAnswer(server, m, params, rows, answer)
    ensures answer == ProjectAll(Slice(sorted, params.limit, params.offset), SelectedNames(m))
  {
    var other :| Arrangement(server, m.fields, params, rows, other)
                 && answer == ProjectAll(Slice(other, params.limit, params.offset), SelectedNames(m));
    ArrangementsLookAlike(server, m, params, rows, sorted, other);
    SlicedProjection(sorted, params.limit, params.offset, SelectedNames(m));
    SlicedProjection(other, params.limit, params.offset, SelectedNames(m));
  }

  /** A find always has an answer, and without visible ties only one. */
  lemma {:induction false} FindHasAnswers(server: Server, m: EntityMapping, params: FindParams, rows: seq<Row>) returns (answer: seq<Row>)
    requires ValidParams(params) && SortMapped(m.fields, params.sort) && TypedRows(m.fields, rows)
    ensures FindAnswer(server, m, params, rows, answer)
    ensures NoVisibleTies(m.fields, params.sort, SelectedNames(m), Filtered(server, m.fields, params.condition, rows)) ==>
              forall other | FindAnswer(server, m, params, rows, other) :: other == answer
  {
    var kept := Filtered(server, m.fields, params.condition, rows);
    var sorted := SomeArrangement(m.fields, params.sort, kept);
    assert Arrangement(server, m.fields, params, rows, sorted);
    answer := ProjectAll(Slice(sorted, params.limit, params.offset), SelectedNames(m));
    if NoVisibleTies(m.fields, params.sort, SelectedNames(m), kept) {
      forall other | FindAnswer(server, m, params, rows, other) ensures other == answer {
        AnswerIsDetermined(server, m, params, rows, sorted, other);
      }
    }
  }
}
