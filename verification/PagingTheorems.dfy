// What callers of find and count may rely on across several calls: when a find compiles,
// pages that add up, reversed orders, counts that agree.

module PagingTheorems {
  import opened Results
  import opened Mapping
  import opened Values
  import opened Conditions
  import opened Compiler
  import opened Entity
  import opened Repository
  import opened SqlSemantics
  import opened SqlStatements
  import opened LexingProofs
  import opened MeaningProofs
  import opened StatementProofs
  import opened SelectProofs
  import opened ConditionTheorems
  import opened Queries
  import opened FindTheorems

  // ----- When a find compiles -----

  lemma {:induction false} FindCompilesExactlyWhen(m: EntityMapping, params: FindParams)
    ensures FindStatement(m, params).Ok?
       <==> && (params.condition.Some? ==>
                  ValidCondition(params.condition.value) && Compilable(m.fields, params.condition.value))
            && (forall s | s in params.sort :: s.field in m.fields)
            && (params.limit.Some? ==> params.limit.value <= 9_223_372_036_854_775_807)
            && params.offset <= 9_223_372_036_854_775_807
  {
    PrefixLexes(m);
    assert SortMapped(m.fields, params.sort) <==> forall s | s in params.sort :: s.field in m.fields;
    if ValidParams(params) && params.condition.Some? {
      CompilesExactlyWhen(m.fields, params.condition.value, 0);
    }
    if FindFragment(m.fields, params).Ok? {
      FindIsReady(m.fields, params);
    } else if ValidParams(params) && WhereFragment(m.fields, params.condition).Ok? && SortMapped(m.fields, params.sort)
              && (params.limit.Some? ==> params.limit.value <= MAX_BIGINT) && params.offset <= MAX_BIGINT {
      if params.condition.Some? {
        CompiledIsMapped(m.fields, params.condition.value, 0);
      }
      FindLexes(m.fields, params);
    }
  }

  // ----- Pages -----

  function PageOf(params: FindParams, size: nat, offset: nat): FindParams {
    params.(limit := Some(size), offset := offset)
  }

  function From(params: FindParams, offset: nat): FindParams {
    params.(limit := None, offset := offset)
  }

  /** A find that compiles and that the server may answer so. */
  ghost predicate Answered(server: Server, m: EntityMapping, params: FindParams, table: Table, answer: seq<Row>) {
    && FindStatement(m, params).Ok?
    && var q := FindStatement(m, params).value;
       Answers(server, q.sql, BindValues(q.bindings), table, answer)
  }

  /**
   * A client asks for page after page and stops at the first short one; `answered` says
   * what the page at an offset may be.
   */
  ghost predicate Walk(answered: (nat, seq<Row>) -> bool, size: nat, offset: nat, pages: seq<seq<Row>>)
    decreases |pages|
  {
    && pages != []
    && answered(offset, pages[0])
    && if |pages[0]| < size then |pages| == 1 else Walk(answered, size, offset + size, pages[1..])
  }

  ghost function Paging(server: Server, m: EntityMapping, params: FindParams, size: nat, table: Table)
    : (nat, seq<Row>) -> bool
  {
    (offset: nat, page: seq<Row>) => Answered(server, m, PageOf(params, size, offset), table, page)
  }

  function Concat<T>(pages: seq<seq<T>>): seq<T> {
    if pages == [] then [] else pages[0] + Concat(pages[1..])
  }

  lemma {:induction false} ProjectedSlices(rows: seq<Row>, more: seq<Row>, columns: seq<string>)
    ensures ProjectAll(rows + more, columns) == ProjectAll(rows, columns) + ProjectAll(more, columns)
  {
  }

  lemma {:induction false} ShortPage(rows: seq<Row>, size: nat, offset: nat, page: seq<Row>, columns: seq<string>)
    requires page == ProjectAll(Slice(rows, Some(size), offset), columns) && |page| < size
    ensures page == ProjectAll(Slice(rows, None, offset), columns)
  {
    assert Slice(rows, Some(size), offset) == Slice(rows, None, offset);
  }

  lemma {:induction false} NextPages(rows: seq<Row>, size: nat, offset: nat, page: seq<Row>, rest: seq<Row>, columns: seq<string>)
    requires page == ProjectAll(Slice(rows, Some(size), offset), columns)
    requires rest == ProjectAll(Slice(rows, None, offset + size), columns)
    ensures page + rest == ProjectAll(Slice(rows, None, offset), columns)
  {
    ProjectedSlices(Slice(rows, Some(size), offset), Slice(rows, None, offset + size), columns);
    SlicesJoin(rows, size, None, offset);
  }

  lemma {:induction false} WalkedPages(
    answered: (nat, seq<Row>) -> bool, size: nat, offset: nat, pages: seq<seq<Row>>, rows: seq<Row>, columns: seq<string>)
    requires Walk(answered, size, offset, pages)
    requires forall o, page | answered(o, page) :: page == ProjectAll(Slice(rows, Some(size), o), columns)
    ensures Concat(pages) == ProjectAll(Slice(rows, None, offset), columns)
    decreases |pages|
  {
    if |pages[0]| < size {
      assert Concat(pages[1..]) == [];
      assert pages[0] + [] == pages[0];
      ShortPage(rows, size, offset, pages[0], columns);
    } else {
      WalkedPages(answered, size, offset + size, pages[1..], rows, columns);
      NextPages(rows, size, offset, pages[0], Concat(pages[1..]), columns);
    }
  }

  lemma {:induction false} FirstPage(
    server: Server, m: EntityMapping, params: FindParams, size: nat, offset: nat, table: Table,
    page: seq<Row>, sorted: seq<Row>)
    requires SelectedNames(m) != [] && Hosts(m, table)
    requires Answered(server, m, PageOf(params, size, offset), table, page)
    requires TypedRows(m.fields, table.rows) && ValidParams(params) && SortMapped(m.fields, params.sort)
    requires NoVisibleTies(m.fields, params.sort, SelectedNames(m),
                           Filtered(server, m.fields, params.condition, table.rows))
    requires Arrangement(server, m.fields, params, table.rows, sorted)
    ensures page == ProjectAll(Slice(sorted, Some(size), offset), SelectedNames(m))
  {
    var paged := PageOf(params, size, offset);
    FindMeans(server, m, paged, table, page);
    assert Arrangement(server, m.fields, paged, table.rows, sorted);
    AnswerIsDetermined(server, m, paged, table.rows, sorted, page);
  }

  /** Without visible ties the unpaged find has the whole arrangement for its one answer. */
  lemma {:induction false} WholeAnswer(
    server: Server, m: EntityMapping, params: FindParams, start: nat, table: Table, sorted: seq<Row>, answer: seq<Row>)
    requires SelectedNames(m) != [] && Hosts(m, table)
    requires TypedRows(m.fields, table.rows) && ValidParams(params) && SortMapped(m.fields, params.sort)
    requires FindStatement(m, From(params, start)).Ok?
    requires NoVisibleTies(m.fields, params.sort, SelectedNames(m),
                           Filtered(server, m.fields, params.condition, table.rows))
    requires Arrangement(server, m.fields, params, table.rows, sorted)
    ensures Answered(server, m, From(params, start), table, answer)
       <==> answer == ProjectAll(Slice(sorted, None, start), SelectedNames(m))
  {
    var whole := From(params, start);
    FindMeans(server, m, whole, table, answer);
    assert Arrangement(server, m.fields, whole, table.rows, sorted);
    if FindAnswer(server, m, whole, table.rows, answer) {
      AnswerIsDetermined(server, m, whole, table.rows, sorted, answer);
    }
  }

  /**
   * Under an order without visible ties, the pages of a client that starts anywhere and stops
   * at the first short one concatenate to the one answer of the same find without a limit.
   */
  lemma {:induction false} PagesConcatenate(
    server: Server, m: EntityMapping, params: FindParams, size: nat, start: nat, table: Table, pages: seq<seq<Row>>)
    requires SelectedNames(m) != [] && Hosts(m, table)
    requires Walk(Paging(server, m, params, size, table), size, start, pages)
    requires TypedRows(m.fields, table.rows) && ValidParams(params) && SortMapped(m.fields, params.sort)
    requires NoVisibleTies(m.fields, params.sort, SelectedNames(m),
                           Filtered(server, m.fields, params.condition, table.rows))
    ensures forall answer ::
              Answered(server, m, From(params, start), table, answer) <==> answer == Concat(pages)
  {
    var sorted := SomeArrangement(m.fields, params.sort, Filtered(server, m.fields, params.condition, table.rows));
    assert Arrangement(server, m.fields, params, table.rows, sorted);
    var answered := Paging(server, m, params, size, table);
    forall o, page | answered(o, page) ensures page == ProjectAll(Slice(sorted, Some(size), o), SelectedNames(m)) {
      FirstPage(server, m, params, size, o, table, page, sorted);
    }
    WalkedPages(answered, size, start, pages, sorted, SelectedNames(m));
    assert answered(start, pages[0]);
    FindCompilesExactlyWhen(m, PageOf(params, size, start));
    FindCompilesExactlyWhen(m, From(params, start));
    forall answer
      ensures Answered(server, m, From(params, start), table, answer) <==> answer == Concat(pages)
    {
      WholeAnswer(server, m, params, start, table, sorted, answer);
    }
  }

  // ----- Reversed orders -----

  function Reversed<T>(s: seq<T>): (r: seq<T>)
    ensures |r| == |s| && forall i | 0 <= i < |s| :: r[i] == s[|s| - 1 - i]
  {
    if s == [] then [] else Reversed(s[1..]) + [s[0]]
  }

  lemma {:induction false} ReversedContents<T>(s: seq<T>)
    ensures multiset(Reversed(s)) == multiset(s)
  {
    if s != [] {
      ReversedContents(s[1..]);
      assert s == [s[0]] + s[1..];
    }
  }

  lemma {:induction false} ReversedIsArranged(fields: FieldMap, sort: seq<Sort>, sorted: seq<Row>)
    requires SortMapped(fields, sort) && TypedRows(fields, sorted) && Arranged(fields, sort, sorted)
    ensures TypedRows(fields, Reversed(sorted)) && Arranged(fields, Flipped(sort), Reversed(sorted))
  {
    var back := Reversed(sorted);
    ReversedContents(sorted);
    PermutedRows(fields, back, sorted);
    forall i, j | 0 <= i < j < |back|
      ensures CompareRecords(fields, Flipped(sort), back[i], back[j]) <= 0
    {
      assert back[i] == sorted[|sorted| - 1 - i] && back[j] == sorted[|sorted| - 1 - j];
      FlippingReverses(fields, sort, RecordOf(fields, back[i]), RecordOf(fields, back[j]));
    }
  }

  lemma {:induction false} WholeSlice<T>(rows: seq<T>)
    ensures Slice(rows, None, 0) == rows
  {
  }

  lemma {:induction false} ReversedProjection(rows: seq<Row>, columns: seq<string>)
    ensures Reversed(ProjectAll(rows, columns)) == ProjectAll(Reversed(rows), columns)
  {
  }

  /** Asking for every sort direction flipped gives the reversed answers of the same find. */
  lemma {:induction false} FlippedFindReverses(server: Server, m: EntityMapping, params: FindParams, rows: seq<Row>, answer: seq<Row>)
    requires ValidParams(params) && SortMapped(m.fields, params.sort) && TypedRows(m.fields, rows)
    requires params.limit.None? && params.offset == 0
    requires FindAnswer(server, m, params, rows, answer)
    ensures FindAnswer(server, m, params.(sort := Flipped(params.sort)), rows, Reversed(answer))
  {
    var sorted :| Arrangement(server, m.fields, params, rows, sorted)
                  && answer == ProjectAll(Slice(sorted, params.limit, params.offset), SelectedNames(m));
    ReversedContents(sorted);
    ReversedIsArranged(m.fields, params.sort, sorted);
    assert Arrangement(server, m.fields, params.(sort := Flipped(params.sort)), rows, Reversed(sorted));
    WholeSlice(sorted);
    WholeSlice(Reversed(sorted));
    ReversedProjection(sorted, SelectedNames(m));
  }

  // ----- Count -----

  /** A compiled count yields the number of rows the condition holds of. */
  lemma {:induction false} CountMeans(server: Server, m: EntityMapping, params: FindParams, table: Table)
    requires CountStatement(m, params).Ok? && Hosts(m, table)
    ensures ValidParams(params) && TypedRows(m.fields, table.rows)
    ensures var q := CountStatement(m, params).value;
            CountAnswer(server, q.sql, BindValues(q.bindings), table)
            == Some(|Filtered(server, m.fields, params.condition, table.rows)|)
  {
    var unsorted := params.(sort := []);
    CountReads(m, params);
    HostedRows(m, table);
    KeptIsFiltered(server, m.fields, unsorted, BindValues(CountStatement(m, params).value.bindings), table.rows);
  }

  /** Find writes what count writes, and goes on. */
  lemma {:induction false} CountIsAPrefix(fields: FieldMap, params: FindParams)
    requires FindFragment(fields, params).Ok?
    ensures CountFragment(fields, params).Ok?
    ensures CountFragment(fields, params).value.sql <= FindFragment(fields, params).value.sql
    ensures CountFragment(fields, params).value.bindings <= FindFragment(fields, params).value.bindings
  {
    var filtered := WhereFragment(fields, params.condition).value;
    var sorted := SortFragment(fields, params.sort, filtered).value;
    assert filtered.sql <= sorted.sql && filtered.bindings == sorted.bindings;
    PagesExtend(params.limit, params.offset, sorted);
  }

  lemma {:induction false} PagesExtend(limit: Option<nat>, offset: nat, q: PgCompiledQuery)
    requires PagedFragment(limit, offset, q).Ok?
    ensures q.sql <= PagedFragment(limit, offset, q).value.sql
    ensures q.bindings <= PagedFragment(limit, offset, q).value.bindings
  {
  }

  /**
   * Count succeeds whenever find does, ignores sort, limit and offset, and is the number
   * of rows of any answer of the unpaged find.
   */
  lemma {:induction false} CountAgreesWithFind(
    server: Server, m: EntityMapping, params: FindParams, other: FindParams, table: Table, answer: seq<Row>)
    requires SelectedNames(m) != [] && Hosts(m, table)
    requires FindStatement(m, params).Ok? && other.condition == params.condition
    requires Answered(server, m, params.(limit := None, offset := 0), table, answer)
    ensures CountStatement(m, other) == CountStatement(m, params) && CountStatement(m, params).Ok?
    ensures var q := CountStatement(m, params).value;
            CountAnswer(server, q.sql, BindValues(q.bindings), table) == Some(|answer|)
  {
    CountIsAPrefix(m.fields, params);
    CountMeans(server, m, params, table);
    var unpaged := params.(limit := None, offset := 0);
    FindMeans(server, m, unpaged, table, answer);
    var sorted :| Arrangement(server, m.fields, unpaged, table.rows, sorted)
                  && answer == ProjectAll(Slice(sorted, unpaged.limit, unpaged.offset), SelectedNames(m));
    assert |sorted| == |multiset(sorted)|;
    var kept := Filtered(server, m.fields, params.condition, table.rows);
    assert |kept| == |multiset(kept)|;
  }
}
