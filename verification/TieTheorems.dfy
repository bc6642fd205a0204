// How far answers and pages are free when rows tie: the conditions under which they are not
// are exact.

module TieTheorems {
  import opened Results
  import opened Mapping
  import opened Values
  import opened Conditions
  import opened Entity
  import opened Repository
  import opened SqlSemantics
  import opened SqlStatements
  import opened MeaningProofs
  import opened StatementProofs
  import opened Queries
  import opened FindTheorems
  import opened PagingTheorems

  // ----- Tied rows may stand either way -----

  function Removed(rows: seq<Row>, row: Row): (r: seq<Row>)
    requires row in rows
    ensures multiset(rows) == multiset{row} + multiset(r)
    ensures forall x | x in r :: x in rows
  {
    assert rows == [rows[0]] + rows[1..];
    if rows[0] == row then rows[1..] else [rows[0]] + Removed(rows[1..], row)
  }

  lemma {:induction false} WithoutBoth(kept: seq<Row>, a: Row, b: Row) returns (others: seq<Row>)
    requires a in kept && b in kept && a != b
    ensures multiset(kept) == multiset{a, b} + multiset(others)
    ensures forall x | x in others :: x in kept
  {
    var without := Removed(kept, a);
    assert b in multiset(kept) && b in multiset(without);
    others := Removed(without, b);
  }

  lemma {:induction false} PairContents(p: seq<Row>, a: Row, b: Row, q: seq<Row>)
    ensures multiset(p + [a] + [b] + q) == multiset{a, b} + multiset(p + q) == multiset(p + [b] + [a] + q)
  {
  }

  /** Every row of `a` may stand before every row of `b`. */
  ghost predicate AllBefore(fields: FieldMap, sort: seq<Sort>, a: seq<Row>, b: seq<Row>)
    requires SortMapped(fields, sort) && TypedRows(fields, a) && TypedRows(fields, b)
  {
    forall i, j | 0 <= i < |a| && 0 <= j < |b| :: CompareRecords(fields, sort, a[i], b[j]) <= 0
  }

  lemma {:induction false} JoinArranged(fields: FieldMap, sort: seq<Sort>, a: seq<Row>, b: seq<Row>)
    requires SortMapped(fields, sort) && TypedRows(fields, a) && TypedRows(fields, b)
    requires Arranged(fields, sort, a) && Arranged(fields, sort, b) && AllBefore(fields, sort, a, b)
    ensures TypedRows(fields, a + b) && Arranged(fields, sort, a + b)
  {
  }

  lemma {:induction false} BeforeBoth(fields: FieldMap, sort: seq<Sort>, a: seq<Row>, b: seq<Row>, c: seq<Row>)
    requires SortMapped(fields, sort) && TypedRows(fields, a) && TypedRows(fields, b) && TypedRows(fields, c)
    requires AllBefore(fields, sort, a, b) && AllBefore(fields, sort, a, c)
    ensures TypedRows(fields, b + c) && AllBefore(fields, sort, a, b + c)
  {
  }

  /** Where a row may be put into an arranged list. */
  lemma {:induction false} Place(fields: FieldMap, sort: seq<Sort>, row: Row, sorted: seq<Row>)
    returns (p: seq<Row>, q: seq<Row>)
    requires SortMapped(fields, sort) && TypedRow(fields, row) && TypedRows(fields, sorted)
    requires Arranged(fields, sort, sorted)
    ensures sorted == p + q && TypedRows(fields, p) && TypedRows(fields, q)
    ensures Arranged(fields, sort, p) && Arranged(fields, sort, q) && AllBefore(fields, sort, p, q)
    ensures AllBefore(fields, sort, p, [row]) && AllBefore(fields, sort, [row], q)
  {
    var i := 0;
    while i < |sorted| && CompareRecords(fields, sort, sorted[i], row) <= 0
      invariant i <= |sorted|
      invariant forall k | 0 <= k < i :: CompareRecords(fields, sort, sorted[k], row) <= 0
    {
      i := i + 1;
    }
    p, q := Halves(fields, sort, sorted, i);
    StandsAfter(fields, sort, row, p);
    StandsBefore(fields, sort, row, q);
  }

  lemma {:induction false} Halves(fields: FieldMap, sort: seq<Sort>, sorted: seq<Row>, i: nat)
    returns (p: seq<Row>, q: seq<Row>)
    requires SortMapped(fields, sort) && TypedRows(fields, sorted) && Arranged(fields, sort, sorted) && i <= |sorted|
    ensures sorted == p + q && p == sorted[..i] && q == sorted[i..]
    ensures TypedRows(fields, p) && TypedRows(fields, q)
    ensures Arranged(fields, sort, p) && Arranged(fields, sort, q) && AllBefore(fields, sort, p, q)
  {
    p, q := sorted[..i], sorted[i..];
  }

  lemma {:induction false} StandsAfter(fields: FieldMap, sort: seq<Sort>, row: Row, p: seq<Row>)
    requires SortMapped(fields, sort) && TypedRow(fields, row) && TypedRows(fields, p)
    requires forall k | 0 <= k < |p| :: CompareRecords(fields, sort, p[k], row) <= 0
    ensures AllBefore(fields, sort, p, [row])
  {
  }

  lemma {:induction false} StandsBefore(fields: FieldMap, sort: seq<Sort>, row: Row, q: seq<Row>)
    requires SortMapped(fields, sort) && TypedRow(fields, row) && TypedRows(fields, q) && Arranged(fields, sort, q)
    requires q != [] ==> CompareRecords(fields, sort, q[0], row) > 0
    ensures AllBefore(fields, sort, [row], q)
  {
    forall j | 0 <= j < |q| ensures CompareRecords(fields, sort, row, q[j]) <= 0 {
      CompareSwaps(fields, sort, RecordOf(fields, row), RecordOf(fields, q[0]));
      if j > 0 {
        CompareChains(fields, sort, RecordOf(fields, row), RecordOf(fields, q[0]), RecordOf(fields, q[j]));
      }
    }
  }

  /** Rows tied with one that fits between two lists fit there as well. */
  lemma {:induction false} TiedFits(fields: FieldMap, sort: seq<Sort>, a: Row, b: Row, p: seq<Row>, q: seq<Row>)
    requires SortMapped(fields, sort) && TypedRow(fields, a) && TypedRow(fields, b)
    requires TypedRows(fields, p) && TypedRows(fields, q) && CompareRecords(fields, sort, a, b) == 0
    requires AllBefore(fields, sort, p, [a]) && AllBefore(fields, sort, [a], q)
    ensures AllBefore(fields, sort, p, [b]) && AllBefore(fields, sort, [b], q)
  {
    CompareSwaps(fields, sort, RecordOf(fields, a), RecordOf(fields, b));
    forall i | 0 <= i < |p| ensures CompareRecords(fields, sort, p[i], b) <= 0 {
      assert CompareRecords(fields, sort, p[i], [a][0]) <= 0;
      CompareChains(fields, sort, RecordOf(fields, p[i]), RecordOf(fields, a), RecordOf(fields, b));
    }
    forall j | 0 <= j < |q| ensures CompareRecords(fields, sort, b, q[j]) <= 0 {
      assert CompareRecords(fields, sort, [a][0], q[j]) <= 0;
      CompareChains(fields, sort, RecordOf(fields, b), RecordOf(fields, a), RecordOf(fields, q[j]));
    }
  }

  lemma {:induction false} PairArranged(fields: FieldMap, sort: seq<Sort>, p: seq<Row>, a: Row, b: Row, q: seq<Row>)
    requires SortMapped(fields, sort) && TypedRow(fields, a) && TypedRow(fields, b)
    requires TypedRows(fields, p) && TypedRows(fields, q) && CompareRecords(fields, sort, a, b) <= 0
    requires Arranged(fields, sort, p) && Arranged(fields, sort, q) && AllBefore(fields, sort, p, q)
    requires AllBefore(fields, sort, p, [a]) && AllBefore(fields, sort, [a], q)
    requires AllBefore(fields, sort, p, [b]) && AllBefore(fields, sort, [b], q)
    ensures TypedRows(fields, p + [a] + [b] + q) && Arranged(fields, sort, p + [a] + [b] + q)
  {
    JoinArranged(fields, sort, [b], q);
    BeforeBoth(fields, sort, [a], [b], q);
    JoinArranged(fields, sort, [a], [b] + q);
    BeforeBoth(fields, sort, p, [b], q);
    BeforeBoth(fields, sort, p, [a], [b] + q);
    JoinArranged(fields, sort, p, [a] + ([b] + q));
    assert p + [a] + [b] + q == p + ([a] + ([b] + q));
  }

  /** Two tied rows stand next to each other in some arrangement, and may change places. */
  lemma {:induction false} TwoArrangements(fields: FieldMap, sort: seq<Sort>, a: Row, b: Row, kept: seq<Row>)
    returns (p: seq<Row>, q: seq<Row>)
    requires SortMapped(fields, sort) && TypedRows(fields, kept)
    requires a in kept && b in kept && a != b && CompareRecords(fields, sort, a, b) == 0
    ensures multiset(p + [a] + [b] + q) == multiset(kept) == multiset(p + [b] + [a] + q)
    ensures TypedRows(fields, p + [a] + [b] + q) && Arranged(fields, sort, p + [a] + [b] + q)
    ensures TypedRows(fields, p + [b] + [a] + q) && Arranged(fields, sort, p + [b] + [a] + q)
  {
    var others := WithoutBoth(kept, a, b);
    var rest := SomeArrangement(fields, sort, others);
    p, q := Place(fields, sort, a, rest);
    PairContents(p, a, b, q);
    TiedFits(fields, sort, a, b, p, q);
    CompareSwaps(fields, sort, RecordOf(fields, a), RecordOf(fields, b));
    PairArranged(fields, sort, p, a, b, q);
    PairArranged(fields, sort, p, b, a, q);
  }

  /** Whole rows arrange in only one way precisely when no two different selected rows tie. */
  lemma {:induction false} OneWayExactlyWithoutTies(server: Server, m: EntityMapping, params: FindParams, rows: seq<Row>)
    requires ValidParams(params) && SortMapped(m.fields, params.sort) && TypedRows(m.fields, rows)
    ensures TieFree(m.fields, params.sort, Filtered(server, m.fields, params.condition, rows))
       <==> forall s, t | Arrangement(server, m.fields, params, rows, s) && Arrangement(server, m.fields, params, rows, t)
              :: s == t
  {
    var kept := Filtered(server, m.fields, params.condition, rows);
    if TieFree(m.fields, params.sort, kept) {
      forall s, t | Arrangement(server, m.fields, params, rows, s) && Arrangement(server, m.fields, params, rows, t)
        ensures s == t
      {
        UniqueArrangement(m.fields, params.sort, kept, s, t);
      }
    } else {
      var a, b :| a in kept && b in kept && CompareRecords(m.fields, params.sort, a, b) == 0 && a != b;
      var s, t := TwoWays(m.fields, params.sort, a, b, kept);
      assert Arrangement(server, m.fields, params, rows, s);
      assert Arrangement(server, m.fields, params, rows, t);
    }
  }

  lemma {:induction false} TwoWays(fields: FieldMap, sort: seq<Sort>, a: Row, b: Row, kept: seq<Row>)
    returns (s: seq<Row>, t: seq<Row>)
    requires SortMapped(fields, sort) && TypedRows(fields, kept)
    requires a in kept && b in kept && a != b && CompareRecords(fields, sort, a, b) == 0
    ensures multiset(s) == multiset(kept) == multiset(t) && s != t
    ensures TypedRows(fields, s) && Arranged(fields, sort, s) && TypedRows(fields, t) && Arranged(fields, sort, t)
  {
    var p, q := TwoArrangements(fields, sort, a, b, kept);
    s, t := p + [a] + [b] + q, p + [b] + [a] + q;
    assert s[|p|] == a && t[|p|] == b;
  }

  lemma {:induction false} UniqueArrangement(fields: FieldMap, sort: seq<Sort>, kept: seq<Row>, s: seq<Row>, t: seq<Row>)
    requires SortMapped(fields, sort) && TypedRows(fields, kept) && TieFree(fields, sort, kept)
    requires TypedRows(fields, s) && TypedRows(fields, t)
    requires multiset(s) == multiset(kept) == multiset(t) && Arranged(fields, sort, s) && Arranged(fields, sort, t)
    ensures s == t
  {
    assert |multiset(s)| == |s| && |multiset(t)| == |t|;
    forall k | 0 <= k < |s| ensures s[k] == t[k] {
      PositionsTie(fields, sort, s, t, k);
      assert s[k] in multiset(kept) && t[k] in multiset(kept);
    }
  }

  // ----- Pages of two arrangements -----

  /** What a page may be, for a server that keeps to one arrangement from some offset on. */
  lemma {:induction false} WalkFrom(
    answered: (nat, seq<Row>) -> bool, size: nat, offset: nat, rows: seq<Row>, columns: seq<string>)
    returns (pages: seq<seq<Row>>)
    requires size > 0 && offset <= |rows|
    requires forall o: nat | o <= |rows| :: answered(o, ProjectAll(Slice(rows, Some(size), o), columns))
    ensures Walk(answered, size, offset, pages)
    ensures Concat(pages) == ProjectAll(Slice(rows, None, offset), columns)
    decreases |rows| - offset
  {
    var page := ProjectAll(Slice(rows, Some(size), offset), columns);
    if |page| < size {
      pages := [page];
      ShortPage(rows, size, offset, page, columns);
      assert pages[1..] == [] && page + [] == page;
    } else {
      var rest := WalkFrom(answered, size, offset + size, rows, columns);
      pages := [page] + rest;
      assert pages[1..] == rest;
      NextPages(rows, size, offset, page, Concat(rest), columns);
    }
  }

  lemma {:induction false} PageAnswered(
    server: Server, m: EntityMapping, params: FindParams, size: nat, offset: nat, table: Table, sorted: seq<Row>)
    requires SelectedNames(m) != [] && Hosts(m, table) && FindStatement(m, From(params, 0)).Ok?
    requires size <= MAX_BIGINT && offset <= MAX_BIGINT
    requires TypedRows(m.fields, table.rows) && ValidParams(params) && SortMapped(m.fields, params.sort)
    requires Arrangement(server, m.fields, params, table.rows, sorted)
    ensures Paging(server, m, params, size, table)(
              offset, ProjectAll(Slice(sorted, Some(size), offset), SelectedNames(m)))
  {
    var paged := PageOf(params, size, offset);
    FindCompilesExactlyWhen(m, From(params, 0));
    FindCompilesExactlyWhen(m, paged);
    assert Arrangement(server, m.fields, paged, table.rows, sorted);
    FindMeans(server, m, paged, table, ProjectAll(Slice(sorted, Some(size), offset), SelectedNames(m)));
  }

  lemma {:induction false} AllPagesAnswered(
    server: Server, m: EntityMapping, params: FindParams, size: nat, table: Table, sorted: seq<Row>)
    requires SelectedNames(m) != [] && Hosts(m, table) && FindStatement(m, From(params, 0)).Ok?
    requires size <= MAX_BIGINT && |sorted| <= MAX_BIGINT
    requires TypedRows(m.fields, table.rows) && ValidParams(params) && SortMapped(m.fields, params.sort)
    requires Arrangement(server, m.fields, params, table.rows, sorted)
    ensures forall o: nat | o <= |sorted| ::
              Paging(server, m, params, size, table)(o, ProjectAll(Slice(sorted, Some(size), o), SelectedNames(m)))
  {
    forall o: nat | o <= |sorted|
      ensures Paging(server, m, params, size, table)(o, ProjectAll(Slice(sorted, Some(size), o), SelectedNames(m)))
    {
      PageAnswered(server, m, params, size, o, table, sorted);
    }
  }

  lemma {:induction false} SelectedAtMost(server: Server, fields: FieldMap, condition: Option<Condition>, rows: seq<Row>)
    requires (condition.Some? ==> ValidCondition(condition.value)) && TypedRows(fields, rows)
    ensures |Filtered(server, fields, condition, rows)| <= |rows|
    decreases |rows|
  {
    if rows != [] {
      SelectedAtMost(server, fields, condition, rows[1..]);
    }
  }

  lemma {:induction false} SameTally(s: seq<Row>, t: seq<Row>, columns: seq<string>, seen: Row)
    requires ProjectAll(s, columns) == ProjectAll(t, columns)
    ensures var shows := (x: Row) => Project(x, columns) == seen; Tally(s, shows) == Tally(t, shows)
    decreases |s|
  {
    assert |ProjectAll(s, columns)| == |ProjectAll(t, columns)|;
    if s != [] {
      assert ProjectAll(s, columns)[0] == ProjectAll(t, columns)[0];
      assert ProjectAll(s[1..], columns) == ProjectAll(s, columns)[1..];
      assert ProjectAll(t[1..], columns) == ProjectAll(t, columns)[1..];
      SameTally(s[1..], t[1..], columns, seen);
    }
  }

  /** Showing one of two visibly different rows twice is not showing both. */
  lemma {:induction false} TwiceIsNotBoth(p: seq<Row>, a: Row, b: Row, q: seq<Row>, u: seq<Row>, columns: seq<string>)
    requires Project(a, columns) != Project(b, columns)
    requires multiset(u) == multiset(p + [a] + [b] + q)
    ensures ProjectAll(u, columns) != ProjectAll(p + [a] + [a] + q, columns)
  {
    var seen := Project(a, columns);
    var shows := (x: Row) => Project(x, columns) == seen;
    TallySame(u, p + [a] + [b] + q, shows);
    TallyMiddle(p + [a], b, q, shows);
    TallyMiddle(p + [a], a, q, shows);
    if ProjectAll(u, columns) == ProjectAll(p + [a] + [a] + q, columns) {
      SameTally(u, p + [a] + [a] + q, columns, seen);
    }
  }

  lemma {:induction false} SplitPages(p: seq<Row>, a: Row, b: Row, q: seq<Row>, columns: seq<string>)
    ensures ProjectAll(Slice(p + [a] + [b] + q, Some(|p| + 1), 0), columns)
            + ProjectAll(Slice(p + [b] + [a] + q, None, |p| + 1), columns)
         == ProjectAll(p + [a] + [a] + q, columns)
  {
    assert Slice(p + [a] + [b] + q, Some(|p| + 1), 0) == p + [a];
    assert Slice(p + [b] + [a] + q, None, |p| + 1) == [a] + q;
    ProjectedSlices(p + [a], [a] + q, columns);
    assert p + [a] + ([a] + q) == p + [a] + [a] + q;
  }

  lemma {:induction false} WalkAfter(
    answered: (nat, seq<Row>) -> bool, size: nat, first: seq<Row>, rest: seq<seq<Row>>)
    requires size > 0 && answered(0, first) && |first| == size && Walk(answered, size, size, rest)
    ensures Walk(answered, size, 0, [first] + rest) && Concat([first] + rest) == first + Concat(rest)
  {
    assert ([first] + rest)[1..] == rest;
  }

  /** The first page from one order of two rows, the others from the other order. */
  lemma {:induction false} TiedWalk(
    answered: (nat, seq<Row>) -> bool, size: nat, p: seq<Row>, a: Row, b: Row, q: seq<Row>, t: seq<Row>,
    columns: seq<string>) returns (pages: seq<seq<Row>>)
    requires size == |p| + 1 && t == p + [b] + [a] + q
    requires answered(0, ProjectAll(Slice(p + [a] + [b] + q, Some(size), 0), columns))
    requires forall o: nat | o <= |t| :: answered(o, ProjectAll(Slice(t, Some(size), o), columns))
    ensures Walk(answered, size, 0, pages) && Concat(pages) == ProjectAll(p + [a] + [a] + q, columns)
  {
    var first := ProjectAll(Slice(p + [a] + [b] + q, Some(size), 0), columns);
    var rest := WalkFrom(answered, size, size, t, columns);
    pages := [first] + rest;
    WalkAfter(answered, size, first, rest);
    SplitPages(p, a, b, q, columns);
  }

  /** The server may order two tied rows either way. */
  lemma {:induction false} TwoSelections(
    server: Server, fields: FieldMap, params: FindParams, rows: seq<Row>, a: Row, b: Row)
    returns (p: seq<Row>, q: seq<Row>)
    requires TypedRows(fields, rows) && ValidParams(params) && SortMapped(fields, params.sort)
    requires var kept := Filtered(server, fields, params.condition, rows);
             a in kept && b in kept && a != b && CompareRecords(fields, params.sort, a, b) == 0
    ensures Arrangement(server, fields, params, rows, p + [a] + [b] + q)
    ensures Arrangement(server, fields, params, rows, p + [b] + [a] + q)
    ensures |p| + 2 + |q| <= |rows|
  {
    var kept := Filtered(server, fields, params.condition, rows);
    p, q := TwoArrangements(fields, params.sort, a, b, kept);
    SelectedAtMost(server, fields, params.condition, rows);
    assert |multiset(p + [a] + [b] + q)| == |multiset(kept)|;
  }

  /** With a visible tie a client may be shown a row twice and another never. */
  lemma {:induction false} TiedPages(
    server: Server, m: EntityMapping, params: FindParams, table: Table, a: Row, b: Row)
    returns (size: nat, pages: seq<seq<Row>>)
    requires SelectedNames(m) != [] && Hosts(m, table) && |table.rows| <= MAX_BIGINT
    requires FindStatement(m, From(params, 0)).Ok?
    requires TypedRows(m.fields, table.rows) && ValidParams(params) && SortMapped(m.fields, params.sort)
    requires var kept := Filtered(server, m.fields, params.condition, table.rows);
             a in kept && b in kept && CompareRecords(m.fields, params.sort, a, b) == 0
    requires Project(a, SelectedNames(m)) != Project(b, SelectedNames(m))
    ensures Walk(Paging(server, m, params, size, table), size, 0, pages)
    ensures !Answered(server, m, From(params, 0), table, Concat(pages))
  {
    var p, q := TwoSelections(server, m.fields, params, table.rows, a, b);
    size := |p| + 1;
    PageAnswered(server, m, params, size, 0, table, p + [a] + [b] + q);
    AllPagesAnswered(server, m, params, size, table, p + [b] + [a] + q);
    pages := TiedWalk(Paging(server, m, params, size, table), size, p, a, b, q, p + [b] + [a] + q, SelectedNames(m));
    NotAnAnswer(server, m, params, table, p, a, b, q);
  }

  lemma {:induction false} NotAnAnswer(
    server: Server, m: EntityMapping, params: FindParams, table: Table, p: seq<Row>, a: Row, b: Row, q: seq<Row>)
    requires SelectedNames(m) != [] && Hosts(m, table)
    requires TypedRows(m.fields, table.rows) && ValidParams(params) && SortMapped(m.fields, params.sort)
    requires multiset(p + [a] + [b] + q) == multiset(Filtered(server, m.fields, params.condition, table.rows))
    requires Project(a, SelectedNames(m)) != Project(b, SelectedNames(m))
    ensures !Answered(server, m, From(params, 0), table, ProjectAll(p + [a] + [a] + q, SelectedNames(m)))
  {
    var whole := From(params, 0);
    var shown := ProjectAll(p + [a] + [a] + q, SelectedNames(m));
    if Answered(server, m, whole, table, shown) {
      FindMeans(server, m, whole, table, shown);
      var u :| Arrangement(server, m.fields, whole, table.rows, u)
               && shown == ProjectAll(Slice(u, None, 0), SelectedNames(m));
      WholeSlice(u);
      TwiceIsNotBoth(p, a, b, q, u, SelectedNames(m));
    }
  }

  /**
   * Pages from the first row on always concatenate to an answer of the unpaged find exactly
   * when no tie shows in the selected columns.
   */
  lemma {:induction false} PagingExactlyWhen(server: Server, m: EntityMapping, params: FindParams, table: Table)
    requires SelectedNames(m) != [] && Hosts(m, table) && |table.rows| <= MAX_BIGINT
    requires FindStatement(m, From(params, 0)).Ok?
    requires TypedRows(m.fields, table.rows) && ValidParams(params) && SortMapped(m.fields, params.sort)
    ensures NoVisibleTies(m.fields, params.sort, SelectedNames(m),
                          Filtered(server, m.fields, params.condition, table.rows))
       <==> forall size, pages | Walk(Paging(server, m, params, size, table), size, 0, pages) ::
              Answered(server, m, From(params, 0), table, Concat(pages))
  {
    var kept := Filtered(server, m.fields, params.condition, table.rows);
    if NoVisibleTies(m.fields, params.sort, SelectedNames(m), kept) {
      forall size, pages | Walk(Paging(server, m, params, size, table), size, 0, pages)
        ensures Answered(server, m, From(params, 0), table, Concat(pages))
      {
        PagesConcatenate(server, m, params, size, 0, table, pages);
      }
    } else {
      var a, b :| a in kept && b in kept && CompareRecords(m.fields, params.sort, a, b) == 0
                  && Project(a, SelectedNames(m)) != Project(b, SelectedNames(m));
      var size, pages := TiedPages(server, m, params, table, a, b);
    }
  }
}
