// The portable meaning of find and count over the rows of a table: filter, sort, slice.
// Null is the least value, descending is the exact reverse of ascending.

module Queries {
  import opened Results
  import opened Mapping
  import opened Values
  import opened Conditions
  import opened SqlSemantics
  import opened SqlStatements
  import opened MeaningProofs

  // ----- Order -----

  predicate TypedRecord(fields: FieldMap, r: Record) {
    forall f | f in fields :: f in r && HasKind(r[f], fields[f].kind)
  }

  /** -1, 0 or 1 in ascending order, null first. */
  function CompareField(v: Value, w: Value): int {
    if v == w then 0
    else if v.VNull? then -1
    else if w.VNull? then 1
    else if ValueLess(v, w) then -1 else 1
  }

  function Directed(direction: SortDirection, c: int): int {
    if direction.Ascending? then c else -c
  }

  function Compare(fields: FieldMap, sort: seq<Sort>, a: Record, b: Record): int
    requires SortMapped(fields, sort) && TypedRecord(fields, a) && TypedRecord(fields, b)
  {
    if sort == [] then 0
    else
      var c := CompareField(a[sort[0].field], b[sort[0].field]);
      if c != 0 then Directed(sort[0].direction, c) else Compare(fields, sort[1..], a, b)
  }

  function Flipped(sort: seq<Sort>): (r: seq<Sort>)
    ensures |r| == |sort|
    ensures forall i | 0 <= i < |sort| :: r[i].field == sort[i].field && r[i].direction != sort[i].direction
  {
    seq(|sort|, i requires 0 <= i < |sort| =>
      Sort(sort[i].field, if sort[i].direction.Ascending? then Descending else Ascending))
  }

  lemma {:induction false} FieldsCompare(v: Value, w: Value, kind: PgScalarKind)
    requires HasKind(v, kind) && HasKind(w, kind)
    ensures CompareField(v, w) == -CompareField(w, v)
    ensures CompareField(v, w) == 0 <==> v == w
    ensures CompareField(v, w) == -1 || CompareField(v, w) == 0 || CompareField(v, w) == 1
  {
    if !v.VNull? && !w.VNull? {
      OneKindOneType(v, w, kind);
      ValueLessTotal(v, w);
    }
  }

  lemma {:induction false} FieldsChain(v: Value, w: Value, x: Value, kind: PgScalarKind)
    requires HasKind(v, kind) && HasKind(w, kind) && HasKind(x, kind)
    requires CompareField(v, w) <= 0 && CompareField(w, x) <= 0
    ensures CompareField(v, x) <= 0
    ensures CompareField(v, w) < 0 || CompareField(w, x) < 0 ==> CompareField(v, x) < 0
  {
    FieldsCompare(v, w, kind);
    FieldsCompare(w, x, kind);
    FieldsCompare(v, x, kind);
    if v != w && w != x && !v.VNull? && !w.VNull? && !x.VNull? {
      OneKindOneType(v, w, kind);
      OneKindOneType(w, x, kind);
      ValueLessTransitive(v, w, x);
      ValueLessTotal(v, x);
    }
  }

  /** The order is total: swapping the records negates the comparison. */
  lemma {:induction false} CompareSwaps(fields: FieldMap, sort: seq<Sort>, a: Record, b: Record)
    requires SortMapped(fields, sort) && TypedRecord(fields, a) && TypedRecord(fields, b)
    ensures Compare(fields, sort, a, b) == -Compare(fields, sort, b, a)
    decreases |sort|
  {
    if sort != [] {
      var f := sort[0].field;
      FieldsCompare(a[f], b[f], fields[f].kind);
      CompareSwaps(fields, sort[1..], a, b);
    }
  }

  lemma {:induction false} CompareChains(fields: FieldMap, sort: seq<Sort>, a: Record, b: Record, c: Record)
    requires SortMapped(fields, sort)
    requires TypedRecord(fields, a) && TypedRecord(fields, b) && TypedRecord(fields, c)
    requires Compare(fields, sort, a, b) <= 0 && Compare(fields, sort, b, c) <= 0
    ensures Compare(fields, sort, a, c) <= 0
    decreases |sort|
  {
    if sort != [] {
      var f := sort[0].field;
      var kind := fields[f].kind;
      FieldsCompare(a[f], b[f], kind);
      FieldsCompare(b[f], c[f], kind);
      FieldsCompare(a[f], c[f], kind);
      if a[f] == b[f] && b[f] == c[f] {
        CompareChains(fields, sort[1..], a, b, c);
      } else if sort[0].direction.Ascending? {
        FieldsChain(a[f], b[f], c[f], kind);
      } else {
        FieldsChain(c[f], b[f], a[f], kind);
      }
    }
  }

  /** Flipping every direction gives exactly the reversed order. */
  lemma {:induction false} FlippingReverses(fields: FieldMap, sort: seq<Sort>, a: Record, b: Record)
    requires SortMapped(fields, sort) && TypedRecord(fields, a) && TypedRecord(fields, b)
    ensures Compare(fields, Flipped(sort), a, b) == Compare(fields, sort, b, a)
    decreases |sort|
  {
    if sort != [] {
      var f := sort[0].field;
      FieldsCompare(a[f], b[f], fields[f].kind);
      FlippingReverses(fields, sort[1..], a, b);
      assert Flipped(sort)[1..] == Flipped(sort[1..]);
    }
  }

  /** Whatever the direction, a null and a value of the first sort field never tie, and null is the lesser. */
  lemma {:induction false} NullSortsLeast(fields: FieldMap, sort: seq<Sort>, a: Record, b: Record)
    requires sort != [] && SortMapped(fields, sort) && TypedRecord(fields, a) && TypedRecord(fields, b)
    requires a[sort[0].field].VNull? && !b[sort[0].field].VNull?
    ensures sort[0].direction.Ascending? ==> Compare(fields, sort, a, b) < 0
    ensures sort[0].direction.Descending? ==> Compare(fields, sort, a, b) > 0
  {
  }

  // ----- Find on rows -----

  predicate TypedRows(fields: FieldMap, rows: seq<Row>) {
    forall r | r in rows :: TypedRow(fields, r)
  }

  function CompareRecords(fields: FieldMap, sort: seq<Sort>, a: Row, b: Row): int
    requires SortMapped(fields, sort) && TypedRow(fields, a) && TypedRow(fields, b)
  {
    Compare(fields, sort, RecordOf(fields, a), RecordOf(fields, b))
  }

  ghost predicate Matches(server: Server, fields: FieldMap, condition: Option<Condition>, row: Row)
    requires condition.Some? ==> ValidCondition(condition.value)
    requires TypedRow(fields, row)
  {
    condition.Some? ==> Holds(server, fields, condition.value, RecordOf(fields, row))
  }

  /** The rows a condition holds of, in stored order. */
  ghost function Filtered(server: Server, fields: FieldMap, condition: Option<Condition>, rows: seq<Row>): (r: seq<Row>)
    requires condition.Some? ==> ValidCondition(condition.value)
    requires TypedRows(fields, rows)
    ensures forall x | x in r :: x in rows
  {
    if rows == [] then []
    else if Matches(server, fields, condition, rows[0]) then
      [rows[0]] + Filtered(server, fields, condition, rows[1..])
    else Filtered(server, fields, condition, rows[1..])
  }

  ghost predicate Arranged(fields: FieldMap, sort: seq<Sort>, rows: seq<Row>)
    requires SortMapped(fields, sort) && TypedRows(fields, rows)
  {
    forall i, j | 0 <= i < j < |rows| :: CompareRecords(fields, sort, rows[i], rows[j]) <= 0
  }

  function Min(a: nat, b: nat): nat {
    if a < b then a else b
  }

  /** Rows `offset`, `offset + 1`, ..., at most `limit` of them. */
  function Slice<T>(rows: seq<T>, limit: Option<nat>, offset: nat): seq<T> {
    var from := Min(offset, |rows|);
    rows[from..if limit.Some? then Min(offset + limit.value, |rows|) else |rows|]
  }

  /** One arrangement of the rows a find selects. */
  ghost predicate Arrangement(server: Server, fields: FieldMap, params: FindParams, rows: seq<Row>, sorted: seq<Row>)
    requires ValidParams(params) && SortMapped(fields, params.sort) && TypedRows(fields, rows)
  {
    && multiset(sorted) == multiset(Filtered(server, fields, params.condition, rows))
    && TypedRows(fields, sorted)
    && Arranged(fields, params.sort, sorted)
  }

  // ----- Arrangements exist -----

  function Inserted(fields: FieldMap, sort: seq<Sort>, row: Row, sorted: seq<Row>): (r: seq<Row>)
    requires SortMapped(fields, sort) && TypedRow(fields, row) && TypedRows(fields, sorted)
    ensures multiset(r) == multiset{row} + multiset(sorted)
    ensures TypedRows(fields, r)
  {
    if sorted == [] then [row]
    else
      assert sorted == [sorted[0]] + sorted[1..];
      assert forall x | x in sorted[1..] :: x in sorted;
      if CompareRecords(fields, sort, row, sorted[0]) <= 0 then [row] + sorted
      else [sorted[0]] + Inserted(fields, sort, row, sorted[1..])
  }

  /** A row that comes before all of an arranged list may stand in front of it. */
  lemma {:induction false} FrontArranged(fields: FieldMap, sort: seq<Sort>, row: Row, rest: seq<Row>)
    requires SortMapped(fields, sort) && TypedRow(fields, row) && TypedRows(fields, rest)
    requires Arranged(fields, sort, rest)
    requires forall j | 0 <= j < |rest| :: CompareRecords(fields, sort, row, rest[j]) <= 0
    ensures TypedRows(fields, [row] + rest) && Arranged(fields, sort, [row] + rest)
  {
    var r := [row] + rest;
    assert forall j | 0 < j < |r| :: r[j] == rest[j - 1];
  }

  lemma {:induction false} StillFirst(fields: FieldMap, sort: seq<Sort>, first: Row, row: Row, rest: seq<Row>, more: seq<Row>)
    requires SortMapped(fields, sort) && TypedRow(fields, first) && TypedRow(fields, row)
    requires TypedRows(fields, rest) && TypedRows(fields, more)
    requires multiset(more) == multiset{row} + multiset(rest)
    requires CompareRecords(fields, sort, first, row) <= 0
    requires forall k | 0 <= k < |rest| :: CompareRecords(fields, sort, first, rest[k]) <= 0
    ensures forall j | 0 <= j < |more| :: CompareRecords(fields, sort, first, more[j]) <= 0
  {
    forall j | 0 <= j < |more| ensures CompareRecords(fields, sort, first, more[j]) <= 0 {
      assert more[j] in multiset(more);
      if more[j] != row {
        assert more[j] in multiset(rest);
      }
    }
  }

  lemma {:induction false} InsertedIsArranged(fields: FieldMap, sort: seq<Sort>, row: Row, sorted: seq<Row>)
    requires SortMapped(fields, sort) && TypedRow(fields, row) && TypedRows(fields, sorted)
    requires Arranged(fields, sort, sorted)
    ensures Arranged(fields, sort, Inserted(fields, sort, row, sorted))
    decreases |sorted|
  {
    if sorted == [] {
    } else if CompareRecords(fields, sort, row, sorted[0]) <= 0 {
      forall j | 0 <= j < |sorted| ensures CompareRecords(fields, sort, row, sorted[j]) <= 0 {
        if j > 0 {
          CompareChains(fields, sort, RecordOf(fields, row), RecordOf(fields, sorted[0]), RecordOf(fields, sorted[j]));
        }
      }
      FrontArranged(fields, sort, row, sorted);
    } else {
      TailArranged(fields, sort, sorted);
      InsertedIsArranged(fields, sort, row, sorted[1..]);
      var more := Inserted(fields, sort, row, sorted[1..]);
      CompareSwaps(fields, sort, RecordOf(fields, row), RecordOf(fields, sorted[0]));
      forall k | 0 <= k < |sorted[1..]| ensures CompareRecords(fields, sort, sorted[0], sorted[1..][k]) <= 0 {
        assert sorted[1..][k] == sorted[k + 1];
      }
      StillFirst(fields, sort, sorted[0], row, sorted[1..], more);
      FrontArranged(fields, sort, sorted[0], more);
    }
  }

  /** Every find has an answer: some arrangement of the selected rows is in order. */
  lemma {:induction false} SomeArrangement(fields: FieldMap, sort: seq<Sort>, rows: seq<Row>) returns (sorted: seq<Row>)
    requires SortMapped(fields, sort) && TypedRows(fields, rows)
    ensures multiset(sorted) == multiset(rows) && TypedRows(fields, sorted) && Arranged(fields, sort, sorted)
    decreases |rows|
  {
    if rows == [] {
      sorted := [];
    } else {
      assert rows == [rows[0]] + rows[1..];
      var rest := SomeArrangement(fields, sort, rows[1..]);
      sorted := Inserted(fields, sort, rows[0], rest);
      InsertedIsArranged(fields, sort, rows[0], rest);
    }
  }

  lemma {:induction false} TailArranged(fields: FieldMap, sort: seq<Sort>, s: seq<Row>)
    requires s != [] && SortMapped(fields, sort) && TypedRows(fields, s) && Arranged(fields, sort, s)
    ensures TypedRows(fields, s[1..]) && Arranged(fields, sort, s[1..])
  {
    assert forall k | 0 <= k < |s[1..]| :: s[1..][k] == s[k + 1];
  }

  // ----- Counting -----

  /** How many elements have a property. */
  function Tally<T>(s: seq<T>, p: T -> bool): nat {
    if s == [] then 0 else (if p(s[0]) then 1 else 0) + Tally(s[1..], p)
  }

  lemma {:induction false} TallyConcat<T>(a: seq<T>, b: seq<T>, p: T -> bool)
    ensures Tally(a + b, p) == Tally(a, p) + Tally(b, p)
    decreases |a|
  {
    if a == [] {
      assert a + b == b;
    } else {
      assert (a + b)[1..] == a[1..] + b;
      TallyConcat(a[1..], b, p);
    }
  }

  lemma {:induction false} TallyMiddle<T>(a: seq<T>, x: T, b: seq<T>, p: T -> bool)
    ensures Tally(a + [x] + b, p) == Tally(a + b, p) + if p(x) then 1 else 0
  {
    TallyConcat(a + [x], b, p);
    TallyConcat(a, [x], p);
    TallyConcat(a, b, p);
  }

  /** The first element of one sequence, found in another of the same contents. */
  lemma {:induction false} FirstElsewhere<T>(s: seq<T>, t: seq<T>) returns (a: seq<T>, b: seq<T>)
    requires multiset(s) == multiset(t) && s != []
    ensures t == a + [s[0]] + b && multiset(a + b) == multiset(s[1..])
  {
    assert s[0] in multiset(t);
    var i :| 0 <= i < |t| && t[i] == s[0];
    a, b := t[..i], t[i + 1..];
    assert t == a + [s[0]] + b && s == [s[0]] + s[1..];
    SameRest(s[0], s[1..], a, b);
  }

  lemma {:induction false} SameRest<T>(x: T, rest: seq<T>, a: seq<T>, b: seq<T>)
    ensures multiset([x] + rest) == multiset(a + [x] + b) ==> multiset(rest) == multiset(a + b)
  {
    assert multiset(rest) == multiset([x] + rest) - multiset{x};
    assert multiset(a + b) == multiset(a + [x] + b) - multiset{x};
  }

  /** A count depends on the contents only. */
  lemma {:induction false} TallySame<T>(s: seq<T>, t: seq<T>, p: T -> bool)
    requires multiset(s) == multiset(t)
    ensures Tally(s, p) == Tally(t, p)
    decreases |s|
  {
    if s == [] {
      assert |multiset(t)| == |t|;
    } else {
      var a, b := FirstElsewhere(s, t);
      TallySame(s[1..], a + b, p);
      TallyMiddle(a, s[0], b, p);
    }
  }

  lemma {:induction false} TallyAtLeast<T>(s: seq<T>, p: T -> bool, n: nat)
    requires n <= |s| && forall i | 0 <= i < n :: p(s[i])
    ensures Tally(s, p) >= n
    decreases n
  {
    if n > 0 {
      TallyAtLeast(s[1..], p, n - 1);
    }
  }

  lemma {:induction false} TallyAtMost<T>(s: seq<T>, p: T -> bool, n: nat)
    requires forall i | n <= i < |s| :: !p(s[i])
    ensures Tally(s, p) <= n
    decreases |s|
  {
    if s != [] {
      TallyAtMost(s[1..], p, if n > 0 then n - 1 else 0);
    }
  }

  // ----- Two arrangements of the same rows -----

  /** Of two sequences with the same contents, one cannot have a property late that the other has early. */
  lemma {:induction false} NotAllEarlier<T>(s: seq<T>, t: seq<T>, p: T -> bool, k: nat)
    requires multiset(s) == multiset(t) && k < |t| && forall i | 0 <= i <= k :: p(t[i])
    ensures exists i | k <= i < |s| :: p(s[i])
  {
    TallyAtLeast(t, p, k + 1);
    TallySame(s, t, p);
    if forall i | k <= i < |s| :: !p(s[i]) {
      TallyAtMost(s, p, k);
    }
  }

  /** For any transitive relation: sequences in order with the same contents run in step. */
  lemma {:induction false} InStep<T(!new)>(before: (T, T) -> bool, s: seq<T>, t: seq<T>, k: nat)
    requires forall x, y, z | before(x, y) && before(y, z) :: before(x, z)
    requires forall i, j | 0 <= i <= j < |s| :: before(s[i], s[j])
    requires forall i, j | 0 <= i <= j < |t| :: before(t[i], t[j])
    requires multiset(s) == multiset(t) && k < |s| && k < |t|
    ensures before(s[k], t[k])
  {
    var upTo := x => before(x, t[k]);
    NotAllEarlier(s, t, upTo, k);
    var i :| k <= i < |s| && upTo(s[i]);
    assert before(s[k], s[i]);
  }

  /** One row may stand before the other. */
  ghost function MayPrecede(fields: FieldMap, sort: seq<Sort>): (Row, Row) -> bool
    requires SortMapped(fields, sort)
  {
    (x: Row, y: Row) => TypedRow(fields, x) && TypedRow(fields, y) && CompareRecords(fields, sort, x, y) <= 0
  }

  lemma {:induction false} RowsChain(fields: FieldMap, sort: seq<Sort>, x: Row, y: Row, z: Row)
    requires SortMapped(fields, sort) && TypedRow(fields, x) && TypedRow(fields, y) && TypedRow(fields, z)
    requires CompareRecords(fields, sort, x, y) <= 0 && CompareRecords(fields, sort, y, z) <= 0
    ensures CompareRecords(fields, sort, x, z) <= 0
  {
    CompareChains(fields, sort, RecordOf(fields, x), RecordOf(fields, y), RecordOf(fields, z));
  }

  lemma {:induction false} PrecedenceChains(fields: FieldMap, sort: seq<Sort>)
    requires SortMapped(fields, sort)
    ensures var before := MayPrecede(fields, sort);
            forall x, y, z | before(x, y) && before(y, z) :: before(x, z)
  {
    var before := MayPrecede(fields, sort);
    forall x, y, z | before(x, y) && before(y, z) ensures before(x, z) {
      RowsChain(fields, sort, x, y, z);
    }
  }

  lemma {:induction false} ArrangedPrecede(fields: FieldMap, sort: seq<Sort>, rows: seq<Row>)
    requires SortMapped(fields, sort) && TypedRows(fields, rows) && Arranged(fields, sort, rows)
    ensures var before := MayPrecede(fields, sort);
            forall i, j | 0 <= i <= j < |rows| :: before(rows[i], rows[j])
  {
    forall i, j | 0 <= i <= j < |rows| ensures MayPrecede(fields, sort)(rows[i], rows[j]) {
      CompareSwaps(fields, sort, RecordOf(fields, rows[i]), RecordOf(fields, rows[i]));
    }
  }

  lemma {:induction false} NotBehind(fields: FieldMap, sort: seq<Sort>, s: seq<Row>, t: seq<Row>, k: nat)
    requires SortMapped(fields, sort) && TypedRows(fields, s) && TypedRows(fields, t)
    requires multiset(s) == multiset(t) && Arranged(fields, sort, s) && Arranged(fields, sort, t)
    requires k < |s| && k < |t|
    ensures CompareRecords(fields, sort, s[k], t[k]) <= 0
  {
    PrecedenceChains(fields, sort);
    ArrangedPrecede(fields, sort, s);
    ArrangedPrecede(fields, sort, t);
    InStep(MayPrecede(fields, sort), s, t, k);
  }

  /** Arrangements of the same rows agree position by position, up to ties. */
  lemma {:induction false} PositionsTie(fields: FieldMap, sort: seq<Sort>, s: seq<Row>, t: seq<Row>, k: nat)
    requires SortMapped(fields, sort) && TypedRows(fields, s) && TypedRows(fields, t)
    requires multiset(s) == multiset(t) && Arranged(fields, sort, s) && Arranged(fields, sort, t)
    requires k < |s| && k < |t|
    ensures CompareRecords(fields, sort, s[k], t[k]) == 0
  {
    NotBehind(fields, sort, s, t, k);
    NotBehind(fields, sort, t, s, k);
    CompareSwaps(fields, sort, RecordOf(fields, s[k]), RecordOf(fields, t[k]));
  }

  /** Only equal rows compare equal. */
  ghost predicate TieFree(fields: FieldMap, sort: seq<Sort>, rows: seq<Row>)
    requires SortMapped(fields, sort) && TypedRows(fields, rows)
  {
    forall a, b | a in rows && b in rows :: CompareRecords(fields, sort, a, b) == 0 ==> a == b
  }

  /** Rows that compare equal look equal to who sees these columns only. */
  ghost predicate NoVisibleTies(fields: FieldMap, sort: seq<Sort>, columns: seq<string>, rows: seq<Row>)
    requires SortMapped(fields, sort) && TypedRows(fields, rows)
  {
    forall a, b | a in rows && b in rows ::
      CompareRecords(fields, sort, a, b) == 0 ==> Project(a, columns) == Project(b, columns)
  }

  // ----- Slices -----

  /** A page and what follows it make up the larger slice. */
  lemma {:induction false} SlicesJoin<T>(rows: seq<T>, limit: nat, more: Option<nat>, offset: nat)
    ensures Slice(rows, Some(limit), offset) + Slice(rows, more, offset + limit)
         == Slice(rows, if more.Some? then Some(limit + more.value) else None, offset)
  {
  }
}
