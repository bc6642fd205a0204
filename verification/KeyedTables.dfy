// A table with a key, seen as a map from key to row: what appending, keeping, dropping and
// updating rows by key does to that map.

module KeyedTables {
  import opened Results
  import opened Values
  import opened SqlGrammar
  import opened SqlSemantics
  import opened SqlStatements
  import opened Stores

  /** No row has this key. */
  ghost predicate Fresh(key: string, id: Value, rows: seq<Row>) {
    forall r: Row | r in rows :: key in r && r[key] != id
  }

  /** Every row has a key, and no two rows share it. */
  ghost predicate Keyed(key: string, rows: seq<Row>) {
    rows == [] || (
      && key in rows[0] && !rows[0][key].VNull?
      && Fresh(key, rows[0][key], rows[1..])
      && Keyed(key, rows[1..]))
  }

  ghost function StoreOf(key: string, rows: seq<Row>): Store
    requires Keyed(key, rows)
  {
    if rows == [] then map[] else StoreOf(key, rows[1..])[rows[0][key] := rows[0]]
  }

  lemma {:induction false} Cons(rows: seq<Row>)
    requires rows != []
    ensures forall r :: r in rows <==> r == rows[0] || r in rows[1..]
  {
    assert rows == [rows[0]] + rows[1..];
  }

  lemma {:induction false} StoreCons(key: string, row: Row, rows: seq<Row>)
    requires Keyed(key, rows) && key in row && !row[key].VNull? && Fresh(key, row[key], rows)
    ensures Keyed(key, [row] + rows)
    ensures StoreOf(key, [row] + rows) == StoreOf(key, rows)[row[key] := row]
  {
    assert ([row] + rows)[1..] == rows;
  }

  /** The map holds exactly the rows, each under its key. */
  lemma {:induction false} Lookup(key: string, rows: seq<Row>, id: Value)
    requires Keyed(key, rows)
    ensures id in StoreOf(key, rows) <==> !Fresh(key, id, rows)
    ensures id in StoreOf(key, rows) ==> var r := StoreOf(key, rows)[id]; r in rows && key in r && r[key] == id
    ensures forall r | r in rows :: key in r
    decreases |rows|
  {
    if rows != [] {
      Cons(rows);
      Lookup(key, rows[1..], id);
    }
  }

  lemma {:induction false} RowsAreStored(key: string, rows: seq<Row>)
    requires Keyed(key, rows)
    ensures forall r: Row | r in rows :: key in r && r[key] in StoreOf(key, rows) && StoreOf(key, rows)[r[key]] == r
    decreases |rows|
  {
    if rows != [] {
      Cons(rows);
      RowsAreStored(key, rows[1..]);
    }
  }

  lemma {:induction false} HasKeyMeans(key: string, rows: seq<Row>, id: Value)
    requires Keyed(key, rows)
    ensures HasKey(key, id, rows) <==> id in StoreOf(key, rows)
  {
    Lookup(key, rows, id);
  }

  lemma {:induction false} Appended(key: string, rows: seq<Row>, row: Row)
    requires Keyed(key, rows) && key in row && !row[key].VNull? && Fresh(key, row[key], rows)
    ensures Keyed(key, rows + [row])
    ensures StoreOf(key, rows + [row]) == StoreOf(key, rows)[row[key] := row]
    decreases |rows|
  {
    if rows == [] {
      assert [] + [row] == [row] + [];
      StoreCons(key, row, []);
    } else {
      Cons(rows);
      Appended(key, rows[1..], row);
      assert rows + [row] == [rows[0]] + (rows[1..] + [row]);
      StoreCons(key, rows[0], rows[1..] + [row]);
    }
  }

  // ----- Rows selected by key -----

  /** On these rows the expression is the test `key = id`. */
  ghost predicate SelectsKey(server: Server, e: Expr, binds: seq<Value>, key: string, id: Value, rows: seq<Row>) {
    forall r: Row | r in rows :: key in r && Judge(server, e, r, binds) == AcceptsIf(r[key] == id)
  }

  lemma {:induction false} NothingKept(
    server: Server, e: Expr, binds: seq<Value>, key: string, id: Value, rows: seq<Row>)
    requires SelectsKey(server, e, binds, key, id, rows) && Fresh(key, id, rows)
    ensures Kept(server, Some(e), binds, rows) == []
    ensures Dropped(server, Some(e), binds, rows) == rows
    decreases |rows|
  {
    if rows != [] {
      Cons(rows);
      NothingKept(server, e, binds, key, id, rows[1..]);
      assert rows == [rows[0]] + rows[1..];
    }
  }

  lemma {:induction false} DroppedAreRows(server: Server, e: Expr, binds: seq<Value>, rows: seq<Row>)
    ensures forall r | r in Dropped(server, Some(e), binds, rows) :: r in rows
    decreases |rows|
  {
    if rows != [] {
      Cons(rows);
      DroppedAreRows(server, e, binds, rows[1..]);
    }
  }

  lemma {:induction false} RemovedLater(s: Store, id: Value, k: Value, row: Row)
    requires k != id
    ensures (s - {id})[k := row] == s[k := row] - {id}
  {
  }

  lemma {:induction false} KeptByKey(
    server: Server, e: Expr, binds: seq<Value>, key: string, id: Value, rows: seq<Row>)
    requires Keyed(key, rows) && SelectsKey(server, e, binds, key, id, rows)
    ensures Kept(server, Some(e), binds, rows) == if id in StoreOf(key, rows) then [StoreOf(key, rows)[id]] else []
    ensures Keyed(key, Dropped(server, Some(e), binds, rows))
    ensures StoreOf(key, Dropped(server, Some(e), binds, rows)) == StoreOf(key, rows) - {id}
    decreases |rows|
  {
    if rows != [] {
      var rest := rows[1..];
      Cons(rows);
      if rows[0][key] == id {
        NothingKept(server, e, binds, key, id, rest);
        Lookup(key, rest, id);
        assert StoreOf(key, rest) == StoreOf(key, rows) - {id};
      } else {
        KeptByKey(server, e, binds, key, id, rest);
        DroppedAreRows(server, e, binds, rest);
        StoreCons(key, rows[0], Dropped(server, Some(e), binds, rest));
        RemovedLater(StoreOf(key, rest), id, rows[0][key], rows[0]);
      }
    }
  }

  // ----- Rows updated by key -----

  lemma {:induction false} NothingUpdated(
    server: Server, s: Statement, binds: seq<Value>, defaults: Row, schema: Schema, key: string, id: Value, rows: seq<Row>)
    requires s.Update? && |s.columns| == |s.values| && s.filter.Some?
    requires SelectsKey(server, s.filter.value, binds, key, id, rows) && Fresh(key, id, rows)
    ensures UpdateRows(server, s, binds, defaults, schema, rows) == Some((rows, []))
    decreases |rows|
  {
    if rows != [] {
      Cons(rows);
      NothingUpdated(server, s, binds, defaults, schema, key, id, rows[1..]);
      assert rows == [rows[0]] + rows[1..];
    }
  }

  /** `row` in the place of the row with its key. */
  ghost function Replaced(key: string, rows: seq<Row>, row: Row): seq<Row>
    requires key in row && forall r: Row | r in rows :: key in r
  {
    if rows == [] then []
    else
      Cons(rows);
      if rows[0][key] == row[key] then [row] + rows[1..] else [rows[0]] + Replaced(key, rows[1..], row)
  }

  lemma {:induction false} ReplacedInStore(key: string, rows: seq<Row>, row: Row)
    requires Keyed(key, rows) && key in row && row[key] in StoreOf(key, rows) && forall r: Row | r in rows :: key in r
    ensures forall r | r in Replaced(key, rows, row) :: r == row || r in rows
    ensures Keyed(key, Replaced(key, rows, row))
    ensures StoreOf(key, Replaced(key, rows, row)) == StoreOf(key, rows)[row[key] := row]
    decreases |rows|
  {
    Cons(rows);
    if rows[0][key] == row[key] {
      StoreCons(key, row, rows[1..]);
    } else {
      ReplacedInStore(key, rows[1..], row);
      StoreCons(key, rows[0], Replaced(key, rows[1..], row));
    }
  }

  lemma {:induction false} UpdatedByKey(
    server: Server, s: Statement, binds: seq<Value>, defaults: Row, schema: Schema, key: string, rows: seq<Row>, row: Row)
    requires s.Update? && |s.columns| == |s.values| && s.filter.Some? && Keyed(key, rows) && key in row
    requires SelectsKey(server, s.filter.value, binds, key, row[key], rows)
    requires row[key] in StoreOf(key, rows)
    requires Assign(server, schema, StoreOf(key, rows)[row[key]], s.columns, s.values, defaults, binds) == Some(row)
    ensures UpdateRows(server, s, binds, defaults, schema, rows) == Some((Replaced(key, rows, row), [row]))
    decreases |rows|
  {
    Cons(rows);
    if rows[0][key] == row[key] {
      NothingUpdated(server, s, binds, defaults, schema, key, row[key], rows[1..]);
      assert [row] + [] == [row];
    } else {
      UpdatedByKey(server, s, binds, defaults, schema, key, rows[1..], row);
    }
  }
}
