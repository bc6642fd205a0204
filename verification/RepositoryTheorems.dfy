// The repository refines a map from identity to row: every operation, run as statement
// text on a table, does to the table's map what the operation does to a map, and this over
// every sequence of operations.

module RepositoryTheorems {
  import opened Results
  import opened Mapping
  import opened Values
  import opened Compiler
  import opened Entity
  import opened Repository
  import opened SqlLexer
  import opened SqlGrammar
  import opened SqlSemantics
  import opened SqlStatements
  import opened MeaningProofs
  import opened StatementProofs
  import opened Placeholders
  import opened StatementPlaceholders
  import opened FindTheorems
  import opened Stores
  import opened RepositoryRuns
  import opened WriteProofs
  import opened KeyedTables

  /** A finished mapping whose fields have columns of their own. */
  ghost predicate Proper(m: EntityMapping) {
    WellBuilt(m) && Validate(m).Ok? && DistinctColumns(m.fields)
  }

  /** The mapping's table, keyed by the identity's column. */
  ghost predicate Sound(m: EntityMapping, table: Table)
    requires m.idField in m.fields
  {
    Hosts(m, table) && table.key == IdColumn(m) && Keyed(table.key, table.rows)
  }

  ghost function Contents(table: Table): Store
    requires Keyed(table.key, table.rows)
  {
    StoreOf(table.key, table.rows)
  }

  lemma {:induction false} ProperFacts(m: EntityMapping)
    requires Proper(m)
    ensures m.idField in m.fields && SelectedNames(m) != []
    ensures forall role :: NoDuplicates(FieldsWith(m, role))
  {
    forall role ensures NoDuplicates(FieldsWith(m, role)) {
      MatchingKeepsOrder(m.fields, m.orderedFields, role);
    }
  }

  lemma {:induction false} WithoutKeepsOrder(fs: seq<FieldName>, f: FieldName)
    requires NoDuplicates(fs)
    ensures NoDuplicates(Without(fs, f))
    decreases |fs|
  {
    if fs != [] {
      var rest := fs[1..];
      assert forall i | 0 <= i < |rest| :: rest[i] == fs[i + 1];
      assert fs[0] !in rest;
      WithoutKeepsOrder(rest, f);
      var tail := Without(rest, f);
      forall i | 0 <= i < |tail| ensures tail[i] != fs[0] {
        assert tail[i] in tail;
      }
    }
  }

  lemma {:induction false} Bindings(bs: seq<PgBindValue>)
    ensures BoundAt(BindValues(bs), 0, bs)
  {
  }

  // ----- INSERT -----

  lemma {:induction false} InsertRefused(m: EntityMapping, e: Encoded, returning: bool)
    requires Proper(m)
    ensures match Refusal(m, e, FieldsWith(m, Inserting))
            case Some(kind) => InsertStatement(m, e, returning) == Err(kind)
            case None => InsertStatement(m, e, returning).Ok? && Writable(m, e, FieldsWith(m, Inserting))
  {
    var fs := FieldsWith(m, Inserting);
    SourcesRefuse(m, e, fs, 0);
    QuotedColumnsLex(m.fields, fs);
    SelectedLex(m);
  }

  /** What the server does with a compiled insert. */
  lemma {:induction false} InsertExecutes(server: Server, m: EntityMapping, e: Encoded, returning: bool, defaults: Row, table: Table)
    returns (row: Row)
    requires Proper(m) && m.idField in m.fields && Sound(m, table) && RowFits(table.schema, defaults)
    requires Refusal(m, e, FieldsWith(m, Inserting)).None?
    ensures InsertStatement(m, e, returning).Ok? && Writable(m, e, FieldsWith(m, Inserting))
    ensures Written(server, m, e, FieldsWith(m, Inserting), defaults, defaults, row) && RowFits(table.schema, row)
    ensures Sent(server, InsertStatement(m, e, returning), defaults, table)
         == if row[table.key].VNull? then Refused(Infrastructure)
            else if HasKey(table.key, row[table.key], table.rows) then Refused(Conflict)
            else Applied(table.rows + [row], 1, [Project(row, if returning then SelectedNames(m) else [])])
  {
    var fs := FieldsWith(m, Inserting);
    InsertRefused(m, e, returning);
    ProperFacts(m);
    InsertReads(m, e, returning);
    var q := InsertStatement(m, e, returning).value;
    InsertBindings(m, e, returning);
    Bindings(q.bindings);
    row := AssignMeans(server, m, e, fs, 0, table.schema, defaults, defaults, BindValues(q.bindings), q.bindings);
    RowInserted(server, q.sql, BindValues(q.bindings), defaults, table, IntendedInsert(m, e, returning), row);
  }

  lemma {:induction false} RowInserted(
    server: Server, sql: string, binds: seq<Value>, defaults: Row, table: Table, s: Statement, row: Row)
    requires ParseStatement(Lex(sql)) == Some(s) && s.Insert? && s.table == table.name
    requires |s.columns| == |s.values| && table.key in row
    requires Assign(server, table.schema, defaults, s.columns, s.values, defaults, binds) == Some(row)
    ensures ExecuteWrite(server, sql, binds, defaults, table)
         == if row[table.key].VNull? then Refused(Infrastructure)
            else if HasKey(table.key, row[table.key], table.rows) then Refused(Conflict)
            else Applied(table.rows + [row], 1, [Project(row, s.returning)])
  {
  }

  lemma {:induction false} InsertApplies(
    server: Server, m: EntityMapping, e: Encoded, returning: bool, defaults: Row, table: Table, row: Row, w: WriteOutcome)
    requires m.idField in m.fields && Sound(m, table) && RowFits(table.schema, row)
    requires w == if row[table.key].VNull? then Refused(Infrastructure)
                  else if HasKey(table.key, row[table.key], table.rows) then Refused(Conflict)
                  else Applied(table.rows + [row], 1, [Project(row, if returning then SelectedNames(m) else [])])
    ensures Sound(m, AfterWrite(table, w))
    ensures var id := row[table.key];
            var outcome := InsertOutcome(w, returning);
            var after := Contents(AfterWrite(table, w));
            if id.VNull? then outcome == Failed(Infrastructure) && after == Contents(table)
            else if id in Contents(table) then outcome == Failed(Conflict) && after == Contents(table)
            else outcome == Acknowledged(m, returning, row) && after == Contents(table)[id := row]
  {
    var id := row[table.key];
    HasKeyMeans(table.key, table.rows, id);
    Lookup(table.key, table.rows, id);
    if !id.VNull? && id !in Contents(table) {
      Appended(table.key, table.rows, row);
      InsertedRowsFit(m, table, row);
    }
  }

  lemma {:induction false} InsertDoes(
    server: Server, m: EntityMapping, e: Encoded, returning: bool, defaults: Row, table: Table)
    requires Proper(m) && m.idField in m.fields && Sound(m, table) && RowFits(table.schema, defaults)
    ensures var w := Sent(server, InsertStatement(m, e, returning), defaults, table);
            && Sound(m, AfterWrite(table, w))
            && Inserts(server, m, e, returning, defaults, Contents(table), InsertOutcome(w, returning),
                       Contents(AfterWrite(table, w)))
  {
    if Refusal(m, e, FieldsWith(m, Inserting)).Some? {
      InsertRefused(m, e, returning);
    } else {
      var w := Sent(server, InsertStatement(m, e, returning), defaults, table);
      var row := InsertExecutes(server, m, e, returning, defaults, table);
      InsertApplies(server, m, e, returning, defaults, table, row, w);
      assert IdColumn(m) in row;
    }
  }

  lemma {:induction false} InsertedRowsFit(m: EntityMapping, table: Table, row: Row)
    requires Hosts(m, table) && RowFits(table.schema, row)
    ensures Hosts(m, table.(rows := table.rows + [row]))
  {
  }

  // ----- The identity -----

  /** Under an identity's binding the condition of get, remove and replace tests the key. */
  lemma {:induction false} IdSelects(
    server: Server, m: EntityMapping, id: Result<PgValue>, table: Table, index: nat, e: Expr, binds: seq<Value>)
    requires m.idField in m.fields && Sound(m, table) && IdRefusal(m, id).None?
    requires e == IdExpr(m.fields[m.idField], index) && 0 < index <= |binds|
    requires IdBinding(m, id).Ok? ==> binds[index - 1] == BindValue(IdBinding(m, id).value)
    ensures SelectsKey(server, e, binds, table.key, StoredValue(server, id.value), table.rows)
    ensures FilterSound(server, Some(e), binds, table.rows)
  {
    IdRefuses(m, id);
    forall r | r in table.rows
      ensures table.key in r
      ensures Judge(server, e, r, binds) == AcceptsIf(r[table.key] == StoredValue(server, id.value))
    {
      IdTests(server, m, id.value, table.schema, index, r, binds);
    }
  }

  lemma {:induction false} IdTests(
    server: Server, m: EntityMapping, id: PgValue, schema: Schema, index: nat, row: Row, binds: seq<Value>)
    requires m.idField in m.fields && InSchema(m, schema) && RowFits(schema, row) && !id.Null?
    requires var column := m.fields[m.idField];
             && NormalizeEntityBinding(column.kind, id).Ok? && 0 < index <= |binds|
             && binds[index - 1] == BindValue(NormalizeEntityBinding(column.kind, id).value)
    ensures IdColumn(m) in row
    ensures Judge(server, IdExpr(m.fields[m.idField], index), row, binds)
         == AcceptsIf(row[IdColumn(m)] == StoredValue(server, id))
  {
    IdMeans(server, m.fields[m.idField], id, index - 1, row, binds);
  }

  // ----- DELETE -----

  lemma {:induction false} DeleteExecutes(server: Server, sql: string, binds: seq<Value>, defaults: Row, table: Table, e: Expr)
    requires ParseStatement(Lex(sql)) == Some(Delete(table.name, Some(e)))
    requires FilterSound(server, Some(e), binds, table.rows)
    ensures ExecuteWrite(server, sql, binds, defaults, table)
         == Applied(Dropped(server, Some(e), binds, table.rows), |Kept(server, Some(e), binds, table.rows)|, [])
  {
  }

  /** The identity conditions of get and remove send the identity alone. */
  lemma {:induction false} IdSends(m: EntityMapping, id: Result<PgValue>)
    requires m.idField in m.fields && IdRefusal(m, id).None?
    ensures IdBinding(m, id).Ok? && RemoveStatement(m, id).Ok? && GetStatement(m, id).Ok?
    ensures RemoveStatement(m, id).value.bindings == [IdBinding(m, id).value]
    ensures GetStatement(m, id).value.bindings == [IdBinding(m, id).value]
  {
    IdRefuses(m, id);
    SelectedLex(m);
  }

  lemma {:induction false} RemoveExecutes(server: Server, m: EntityMapping, id: Result<PgValue>, defaults: Row, table: Table)
    returns (e: Expr, binds: seq<Value>)
    requires m.idField in m.fields && Sound(m, table) && IdRefusal(m, id).None?
    ensures SelectsKey(server, e, binds, table.key, StoredValue(server, id.value), table.rows)
    ensures Sent(server, RemoveStatement(m, id), defaults, table)
         == Applied(Dropped(server, Some(e), binds, table.rows), |Kept(server, Some(e), binds, table.rows)|, [])
  {
    IdSends(m, id);
    RemoveReads(m, id);
    var q := RemoveStatement(m, id).value;
    e, binds := IdExpr(m.fields[m.idField], 1), BindValues(q.bindings);
    IdSelects(server, m, id, table, 1, e, binds);
    DeleteExecutes(server, q.sql, binds, defaults, table, e);
  }

  lemma {:induction false} RemoveDoes(server: Server, m: EntityMapping, id: Result<PgValue>, defaults: Row, table: Table)
    requires m.idField in m.fields && Sound(m, table)
    ensures var w := Sent(server, RemoveStatement(m, id), defaults, table);
            && Sound(m, AfterWrite(table, w))
            && match IdRefusal(m, id)
               case Some(kind) => RemoveOutcome(w) == Failed(kind) && AfterWrite(table, w) == table
               case None =>
                 var key := StoredValue(server, id.value);
                 && RemoveOutcome(w) == Removed(key in Contents(table))
                 && Contents(AfterWrite(table, w)) == Contents(table) - {key}
  {
    if IdRefusal(m, id).Some? {
      IdRefuses(m, id);
    } else {
      var e, binds := RemoveExecutes(server, m, id, defaults, table);
      KeptByKey(server, e, binds, table.key, StoredValue(server, id.value), table.rows);
      DroppedAreRows(server, e, binds, table.rows);
    }
  }

  // ----- UPDATE -----

  lemma {:induction false} ReplaceRefused(m: EntityMapping, e: Encoded, returning: bool)
    requires Proper(m) && m.idField in m.fields
    ensures var fs := ReplacedFields(m);
            if fs == [] then ReplaceStatement(m, e, returning) == Err(Unsupported)
            else if Refusal(m, e, fs).Some? then ReplaceStatement(m, e, returning) == Err(Refusal(m, e, fs).value)
            else if IdRefusal(m, e.id).Some? then ReplaceStatement(m, e, returning) == Err(IdRefusal(m, e.id).value)
            else ReplaceStatement(m, e, returning).Ok? && Writable(m, e, fs)
  {
    SourcesRefuse(m, e, ReplacedFields(m), 0);
    IdRefuses(m, e.id);
    SelectedLex(m);
  }

  lemma {:induction false} UpdateExecutes(
    server: Server, sql: string, binds: seq<Value>, defaults: Row, table: Table, s: Statement,
    rows: seq<Row>, updated: seq<Row>)
    requires ParseStatement(Lex(sql)) == Some(s) && s.Update? && s.table == table.name
    requires |s.columns| == |s.values| && table.key !in s.columns
    requires FilterSound(server, s.filter, binds, table.rows)
    requires UpdateRows(server, s, binds, defaults, table.schema, table.rows) == Some((rows, updated))
    ensures ExecuteWrite(server, sql, binds, defaults, table)
         == Applied(rows, |updated|, ProjectAll(updated, s.returning))
  {
  }

  /** The key is no replaced column. */
  lemma {:induction false} KeyIsKept(m: EntityMapping)
    requires Proper(m) && m.idField in m.fields
    ensures NoDuplicates(ReplacedFields(m)) && forall f | f in ReplacedFields(m) :: f in m.fields
    ensures IdColumn(m) !in NamesOf(m.fields, ReplacedFields(m))
  {
    ProperFacts(m);
    WithoutKeepsOrder(FieldsWith(m, Updating), m.idField);
    var fs := ReplacedFields(m);
    forall k | 0 <= k < |fs| ensures m.fields[fs[k]].identifier != IdColumn(m) {
      assert fs[k] in fs && fs[k] != m.idField;
    }
  }

  /** The bindings of a replacement: the assignments', then the identity's. */
  lemma {:induction false} ReplaceSends(m: EntityMapping, e: Encoded, returning: bool) returns (bs: seq<PgBindValue>)
    requires m.idField in m.fields && ReplaceStatement(m, e, returning).Ok? && Writable(m, e, ReplacedFields(m))
    ensures Bound(bs, StoredSlots(m, e, ReplacedFields(m))) && IdBinding(m, e.id).Ok?
    ensures ReplaceStatement(m, e, returning).value.bindings == bs + [IdBinding(m, e.id).value]
    ensures IdIndex(m, e) == |bs| + 1
  {
    SourcesBound(m, e, ReplacedFields(m), 0);
    bs := AssignmentItems(m, e, ReplacedFields(m), 0).value.bindings;
  }

  lemma {:induction false} SentBindings(bs: seq<PgBindValue>, last: PgBindValue)
    ensures var binds := BindValues(bs + [last]);
            BoundAt(binds, 0, bs) && |bs| < |binds| && binds[|bs|] == BindValue(last)
  {
  }

  /** What a compiled replacement does to the row with its identity, and to no other. */
  lemma {:induction false} ReplaceExecutes(
    server: Server, m: EntityMapping, e: Encoded, returning: bool, defaults: Row, table: Table)
    returns (rows: seq<Row>, updated: seq<Row>)
    requires Proper(m) && m.idField in m.fields && Sound(m, table) && RowFits(table.schema, defaults)
    requires ReplacedFields(m) != [] && Refusal(m, e, ReplacedFields(m)).None? && IdRefusal(m, e.id).None?
    ensures Writable(m, e, ReplacedFields(m))
    ensures Sent(server, ReplaceStatement(m, e, returning), defaults, table)
         == Applied(rows, |updated|, ProjectAll(updated, if returning then SelectedNames(m) else []))
    ensures var id := StoredValue(server, e.id.value);
            if id !in Contents(table) then rows == table.rows && updated == []
            else
              && |updated| == 1 && RowFits(table.schema, updated[0]) && updated[0][table.key] == id
              && Written(server, m, e, ReplacedFields(m), Contents(table)[id], defaults, updated[0])
              && rows == Replaced(table.key, table.rows, updated[0])
  {
    var id := StoredValue(server, e.id.value);
    ReplaceRefused(m, e, returning);
    ProperFacts(m);
    KeyIsKept(m);
    ReplaceReads(m, e, returning);
    var q := ReplaceStatement(m, e, returning).value;
    var bs := ReplaceSends(m, e, returning);
    var binds := BindValues(q.bindings);
    SentBindings(bs, IdBinding(m, e.id).value);
    var s := IntendedReplace(m, e, returning);
    IdSelects(server, m, e.id, table, IdIndex(m, e), s.filter.value, binds);
    rows, updated := RowsReplaced(server, m, e, s, defaults, table, binds, bs);
    UpdateExecutes(server, q.sql, binds, defaults, table, s, rows, updated);
  }

  lemma {:induction false} RowsReplaced(
    server: Server, m: EntityMapping, e: Encoded, s: Statement, defaults: Row, table: Table,
    binds: seq<Value>, bs: seq<PgBindValue>) returns (rows: seq<Row>, updated: seq<Row>)
    requires Proper(m) && m.idField in m.fields && Sound(m, table) && RowFits(table.schema, defaults)
    requires Writable(m, e, ReplacedFields(m)) && e.id.Ok?
    requires s.Update? && s.columns == NamesOf(m.fields, ReplacedFields(m))
    requires s.values == SourcesOf(m, e, ReplacedFields(m), 0) && s.filter.Some?
    requires Bound(bs, StoredSlots(m, e, ReplacedFields(m))) && BoundAt(binds, 0, bs)
    requires SelectsKey(server, s.filter.value, binds, table.key, StoredValue(server, e.id.value), table.rows)
    ensures UpdateRows(server, s, binds, defaults, table.schema, table.rows) == Some((rows, updated))
    ensures var id := StoredValue(server, e.id.value);
            if id !in Contents(table) then rows == table.rows && updated == []
            else
              && |updated| == 1 && RowFits(table.schema, updated[0]) && updated[0][table.key] == id
              && Written(server, m, e, ReplacedFields(m), Contents(table)[id], defaults, updated[0])
              && rows == Replaced(table.key, table.rows, updated[0])
  {
    var id := StoredValue(server, e.id.value);
    Lookup(table.key, table.rows, id);
    if id !in Contents(table) {
      rows, updated := table.rows, [];
      NothingUpdated(server, s, binds, defaults, table.schema, table.key, id, table.rows);
    } else {
      var base := Contents(table)[id];
      KeyIsKept(m);
      var row := AssignMeans(server, m, e, ReplacedFields(m), 0, table.schema, base, defaults, binds, bs);
      KeyUnwritten(server, m, e, base, defaults, row);
      UpdatedByKey(server, s, binds, defaults, table.schema, table.key, table.rows, row);
      rows, updated := Replaced(table.key, table.rows, row), [row];
    }
  }

  lemma {:induction false} KeyUnwritten(server: Server, m: EntityMapping, e: Encoded, base: Row, defaults: Row, row: Row)
    requires Proper(m) && m.idField in m.fields && Writable(m, e, ReplacedFields(m)) && IdColumn(m) in base
    requires forall f | f in ReplacedFields(m) :: m.fields[f].identifier in defaults
    requires Written(server, m, e, ReplacedFields(m), base, defaults, row)
    ensures row[IdColumn(m)] == base[IdColumn(m)]
  {
    forall f | f in ReplacedFields(m) ensures m.fields[f].identifier != IdColumn(m) {
      assert f != m.idField;
    }
  }

  lemma {:induction false} ReplaceApplies(
    server: Server, m: EntityMapping, e: Encoded, returning: bool, table: Table, row: Row, w: WriteOutcome)
    requires m.idField in m.fields && Sound(m, table) && RowFits(table.schema, row)
    requires row[table.key] in Contents(table)
    requires forall r: Row | r in table.rows :: table.key in r
    requires w == Applied(Replaced(table.key, table.rows, row), 1,
                          ProjectAll([row], if returning then SelectedNames(m) else []))
    ensures Sound(m, AfterWrite(table, w))
    ensures Contents(AfterWrite(table, w)) == Contents(table)[row[table.key] := row]
    ensures ReplaceOutcome(w, returning) == Acknowledged(m, returning, row)
  {
    ReplacedInStore(table.key, table.rows, row);
  }

  lemma {:induction false} ReplaceTells(
    server: Server, m: EntityMapping, e: Encoded, returning: bool, defaults: Row, table: Table,
    rows: seq<Row>, updated: seq<Row>, w: WriteOutcome)
    requires m.idField in m.fields && Sound(m, table) && Writable(m, e, ReplacedFields(m)) && e.id.Ok?
    requires forall f | f in ReplacedFields(m) :: m.fields[f].identifier in defaults
    requires ReplacedFields(m) != [] && Refusal(m, e, ReplacedFields(m)).None? && IdRefusal(m, e.id).None?
    requires w == Applied(rows, |updated|, ProjectAll(updated, if returning then SelectedNames(m) else []))
    requires forall r: Row | r in table.rows :: table.key in r
    requires var id := StoredValue(server, e.id.value);
             if id !in Contents(table) then rows == table.rows && updated == []
             else
               && |updated| == 1 && RowFits(table.schema, updated[0]) && updated[0][table.key] == id
               && Written(server, m, e, ReplacedFields(m), Contents(table)[id], defaults, updated[0])
               && rows == Replaced(table.key, table.rows, updated[0])
    ensures Sound(m, AfterWrite(table, w))
    ensures Replaces(server, m, e, returning, defaults, Contents(table), ReplaceOutcome(w, returning),
                     Contents(AfterWrite(table, w)))
  {
    if StoredValue(server, e.id.value) in Contents(table) {
      assert updated == [updated[0]];
      ReplaceApplies(server, m, e, returning, table, updated[0], w);
    }
  }

  lemma {:induction false} ReplaceDoes(
    server: Server, m: EntityMapping, e: Encoded, returning: bool, defaults: Row, table: Table)
    requires Proper(m) && m.idField in m.fields && Sound(m, table) && RowFits(table.schema, defaults)
    ensures var w := Sent(server, ReplaceStatement(m, e, returning), defaults, table);
            && Sound(m, AfterWrite(table, w))
            && Replaces(server, m, e, returning, defaults, Contents(table), ReplaceOutcome(w, returning),
                        Contents(AfterWrite(table, w)))
  {
    var w := Sent(server, ReplaceStatement(m, e, returning), defaults, table);
    ReplaceRefused(m, e, returning);
    if ReplacedFields(m) != [] && Refusal(m, e, ReplacedFields(m)).None? && IdRefusal(m, e.id).None? {
      var rows, updated := ReplaceExecutes(server, m, e, returning, defaults, table);
      ReplaceTells(server, m, e, returning, defaults, table, rows, updated, w);
    }
  }
}
