// Field by field: what the permissions and the entity's own values make of a row that is
// inserted, replaced or returned.

module RowTheorems {
  import opened Results
  import opened Mapping
  import opened Values
  import opened Conditions
  import opened Compiler
  import opened Entity
  import opened Repository
  import opened SqlLexer
  import opened SqlSemantics
  import opened SqlStatements
  import opened StatementProofs
  import opened SelectProofs
  import opened Queries
  import opened FindTheorems
  import opened Stores
  import opened RepositoryRuns
  import opened WriteProofs
  import opened KeyedTables
  import opened RepositoryTheorems
  import opened RunTheorems

  // ----- Roles as permissions -----

  /** What callers see of a row: the columns of the selectable fields, as they are stored. */
  ghost predicate Shows(fields: FieldMap, row: Row, seen: Row) {
    && seen.Keys == (set f | f in fields && fields[f].permissions.selectable :: fields[f].identifier)
    && forall c | c in seen :: c in row && seen[c] == row[c]
  }

  lemma {:induction false} NamesOfAre(fields: FieldMap, fs: seq<FieldName>, c: string)
    requires forall f | f in fs :: f in fields
    ensures c in NamesOf(fields, fs) <==> exists f | f in fs :: fields[f].identifier == c
  {
    if f :| f in fs && fields[f].identifier == c {
      var k :| 0 <= k < |fs| && fs[k] == f;
      assert NamesOf(fields, fs)[k] == c;
    }
    if c in NamesOf(fields, fs) {
      var k :| 0 <= k < |fs| && NamesOf(fields, fs)[k] == c;
      assert fs[k] in fs;
    }
  }

  lemma {:induction false} SelectedNamesAre(m: EntityMapping, c: string)
    requires WellBuilt(m)
    ensures c in SelectedNames(m)
       <==> exists f | f in m.fields :: m.fields[f].permissions.selectable && m.fields[f].identifier == c
  {
    MatchingKeepsOrder(m.fields, m.orderedFields, Selecting);
    NamesOfAre(m.fields, FieldsWith(m, Selecting), c);
  }

  lemma {:induction false} SeenShows(m: EntityMapping, schema: Schema, row: Row)
    requires WellBuilt(m) && InSchema(m, schema) && RowFits(schema, row)
    ensures Shows(m.fields, row, Seen(m, row))
  {
    forall c ensures c in Seen(m, row)
                <==> exists f | f in m.fields :: m.fields[f].permissions.selectable && m.fields[f].identifier == c {
      SelectedNamesAre(m, c);
    }
  }

  lemma {:induction false} ReplacedFieldsAre(m: EntityMapping, f: FieldName)
    requires WellBuilt(m)
    ensures f in ReplacedFields(m) <==> f in m.fields && m.fields[f].permissions.updatable && f != m.idField
  {
    MatchingKeepsOrder(m.fields, m.orderedFields, Updating);
  }

  // ----- The columns of the statements -----

  /** An insert names the columns of the insertable fields, each once, and returns those of the selectable ones. */
  lemma {:induction false} InsertColumns(m: EntityMapping, e: Encoded, returning: bool) returns (s: Statement)
    requires Proper(m) && InsertStatement(m, e, returning).Ok?
    ensures ParseStatement(Lex(InsertStatement(m, e, returning).value.sql)) == Some(s) && s.Insert?
    ensures (set c | c in s.columns)
         == set f | f in m.fields && m.fields[f].permissions.insertable :: m.fields[f].identifier
    ensures forall i, j | 0 <= i < j < |s.columns| :: s.columns[i] != s.columns[j]
    ensures (set c | c in s.returning)
         == set f | returning && f in m.fields && m.fields[f].permissions.selectable :: m.fields[f].identifier
  {
    ProperFacts(m);
    InsertReads(m, e, returning);
    s := IntendedInsert(m, e, returning);
    var fs := FieldsWith(m, Inserting);
    MatchingKeepsOrder(m.fields, m.orderedFields, Inserting);
    ColumnsDiffer(m.fields, fs);
    forall c
      ensures c in s.columns
         <==> exists f | f in m.fields :: m.fields[f].permissions.insertable && m.fields[f].identifier == c
      ensures c in s.returning
         <==> returning && exists f | f in m.fields :: m.fields[f].permissions.selectable && m.fields[f].identifier == c
    {
      NamesOfAre(m.fields, fs, c);
      SelectedNamesAre(m, c);
    }
  }

  lemma {:induction false} ColumnsDiffer(fields: FieldMap, fs: seq<FieldName>)
    requires DistinctColumns(fields) && NoDuplicates(fs) && forall f | f in fs :: f in fields
    ensures var names := NamesOf(fields, fs); forall i, j | 0 <= i < j < |names| :: names[i] != names[j]
  {
  }

  /** A replacement assigns the columns of the updatable fields other than the identity, each once. */
  lemma {:induction false} ReplaceColumns(m: EntityMapping, e: Encoded, returning: bool) returns (s: Statement)
    requires Proper(m) && m.idField in m.fields && ReplaceStatement(m, e, returning).Ok?
    ensures ParseStatement(Lex(ReplaceStatement(m, e, returning).value.sql)) == Some(s) && s.Update?
    ensures (set c | c in s.columns)
         == set f | f in m.fields && m.fields[f].permissions.updatable && f != m.idField :: m.fields[f].identifier
    ensures forall i, j | 0 <= i < j < |s.columns| :: s.columns[i] != s.columns[j]
    ensures (set c | c in s.returning)
         == set f | returning && f in m.fields && m.fields[f].permissions.selectable :: m.fields[f].identifier
  {
    ProperFacts(m);
    ReplaceReads(m, e, returning);
    s := IntendedReplace(m, e, returning);
    var fs := ReplacedFields(m);
    MatchingKeepsOrder(m.fields, m.orderedFields, Updating);
    KeyIsKept(m);
    ColumnsDiffer(m.fields, fs);
    forall c
      ensures c in s.columns
         <==> exists f | f in m.fields ::
                m.fields[f].permissions.updatable && f != m.idField && m.fields[f].identifier == c
      ensures c in s.returning
         <==> returning && exists f | f in m.fields :: m.fields[f].permissions.selectable && m.fields[f].identifier == c
    {
      NamesOfAre(m.fields, fs, c);
      SelectedNamesAre(m, c);
    }
  }

  // ----- Values of one's own -----

  /** What a column is given for a value: the value, or what the database supplies. */
  function Given(server: Server, value: PgValue, default: Value): Value {
    if value.Default? then default else StoredValue(server, value)
  }

  /** The column of `f` holds what the entity has for it: its identity there, the codec's value elsewhere. */
  ghost predicate HoldsOwn(server: Server, m: EntityMapping, e: Encoded, f: FieldName, defaults: Row, row: Row)
    requires f in m.fields
  {
    var c := m.fields[f].identifier;
    && c in row && c in defaults
    && if f == m.idField then e.id.Ok? && row[c] == Given(server, e.id.value, defaults[c])
       else f in e.values && e.values[f].Ok? && row[c] == Given(server, e.values[f].value, defaults[c])
  }

  function Unfit(kind: PgScalarKind, given: Result<PgValue>): Option<ErrorKind> {
    match given
    case Err(error) => Some(error)
    case Ok(value) => if value.Default? || FitsStored(kind, value) then None else Some(Validation)
  }

  /** Why this field cannot be written: the codec's error, a field it does not know, a value that does not fit. */
  function Complaint(m: EntityMapping, e: Encoded, f: FieldName): Option<ErrorKind>
    requires f in m.fields
  {
    if f == m.idField then Unfit(m.fields[f].kind, e.id)
    else if f !in e.values then Some(Validation)
    else Unfit(m.fields[f].kind, e.values[f])
  }

  lemma {:induction false} NoComplaints(m: EntityMapping, e: Encoded, fs: seq<FieldName>)
    requires forall f | f in fs :: f in m.fields
    ensures Refusal(m, e, fs).None? <==> forall f | f in fs :: Complaint(m, e, f).None?
    decreases |fs|
  {
    if fs != [] {
      NoComplaints(m, e, fs[1..]);
      assert Refusal(m, e, fs)
          == if Complaint(m, e, fs[0]).Some? then Complaint(m, e, fs[0]) else Refusal(m, e, fs[1..]);
      assert fs[0] in fs && forall f | f in fs :: f == fs[0] || f in fs[1..];
      assert forall f | f in fs[1..] :: f in fs;
    }
  }

  lemma {:induction false} OwnValue(
    server: Server, m: EntityMapping, e: Encoded, fs: seq<FieldName>, base: Row, defaults: Row, row: Row, f: FieldName)
    requires Writable(m, e, fs) && forall g | g in fs :: m.fields[g].identifier in defaults
    requires Written(server, m, e, fs, base, defaults, row) && f in fs
    ensures HoldsOwn(server, m, e, f, defaults, row)
  {
  }

  // ----- INSERT -----

  /** An entity without complaints: the row inserted, column by column, or why the server refuses it. */
  lemma {:induction false} InsertByField(
    server: Server, m: EntityMapping, e: Encoded, returning: bool, defaults: Row, table: Table) returns (row: Row)
    requires Proper(m) && m.idField in m.fields && Sound(m, table) && RowFits(table.schema, defaults)
    requires forall f | f in m.fields && m.fields[f].permissions.insertable :: Complaint(m, e, f).None?
    ensures RowFits(table.schema, row)
    ensures forall f | f in m.fields && m.fields[f].permissions.insertable :: HoldsOwn(server, m, e, f, defaults, row)
    ensures forall c | c in row ::
              (forall f | f in m.fields && m.fields[f].permissions.insertable :: m.fields[f].identifier != c) ==>
              row[c] == defaults[c]
    ensures var w := Sent(server, InsertStatement(m, e, returning), defaults, table);
            var outcome, after := InsertOutcome(w, returning), AfterWrite(table, w);
            if row[table.key].VNull? then outcome == Failed(Infrastructure) && after == table
            else if HasKey(table.key, row[table.key], table.rows) then outcome == Failed(Conflict) && after == table
            else
              && after == table.(rows := table.rows + [row])
              && if returning then outcome.Returned? && Shows(m.fields, row, outcome.row) else outcome == Outcome.Stored
  {
    var fs := FieldsWith(m, Inserting);
    MatchingKeepsOrder(m.fields, m.orderedFields, Inserting);
    NoComplaints(m, e, fs);
    row := InsertExecutes(server, m, e, returning, defaults, table);
    SeenShows(m, table.schema, row);
    forall f | f in fs ensures HoldsOwn(server, m, e, f, defaults, row) {
      OwnValue(server, m, e, fs, defaults, defaults, row, f);
    }
  }

  lemma {:induction false} FirstRefusal(m: EntityMapping, e: Encoded, ordered: seq<FieldName>, k: nat)
    requires k < |ordered| && ordered[k] in m.fields && m.fields[ordered[k]].permissions.insertable
    requires Complaint(m, e, ordered[k]).Some?
    requires forall j | 0 <= j < k && ordered[j] in m.fields && m.fields[ordered[j]].permissions.insertable ::
               Complaint(m, e, ordered[j]).None?
    ensures Refusal(m, e, Matching(m.fields, ordered, Inserting)) == Complaint(m, e, ordered[k])
    decreases k
  {
    var fs := Matching(m.fields, ordered, Inserting);
    if k > 0 {
      FirstRefusal(m, e, ordered[1..], k - 1);
      if FieldAllows(m.fields, Inserting, ordered[0]) {
        assert fs[1..] == Matching(m.fields, ordered[1..], Inserting);
      }
    }
  }

  /** The first insertable field with a complaint, in statement order, decides the error; nothing is sent. */
  lemma {:induction false} InsertRefusedByField(
    server: Server, m: EntityMapping, e: Encoded, returning: bool, defaults: Row, table: Table, k: nat)
    requires Proper(m) && k < |m.orderedFields|
    requires forall f | f in m.orderedFields :: f in m.fields
    requires m.fields[m.orderedFields[k]].permissions.insertable && Complaint(m, e, m.orderedFields[k]).Some?
    requires forall j | 0 <= j < k && m.fields[m.orderedFields[j]].permissions.insertable ::
               Complaint(m, e, m.orderedFields[j]).None?
    ensures var w := Sent(server, InsertStatement(m, e, returning), defaults, table);
            && InsertOutcome(w, returning) == Failed(Complaint(m, e, m.orderedFields[k]).value)
            && AfterWrite(table, w) == table
  {
    FirstRefusal(m, e, m.orderedFields, k);
    InsertRefused(m, e, returning);
  }

  // ----- UPDATE -----

  lemma {:induction false} ReplacedAt(key: string, rows: seq<Row>, row: Row, base: Row)
    requires Keyed(key, rows) && key in row && (forall r: Row | r in rows :: key in r)
    requires base in rows && base[key] == row[key]
    ensures var after := Replaced(key, rows, row);
            |after| == |rows| && forall i | 0 <= i < |rows| :: after[i] == if rows[i] == base then row else rows[i]
    decreases |rows|
  {
    Cons(rows);
    RowsAreStored(key, rows);
    if rows[0] != base {
      ReplacedAt(key, rows[1..], row, base);
    } else {
      KeyedRowsDiffer(key, rows);
    }
  }

  /** What a replacement makes of the row it found. */
  ghost predicate Updated(server: Server, m: EntityMapping, e: Encoded, defaults: Row, base: Row, row: Row) {
    && row.Keys == base.Keys
    && (forall f | f in m.fields ::
          if m.fields[f].permissions.updatable && f != m.idField then HoldsOwn(server, m, e, f, defaults, row)
          else
            var c := m.fields[f].identifier;
            c in row && row[c] == base[c])
    && forall c | c in row && (forall f | f in m.fields :: m.fields[f].identifier != c) :: row[c] == base[c]
  }

  lemma {:induction false} WrittenIsUpdated(
    server: Server, m: EntityMapping, e: Encoded, base: Row, defaults: Row, row: Row)
    requires Proper(m) && Writable(m, e, ReplacedFields(m)) && forall f | f in m.fields :: m.fields[f].identifier in base
    requires forall f | f in ReplacedFields(m) :: m.fields[f].identifier in defaults
    requires Written(server, m, e, ReplacedFields(m), base, defaults, row)
    ensures Updated(server, m, e, defaults, base, row)
  {
    forall f | f in m.fields
      ensures if m.fields[f].permissions.updatable && f != m.idField then HoldsOwn(server, m, e, f, defaults, row)
              else m.fields[f].identifier in row && row[m.fields[f].identifier] == base[m.fields[f].identifier]
    {
      ReplacedFieldsAre(m, f);
      if f in ReplacedFields(m) {
        OwnValue(server, m, e, ReplacedFields(m), base, defaults, row, f);
      } else {
        assert forall g | g in ReplacedFields(m) :: m.fields[g].identifier != m.fields[f].identifier;
      }
    }
  }

  /** The row with the identity, and it alone, is replaced by its updated self; without one, nothing is. */
  ghost predicate ReplacesRow(
    server: Server, m: EntityMapping, e: Encoded, returning: bool, defaults: Row, table: Table, id: Value, row: Row,
    outcome: Outcome, after: Table)
    requires m.idField in m.fields && Sound(m, table)
  {
    if id !in Contents(table) then outcome == Failed(NotFound) && after == table
    else
      var base := Contents(table)[id];
      && (forall f | f in m.fields :: m.fields[f].identifier in base) && Updated(server, m, e, defaults, base, row)
      && after == table.(rows := after.rows) && |after.rows| == |table.rows|
      && (forall i | 0 <= i < |table.rows| :: after.rows[i] == if table.rows[i] == base then row else table.rows[i])
      && if returning then outcome.Returned? && Shows(m.fields, row, outcome.row) else outcome == Outcome.Stored
  }

  /** An entity and an identity without complaints: the one row replaced, column by column, or not found. */
  lemma {:induction false} ReplaceByField(
    server: Server, m: EntityMapping, e: Encoded, returning: bool, defaults: Row, table: Table) returns (row: Row)
    requires Proper(m) && m.idField in m.fields && Sound(m, table) && RowFits(table.schema, defaults)
    requires exists f | f in m.fields :: m.fields[f].permissions.updatable && f != m.idField
    requires forall f | f in m.fields && m.fields[f].permissions.updatable && f != m.idField :: Complaint(m, e, f).None?
    requires e.id.Ok? && !e.id.value.Null? && !e.id.value.Default? && FitsStored(m.fields[m.idField].kind, e.id.value)
    ensures var w := Sent(server, ReplaceStatement(m, e, returning), defaults, table);
            ReplacesRow(server, m, e, returning, defaults, table, StoredValue(server, e.id.value), row,
                        ReplaceOutcome(w, returning), AfterWrite(table, w))
  {
    forall f ensures f in ReplacedFields(m)
                <==> f in m.fields && m.fields[f].permissions.updatable && f != m.idField {
      ReplacedFieldsAre(m, f);
    }
    NoComplaints(m, e, ReplacedFields(m));
    var rows, updated := ReplaceExecutes(server, m, e, returning, defaults, table);
    row := ReplacedRow(server, m, e, returning, defaults, table, StoredValue(server, e.id.value), rows, updated);
  }

  lemma {:induction false} ReplacedRow(
    server: Server, m: EntityMapping, e: Encoded, returning: bool, defaults: Row, table: Table, id: Value,
    rows: seq<Row>, updated: seq<Row>) returns (row: Row)
    requires Proper(m) && m.idField in m.fields && Sound(m, table) && RowFits(table.schema, defaults)
    requires Writable(m, e, ReplacedFields(m))
    requires if id !in Contents(table) then rows == table.rows && updated == []
             else
               && |updated| == 1 && RowFits(table.schema, updated[0]) && updated[0][table.key] == id
               && Written(server, m, e, ReplacedFields(m), Contents(table)[id], defaults, updated[0])
               && rows == Replaced(table.key, table.rows, updated[0])
    ensures var w := Applied(rows, |updated|, ProjectAll(updated, if returning then SelectedNames(m) else []));
            ReplacesRow(server, m, e, returning, defaults, table, id, row,
                        ReplaceOutcome(w, returning), AfterWrite(table, w))
  {
    row := defaults;
    if id in Contents(table) {
      row := updated[0];
      assert updated == [row];
      FoundRow(server, m, e, defaults, table, row);
      OneReturned(m, returning, rows, row);
    }
  }

  lemma {:induction false} FoundRow(
    server: Server, m: EntityMapping, e: Encoded, defaults: Row, table: Table, row: Row)
    requires Proper(m) && m.idField in m.fields && Sound(m, table) && RowFits(table.schema, defaults)
    requires Writable(m, e, ReplacedFields(m)) && RowFits(table.schema, row) && row[table.key] in Contents(table)
    requires Written(server, m, e, ReplacedFields(m), Contents(table)[row[table.key]], defaults, row)
    ensures var base := Contents(table)[row[table.key]];
            var after := Replaced(table.key, table.rows, row);
            && (forall f | f in m.fields :: m.fields[f].identifier in base)
            && Updated(server, m, e, defaults, base, row) && Shows(m.fields, row, Seen(m, row))
            && |after| == |table.rows|
            && forall i | 0 <= i < |table.rows| :: after[i] == if table.rows[i] == base then row else table.rows[i]
  {
    var base := Contents(table)[row[table.key]];
    Lookup(table.key, table.rows, row[table.key]);
    WrittenIsUpdated(server, m, e, base, defaults, row);
    ReplacedAt(table.key, table.rows, row, base);
    SeenShows(m, table.schema, row);
  }

  lemma {:induction false} OneReturned(m: EntityMapping, returning: bool, rows: seq<Row>, row: Row)
    ensures ReplaceOutcome(Applied(rows, 1, ProjectAll([row], if returning then SelectedNames(m) else [])), returning)
         == Acknowledged(m, returning, row)
  {
  }

  lemma {:induction false} NoReplacedField(m: EntityMapping)
    requires WellBuilt(m)
    ensures ReplacedFields(m) == []
       <==> forall f | f in m.fields :: !m.fields[f].permissions.updatable || f == m.idField
  {
    if ReplacedFields(m) != [] {
      var f := ReplacedFields(m)[0];
      assert f in ReplacedFields(m);
      ReplacedFieldsAre(m, f);
    } else {
      forall f | f in m.fields ensures !m.fields[f].permissions.updatable || f == m.idField {
        ReplacedFieldsAre(m, f);
      }
    }
  }

  lemma {:induction false} NoSuchComplaint(m: EntityMapping, e: Encoded, fs: seq<FieldName>)
    requires m.idField in m.fields && forall f | f in fs :: f in m.fields
    requires e.id != Err(Unsupported) && forall f | f in e.values :: e.values[f] != Err(Unsupported)
    ensures Refusal(m, e, fs) != Some(Unsupported) && IdRefusal(m, e.id) != Some(Unsupported)
    decreases |fs|
  {
    if fs != [] {
      NoSuchComplaint(m, e, fs[1..]);
    }
  }

  lemma {:induction false} UnsupportedCompiles(m: EntityMapping, e: Encoded, returning: bool)
    requires Proper(m) && m.idField in m.fields
    requires e.id != Err(Unsupported) && forall f | f in e.values :: e.values[f] != Err(Unsupported)
    ensures ReplaceStatement(m, e, returning) == Err(Unsupported)
       <==> forall f | f in m.fields :: !m.fields[f].permissions.updatable || f == m.idField
  {
    NoReplacedField(m);
    ReplaceRefused(m, e, returning);
    forall f | f in ReplacedFields(m) ensures f in m.fields {
      ReplacedFieldsAre(m, f);
    }
    NoSuchComplaint(m, e, ReplacedFields(m));
  }

  /**
   * A replacement is unsupported exactly when no field but the identity is updatable, unless
   * the codec's own error happens to be of that category.
   */
  lemma {:induction false} ReplaceIsUnsupported(
    server: Server, m: EntityMapping, e: Encoded, returning: bool, defaults: Row, table: Table)
    requires Proper(m) && m.idField in m.fields
    requires e.id != Err(Unsupported) && forall f | f in e.values :: e.values[f] != Err(Unsupported)
    ensures var w := Sent(server, ReplaceStatement(m, e, returning), defaults, table);
            && (ReplaceOutcome(w, returning) == Failed(Unsupported)
                <==> forall f | f in m.fields :: !m.fields[f].permissions.updatable || f == m.idField)
            && (ReplaceOutcome(w, returning) == Failed(Unsupported) ==> AfterWrite(table, w) == table)
  {
    UnsupportedCompiles(m, e, returning);
    SentUnsupported(server, ReplaceStatement(m, e, returning), returning, defaults, table);
  }

  lemma {:induction false} SentUnsupported(
    server: Server, compiled: Result<PgCompiledQuery>, returning: bool, defaults: Row, table: Table)
    ensures var w := Sent(server, compiled, defaults, table);
            && (ReplaceOutcome(w, returning) == Failed(Unsupported) <==> compiled == Err(Unsupported))
            && (compiled.Err? ==> AfterWrite(table, w) == table)
  {
    if compiled.Ok? {
      ServerRefusals(server, compiled.value.sql, BindValues(compiled.value.bindings), defaults, table);
    }
  }

  lemma {:induction false} ServerRefusals(server: Server, sql: string, binds: seq<Value>, defaults: Row, table: Table)
    ensures var w := ExecuteWrite(server, sql, binds, defaults, table);
            w.Refused? ==> w.kind == Infrastructure || w.kind == Conflict
  {
  }

  lemma {:induction false} FirstReplaceRefusal(m: EntityMapping, e: Encoded, ordered: seq<FieldName>, k: nat)
    requires k < |ordered| && ordered[k] in m.fields && m.fields[ordered[k]].permissions.updatable
    requires ordered[k] != m.idField && Complaint(m, e, ordered[k]).Some?
    requires forall j | 0 <= j < k && ordered[j] in m.fields && m.fields[ordered[j]].permissions.updatable
                        && ordered[j] != m.idField :: Complaint(m, e, ordered[j]).None?
    ensures Refusal(m, e, Without(Matching(m.fields, ordered, Updating), m.idField)) == Complaint(m, e, ordered[k])
    decreases k
  {
    if k > 0 {
      FirstReplaceRefusal(m, e, ordered[1..], k - 1);
      var rest := Matching(m.fields, ordered[1..], Updating);
      assert ([ordered[0]] + rest)[1..] == rest;
      var kept := Without(rest, m.idField);
      assert ([ordered[0]] + kept)[1..] == kept;
    }
  }

  /** The first replaced field with a complaint decides the error; the identity is asked last. */
  lemma {:induction false} ReplaceRefusedByField(
    server: Server, m: EntityMapping, e: Encoded, returning: bool, defaults: Row, table: Table, k: nat)
    requires Proper(m) && m.idField in m.fields && k < |m.orderedFields|
    requires forall f | f in m.orderedFields :: f in m.fields
    requires m.fields[m.orderedFields[k]].permissions.updatable && m.orderedFields[k] != m.idField
    requires Complaint(m, e, m.orderedFields[k]).Some?
    requires forall j | 0 <= j < k && m.fields[m.orderedFields[j]].permissions.updatable
                        && m.orderedFields[j] != m.idField :: Complaint(m, e, m.orderedFields[j]).None?
    ensures var w := Sent(server, ReplaceStatement(m, e, returning), defaults, table);
            && ReplaceOutcome(w, returning) == Failed(Complaint(m, e, m.orderedFields[k]).value)
            && AfterWrite(table, w) == table
  {
    FirstReplaceRefusal(m, e, m.orderedFields, k);
    ReplaceRefused(m, e, returning);
    ReplacedFieldsAre(m, m.orderedFields[k]);
  }

  // ----- Reading -----

  /** The row a get returns has exactly the selectable columns, as they are stored. */
  lemma {:induction false} GetByField(
    server: Server, m: EntityMapping, id: Result<PgValue>, defaults: Row, table: Table, outcome: Outcome, after: Table)
    requires Proper(m) && m.idField in m.fields && Sound(m, table)
    requires Runs(server, m, Get(id), defaults, table, outcome, after)
    ensures outcome.Got? ==>
              && id.Ok?
              && var key := StoredValue(server, id.value);
                 match outcome.found
                 case None => key !in Contents(table)
                 case Some(seen) => key in Contents(table) && Shows(m.fields, Contents(table)[key], seen)
  {
    GetDoes(server, m, id, defaults, table, outcome, after);
    if outcome.Got? && outcome.found.Some? {
      var key := StoredValue(server, id.value);
      Lookup(table.key, table.rows, key);
      SeenShows(m, table.schema, Contents(table)[key]);
    }
  }

  /** And so does every row a find returns. */
  lemma {:induction false} FindByField(
    server: Server, m: EntityMapping, params: FindParams, table: Table, answer: seq<Row>)
    requires Proper(m) && m.idField in m.fields && Sound(m, table)
    requires Reads(server, FindStatement(m, params), table, answer)
    ensures forall seen | seen in answer :: exists row | row in table.rows :: Shows(m.fields, row, seen)
  {
    FindAnswersTable(server, m, params, table);
    AnswerByField(server, m, params, table, answer);
  }

  lemma {:induction false} AnswerByField(
    server: Server, m: EntityMapping, params: FindParams, table: Table, answer: seq<Row>)
    requires WellBuilt(m) && Hosts(m, table) && FindReady(m.fields, params) && TypedRows(m.fields, table.rows)
    requires FindAnswer(server, m, params, table.rows, answer)
    ensures forall seen | seen in answer :: exists row | row in table.rows :: Shows(m.fields, row, seen)
  {
    var sorted :| Arrangement(server, m.fields, params, table.rows, sorted)
                  && answer == ProjectAll(Slice(sorted, params.limit, params.offset), SelectedNames(m));
    var slice := Slice(sorted, params.limit, params.offset);
    forall i | 0 <= i < |answer| ensures slice[i] in table.rows && Shows(m.fields, slice[i], answer[i]) {
      assert slice[i] in multiset(sorted);
      SeenShows(m, table.schema, slice[i]);
    }
  }

  // ----- Where runs start -----

  lemma {:induction false} DistinctByPosition(fields: FieldMap, names: seq<FieldName>, columns: seq<string>)
    requires |names| == |columns| && NoDuplicates(names) && (forall f :: f in names <==> f in fields)
    requires forall i | 0 <= i < |names| :: names[i] in fields && fields[names[i]].identifier == columns[i]
    ensures DistinctColumns(fields) <==> forall i, j | 0 <= i < j < |columns| :: columns[i] != columns[j]
  {
    if forall i, j | 0 <= i < j < |columns| :: columns[i] != columns[j] {
      forall f, g | f in fields && g in fields && f != g ensures fields[f].identifier != fields[g].identifier {
        var i :| 0 <= i < |names| && names[i] == f;
        var j :| 0 <= j < |names| && names[j] == g;
        assert columns[i] != columns[j];
      }
    } else {
      var i, j :| 0 <= i < j < |columns| && columns[i] == columns[j];
      assert names[i] != names[j];
    }
  }

  lemma {:induction false} MappingOfChain(table: PgTable, idField: FieldName, steps: seq<FieldStep>)
    returns (m: EntityMapping, names: seq<FieldName>)
    requires Built(Started(table, idField), steps).Ok?
    ensures Built(Started(table, idField), steps) == Ok(m) && WellBuilt(m) && m.idField == idField
    ensures |names| == |steps| && NoDuplicates(names) && forall f :: f in names <==> f in m.fields
    ensures forall i | 0 <= i < |steps| ::
              && steps[i].logical == Ok(names[i]) && names[i] in m.fields
              && m.fields[names[i]].identifier == steps[i].physical
              && m.fields[names[i]].permissions == steps[i].permissions
  {
    m := Built(Started(table, idField), steps).value;
    ReachableMappings(table, idField, steps);
    BuiltKeepsOrder(Started(table, idField), steps);
    names := LogicalNames(steps);
    forall i | 0 <= i < |steps|
      ensures names[i] in m.fields && m.fields[names[i]].identifier == steps[i].physical
      ensures m.fields[names[i]].permissions == steps[i].permissions
    {
      BuiltColumn(Started(table, idField), steps, i);
    }
  }

  /** A chain's mapping is proper exactly when it selects the identity and gives every field a column of its own. */
  lemma {:induction false} BuiltIsProper(table: PgTable, idField: FieldName, steps: seq<FieldStep>)
    requires Built(Started(table, idField), steps).Ok?
    ensures Proper(Built(Started(table, idField), steps).value)
       <==> && (exists i | 0 <= i < |steps| :: steps[i].logical == Ok(idField) && steps[i].permissions.selectable)
            && forall i, j | 0 <= i < j < |steps| :: steps[i].physical != steps[j].physical
  {
    var m, names := MappingOfChain(table, idField, steps);
    var columns := seq(|steps|, i requires 0 <= i < |steps| => steps[i].physical);
    ValidateIsTheIdentityCheck(m);
    DistinctByPosition(m.fields, names, columns);
    assert (forall i, j | 0 <= i < j < |steps| :: steps[i].physical != steps[j].physical)
      <==> forall i, j | 0 <= i < j < |columns| :: columns[i] != columns[j];
    if idField in m.fields && m.fields[idField].permissions.selectable {
      var i :| 0 <= i < |names| && names[i] == idField;
      assert steps[i].logical == Ok(idField) && steps[i].permissions.selectable;
    }
  }

  /** An empty table with the mapping's name, its columns, and the identity's for a key is one to start from. */
  lemma {:induction false} EmptyTableIsSound(m: EntityMapping, schema: Schema)
    requires m.idField in m.fields
    requires forall f | f in m.fields ::
               m.fields[f].identifier in schema && schema[m.fields[f].identifier] == m.fields[f].kind
    ensures Sound(m, Table(TableName(m.table.schema, m.table.name), schema, m.fields[m.idField].identifier, []))
  {
  }
}
