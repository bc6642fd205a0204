// Reads of the repository as reads of the map, and every run of operations as a run on it.

module RunTheorems {
  import opened Results
  import opened Mapping
  import opened Values
  import opened Conditions
  import opened Compiler
  import opened Entity
  import opened Repository
  import opened SqlSemantics
  import opened SqlStatements
  import opened MeaningProofs
  import opened StatementProofs
  import opened SelectProofs
  import opened ConditionTheorems
  import opened Queries
  import opened FindTheorems
  import opened PagingTheorems
  import opened Stores
  import opened RepositoryRuns
  import opened WriteProofs
  import opened KeyedTables
  import opened RepositoryTheorems

  // ----- GET -----

  lemma {:induction false} OnlyRow(sorted: seq<Row>, kept: seq<Row>)
    requires multiset(sorted) == multiset(kept) && |kept| <= 1
    ensures sorted == kept
  {
    assert |multiset(sorted)| == |sorted| && |multiset(kept)| == |kept|;
    if kept != [] {
      assert kept[0] in multiset(sorted);
    }
  }

  /** A select of at most one row has one answer. */
  lemma {:induction false} OneRowAnswers(
    server: Server, s: Statement, binds: seq<Value>, table: Table, kept: seq<Row>, answer: seq<Row>)
    requires s.Select? && s.table == table.name && s.order == [] && s.limit.None? && s.offset.None?
    requires forall c | c in s.columns :: c in table.schema
    requires FilterSound(server, s.filter, binds, table.rows)
    requires kept == Kept(server, s.filter, binds, table.rows) && |kept| <= 1
    ensures SelectAnswers(server, s, binds, table, answer) <==> answer == ProjectAll(kept, s.columns)
  {
    forall sorted: seq<Row> | OrderedBy(server, s.order, sorted, binds) && multiset(sorted) == multiset(kept)
      ensures sorted == kept
    {
      OnlyRow(sorted, kept);
    }
    assert OrderedBy(server, s.order, kept, binds);
    assert Page(kept, None, 0) == kept;
  }

  lemma {:induction false} GetAnswers(server: Server, m: EntityMapping, id: Result<PgValue>, table: Table, answer: seq<Row>)
    requires Proper(m) && m.idField in m.fields && Sound(m, table) && IdRefusal(m, id).None?
    ensures var key := StoredValue(server, id.value);
            Reads(server, GetStatement(m, id), table, answer)
            <==> answer == if key in Contents(table) then [Seen(m, Contents(table)[key])] else []
  {
    IdSends(m, id);
    ProperFacts(m);
    GetReads(m, id);
    var q := GetStatement(m, id).value;
    var binds := BindValues(q.bindings);
    var e := IdExpr(m.fields[m.idField], 1);
    IdSelects(server, m, id, table, 1, e, binds);
    KeptByKey(server, e, binds, table.key, StoredValue(server, id.value), table.rows);
    SelectedInSchema(m, table);
    var kept := Kept(server, Some(e), binds, table.rows);
    var s := Select(SelectedNames(m), TableNameOf(m.table), Some(e), [], None, None);
    OneRowAnswers(server, s, binds, table, kept, answer);
    OneSeen(m, table, StoredValue(server, id.value), kept);
  }

  lemma {:induction false} OneSeen(m: EntityMapping, table: Table, key: Value, kept: seq<Row>)
    requires m.idField in m.fields && Sound(m, table)
    requires kept == if key in Contents(table) then [Contents(table)[key]] else []
    ensures ProjectAll(kept, SelectedNames(m)) == if key in Contents(table) then [Seen(m, Contents(table)[key])] else []
  {
  }

  lemma {:induction false} GetDoes(
    server: Server, m: EntityMapping, id: Result<PgValue>, defaults: Row, table: Table, outcome: Outcome, after: Table)
    requires Proper(m) && m.idField in m.fields && Sound(m, table)
    requires Runs(server, m, Get(id), defaults, table, outcome, after)
    ensures after == table
    ensures match IdRefusal(m, id)
            case Some(kind) => outcome == Failed(kind)
            case None =>
              var key := StoredValue(server, id.value);
              outcome == Got(if key in Contents(table) then Some(Seen(m, Contents(table)[key])) else None)
  {
    IdRefuses(m, id);
    if IdRefusal(m, id).None? {
      IdSends(m, id);
      var one := GetAnswersOnce(server, m, id, table);
      assert Reads(server, GetStatement(m, id), table, one);
    }
  }

  lemma {:induction false} GetAnswersOnce(server: Server, m: EntityMapping, id: Result<PgValue>, table: Table)
    returns (one: seq<Row>)
    requires Proper(m) && m.idField in m.fields && Sound(m, table) && IdRefusal(m, id).None?
    ensures var key := StoredValue(server, id.value);
            one == if key in Contents(table) then [Seen(m, Contents(table)[key])] else []
    ensures forall answer :: Reads(server, GetStatement(m, id), table, answer) <==> answer == one
  {
    var key := StoredValue(server, id.value);
    one := if key in Contents(table) then [Seen(m, Contents(table)[key])] else [];
    forall answer ensures Reads(server, GetStatement(m, id), table, answer) <==> answer == one {
      GetAnswers(server, m, id, table, answer);
    }
  }

  // ----- FIND -----

  lemma {:induction false} FindRefusal(m: EntityMapping, params: FindParams)
    ensures FindStatement(m, params).Err? ==> FindStatement(m, params).kind == Validation
    ensures CountStatement(m, params).Err? ==> CountStatement(m, params).kind == Validation
    ensures CountStatement(m, params).Ok?
       <==> ValidParams(params) && (params.condition.Some? ==> Compilable(m.fields, params.condition.value))
  {
    SelectedLex(m);
    if ValidParams(params) && params.condition.Some? {
      CompilesExactlyWhen(m.fields, params.condition.value, 0);
    }
    SortRefusal(m.fields, params.sort, 0);
  }

  lemma {:induction false} SortRefusal(fields: FieldMap, sort: seq<Sort>, i: nat)
    requires i <= |sort|
    ensures SortItems(fields, sort, i).Err? ==> SortItems(fields, sort, i).kind == Validation
    decreases |sort| - i
  {
    if i < |sort| {
      SortRefusal(fields, sort, i + 1);
    }
  }

  lemma {:induction false} KeyedRowsDiffer(key: string, rows: seq<Row>)
    requires Keyed(key, rows)
    ensures forall i, j | 0 <= i < j < |rows| :: rows[i] != rows[j]
    decreases |rows|
  {
    if rows != [] {
      KeyedRowsDiffer(key, rows[1..]);
      assert forall i | 0 < i < |rows| :: rows[i] == rows[1..][i - 1];
      assert forall i | 0 < i < |rows| :: rows[i] in rows[1..];
    }
  }

  lemma {:induction false} TableLists(m: EntityMapping, table: Table)
    requires m.idField in m.fields && Sound(m, table)
    ensures Lists(table.rows, Contents(table)) && StoreTyped(m, Contents(table)) && TypedRows(m.fields, table.rows)
  {
    KeyedRowsDiffer(table.key, table.rows);
    RowsAreStored(table.key, table.rows);
    HostedRows(m, table);
    forall k | k in Contents(table) ensures Contents(table)[k] in table.rows {
      Lookup(table.key, table.rows, k);
    }
  }

  lemma {:induction false} FindDoes(
    server: Server, m: EntityMapping, params: FindParams, defaults: Row, table: Table, outcome: Outcome, after: Table)
    requires Proper(m) && m.idField in m.fields && Sound(m, table) && StoreTyped(m, Contents(table))
    requires Runs(server, m, Operation.Find(params), defaults, table, outcome, after)
    ensures Does(server, m, Operation.Find(params), defaults, Contents(table), outcome, Contents(table)) && after == table
  {
    FindRefusal(m, params);
    FindCompilesExactlyWhen(m, params);
    if FindStatement(m, params).Ok? {
      TableLists(m, table);
      FindAnswersTable(server, m, params, table);
    }
  }

  lemma {:induction false} FindAnswersTable(server: Server, m: EntityMapping, params: FindParams, table: Table)
    requires Proper(m) && m.idField in m.fields && Sound(m, table) && FindStatement(m, params).Ok?
    ensures FindReady(m.fields, params) && TypedRows(m.fields, table.rows)
    ensures exists answer :: Reads(server, FindStatement(m, params), table, answer)
    ensures forall answer | Reads(server, FindStatement(m, params), table, answer) ::
              FindAnswer(server, m, params, table.rows, answer)
  {
    ProperFacts(m);
    TableLists(m, table);
    FindIsReady(m.fields, params);
    var some := FindHasAnswers(server, m, params, table.rows);
    FindMeans(server, m, params, table, some);
    assert Reads(server, FindStatement(m, params), table, some);
    forall answer | Reads(server, FindStatement(m, params), table, answer)
      ensures FindAnswer(server, m, params, table.rows, answer)
    {
      FindMeans(server, m, params, table, answer);
    }
  }

  // ----- COUNT -----

  ghost function MatchingKeys(
    server: Server, fields: FieldMap, condition: Option<Condition>, store: Store): set<Value>
    requires condition.Some? ==> ValidCondition(condition.value)
    requires forall k | k in store :: TypedRow(fields, store[k])
  {
    set k | k in store && Matches(server, fields, condition, store[k])
  }

  lemma {:induction false} OneMoreMember(before: set<Value>, now: set<Value>, id: Value, hit: bool)
    requires id !in before && forall k :: k in now <==> k in before || (k == id && hit)
    ensures |now| == |before| + if hit then 1 else 0
  {
    assert now == if hit then before + {id} else before;
  }

  lemma {:induction false} OneMoreKey(
    server: Server, fields: FieldMap, condition: Option<Condition>, store: Store, id: Value, row: Row, after: Store)
    requires condition.Some? ==> ValidCondition(condition.value)
    requires (forall k | k in store :: TypedRow(fields, store[k])) && TypedRow(fields, row)
    requires id !in store && after == store[id := row]
    ensures forall k | k in after :: TypedRow(fields, after[k])
    ensures |MatchingKeys(server, fields, condition, after)|
         == |MatchingKeys(server, fields, condition, store)| + if Matches(server, fields, condition, row) then 1 else 0
  {
    OneMoreMember(MatchingKeys(server, fields, condition, store), MatchingKeys(server, fields, condition, after), id,
                  Matches(server, fields, condition, row));
  }

  lemma {:induction false} CountByKey(
    server: Server, fields: FieldMap, condition: Option<Condition>, key: string, rows: seq<Row>)
    requires condition.Some? ==> ValidCondition(condition.value)
    requires Keyed(key, rows) && TypedRows(fields, rows)
    ensures forall k | k in StoreOf(key, rows) :: TypedRow(fields, StoreOf(key, rows)[k])
    ensures |Filtered(server, fields, condition, rows)|
         == |MatchingKeys(server, fields, condition, StoreOf(key, rows))|
    decreases |rows|
  {
    if rows != [] {
      Cons(rows);
      CountByKey(server, fields, condition, key, rows[1..]);
      Lookup(key, rows[1..], rows[0][key]);
      OneMoreKey(server, fields, condition, StoreOf(key, rows[1..]), rows[0][key], rows[0],
                 StoreOf(key, rows));
    }
  }

  lemma {:induction false} CountDoes(
    server: Server, m: EntityMapping, params: FindParams, defaults: Row, table: Table, outcome: Outcome, after: Table)
    requires Proper(m) && m.idField in m.fields && Sound(m, table) && StoreTyped(m, Contents(table))
    requires Runs(server, m, Operation.Count(params), defaults, table, outcome, after)
    ensures Does(server, m, Operation.Count(params), defaults, Contents(table), outcome, Contents(table)) && after == table
  {
    FindRefusal(m, params);
    if CountStatement(m, params).Ok? {
      CountMeans(server, m, params, table);
      CountByKey(server, m.fields, params.condition, table.key, table.rows);
    }
  }

  // ----- Runs -----

  /** Between two sound tables, the operation did to the map what it does to a map. */
  ghost predicate Refines(
    server: Server, m: EntityMapping, op: Operation, defaults: Row, table: Table, outcome: Outcome, after: Table)
    requires m.idField in m.fields
  {
    && Sound(m, table) && Sound(m, after) && StoreTyped(m, Contents(table))
    && Does(server, m, op, defaults, Contents(table), outcome, Contents(after))
  }

  /** One operation on the table is that operation on the map. */
  lemma {:induction false} StepRefines(
    server: Server, m: EntityMapping, op: Operation, defaults: Row, table: Table, outcome: Outcome, after: Table)
    requires Proper(m) && m.idField in m.fields && Sound(m, table) && RowFits(table.schema, defaults)
    requires Runs(server, m, op, defaults, table, outcome, after)
    ensures Refines(server, m, op, defaults, table, outcome, after) && after.schema == table.schema
  {
    TableLists(m, table);
    match op
    case Insert(e, returning) => InsertDoes(server, m, e, returning, defaults, table);
    case Replace(e, returning) => ReplaceDoes(server, m, e, returning, defaults, table);
    case Remove(id) => RemoveDoes(server, m, id, defaults, table);
    case Get(id) => GetDoes(server, m, id, defaults, table, outcome, after);
    case Find(params) => FindDoes(server, m, params, defaults, table, outcome, after);
    case Count(params) => CountDoes(server, m, params, defaults, table, outcome, after);
  }

  /** Every operation on a sound table has an outcome. */
  lemma {:induction false} EveryOperationRuns(
    server: Server, m: EntityMapping, op: Operation, defaults: Row, table: Table) returns (outcome: Outcome, after: Table)
    requires Proper(m) && m.idField in m.fields && Sound(m, table)
    ensures Runs(server, m, op, defaults, table, outcome, after)
  {
    after := table;
    match op
    case Insert(e, returning) =>
      var w := Sent(server, InsertStatement(m, e, returning), defaults, table);
      outcome, after := InsertOutcome(w, returning), AfterWrite(table, w);
    case Replace(e, returning) =>
      var w := Sent(server, ReplaceStatement(m, e, returning), defaults, table);
      outcome, after := ReplaceOutcome(w, returning), AfterWrite(table, w);
    case Remove(id) =>
      var w := Sent(server, RemoveStatement(m, id), defaults, table);
      outcome, after := RemoveOutcome(w), AfterWrite(table, w);
    case Get(id) => outcome := GetRuns(server, m, id, table);
    case Find(params) => outcome := FindRuns(server, m, params, table);
    case Count(params) =>
      if CountStatement(m, params).Ok? {
        CountMeans(server, m, params, table);
        outcome := Counted(|Filtered(server, m.fields, params.condition, table.rows)|);
      } else {
        outcome := Failed(CountStatement(m, params).kind);
      }
  }

  lemma {:induction false} GetRuns(server: Server, m: EntityMapping, id: Result<PgValue>, table: Table)
    returns (outcome: Outcome)
    requires Proper(m) && m.idField in m.fields && Sound(m, table)
    ensures if GetStatement(m, id).Err? then outcome == Failed(GetStatement(m, id).kind)
            else exists answer :: Reads(server, GetStatement(m, id), table, answer) && outcome == GetOutcome(answer)
  {
    IdRefuses(m, id);
    if GetStatement(m, id).Err? {
      outcome := Failed(GetStatement(m, id).kind);
    } else {
      var key := StoredValue(server, id.value);
      var answer := if key in Contents(table) then [Seen(m, Contents(table)[key])] else [];
      GetAnswers(server, m, id, table, answer);
      outcome := GetOutcome(answer);
    }
  }

  lemma {:induction false} FindRuns(server: Server, m: EntityMapping, params: FindParams, table: Table)
    returns (outcome: Outcome)
    requires Proper(m) && m.idField in m.fields && Sound(m, table)
    ensures if FindStatement(m, params).Err? then outcome == Failed(FindStatement(m, params).kind)
            else outcome.Found? && Reads(server, FindStatement(m, params), table, outcome.rows)
  {
    if FindStatement(m, params).Err? {
      outcome := Failed(FindStatement(m, params).kind);
    } else {
      ProperFacts(m);
      TableLists(m, table);
      FindIsReady(m.fields, params);
      var answer := FindHasAnswers(server, m, params, table.rows);
      FindMeans(server, m, params, table, answer);
      outcome := Found(answer);
    }
  }

  /** A sequence of operations with what each told its caller and the table after each. */
  ghost predicate IsRun(
    server: Server, m: EntityMapping, ops: seq<Operation>, defaults: seq<Row>, outcomes: seq<Outcome>, tables: seq<Table>)
  {
    && |ops| == |defaults| == |outcomes| && |tables| == |ops| + 1
    && forall i | 0 <= i < |ops| :: Runs(server, m, ops[i], defaults[i], tables[i], outcomes[i], tables[i + 1])
  }

  /** Over every run, from any sound table, each operation refines its map operation. */
  lemma {:induction false} RunsRefineTheMap(
    server: Server, m: EntityMapping, ops: seq<Operation>, defaults: seq<Row>, outcomes: seq<Outcome>, tables: seq<Table>)
    requires Proper(m) && m.idField in m.fields
    requires IsRun(server, m, ops, defaults, outcomes, tables) && Sound(m, tables[0])
    requires forall d | d in defaults :: RowFits(tables[0].schema, d)
    ensures Sound(m, tables[|ops|])
    ensures forall i | 0 <= i < |ops| ::
              Refines(server, m, ops[i], defaults[i], tables[i], outcomes[i], tables[i + 1])
  {
    for i := 0 to |ops|
      invariant Sound(m, tables[i]) && tables[i].schema == tables[0].schema
      invariant forall j | 0 <= j < i :: Refines(server, m, ops[j], defaults[j], tables[j], outcomes[j], tables[j + 1])
    {
      assert defaults[i] in defaults;
      StepRefines(server, m, ops[i], defaults[i], tables[i], outcomes[i], tables[i + 1]);
    }
  }

  lemma {:induction false} AppendedAt<T>(s: seq<T>, x: T)
    ensures |s + [x]| == |s| + 1 && (s + [x])[|s|] == x && forall i | 0 <= i < |s| :: (s + [x])[i] == s[i]
  {
  }

  lemma {:induction false} RunAppended(
    server: Server, m: EntityMapping, ops: seq<Operation>, defaults: seq<Row>, outcomes: seq<Outcome>, tables: seq<Table>,
    op: Operation, row: Row, outcome: Outcome, after: Table)
    requires IsRun(server, m, ops, defaults, outcomes, tables)
    requires Runs(server, m, op, row, tables[|ops|], outcome, after)
    ensures IsRun(server, m, ops + [op], defaults + [row], outcomes + [outcome], tables + [after])
  {
    AppendedAt(ops, op);
    AppendedAt(defaults, row);
    AppendedAt(outcomes, outcome);
    AppendedAt(tables, after);
    forall i | 0 <= i <= |ops|
      ensures Runs(server, m, (ops + [op])[i], (defaults + [row])[i], (tables + [after])[i], (outcomes + [outcome])[i],
                   (tables + [after])[i + 1])
    {
      if i < |ops| {
        assert Runs(server, m, ops[i], defaults[i], tables[i], outcomes[i], tables[i + 1]);
      }
    }
  }

  /** A run from a sound table can always go on, with any operation. */
  lemma {:induction false} RunsGoOn(
    server: Server, m: EntityMapping, ops: seq<Operation>, defaults: seq<Row>, outcomes: seq<Outcome>, tables: seq<Table>,
    op: Operation, row: Row) returns (outcome: Outcome, after: Table)
    requires Proper(m) && m.idField in m.fields
    requires IsRun(server, m, ops, defaults, outcomes, tables) && Sound(m, tables[0])
    requires forall d | d in defaults :: RowFits(tables[0].schema, d)
    ensures IsRun(server, m, ops + [op], defaults + [row], outcomes + [outcome], tables + [after])
  {
    RunsRefineTheMap(server, m, ops, defaults, outcomes, tables);
    outcome, after := EveryOperationRuns(server, m, op, row, tables[|ops|]);
    RunAppended(server, m, ops, defaults, outcomes, tables, op, row, outcome, after);
  }

  lemma {:induction false} StartOfARun(server: Server, m: EntityMapping, table: Table)
    ensures IsRun(server, m, [], [], [], [table])
  {
  }
}
