// One repository operation on a table: the statement is compiled, sent as text with its
// bindings, and its result read as src/postgres/repository.rs reads it.

module RepositoryRuns {
  import opened Results
  import opened Values
  import opened Compiler
  import opened Entity
  import opened Repository
  import opened SqlSemantics
  import opened SqlStatements
  import opened Stores

  /** A write statement's own effect, or the reason it was never sent. */
  function Sent(
    server: Server, compiled: Result<PgCompiledQuery>, defaults: Row, table: Table): WriteOutcome
  {
    match compiled
    case Err(kind) => Refused(kind)
    case Ok(q) => ExecuteWrite(server, q.sql, BindValues(q.bindings), defaults, table)
  }

  function AfterWrite(table: Table, w: WriteOutcome): Table {
    match w
    case Refused(_) => table
    case Applied(rows, _, _) => table.(rows := rows)
  }

  /** `insert` ignores the row count; `insert_returning` needs exactly a row. */
  function InsertOutcome(w: WriteOutcome, returning: bool): Outcome {
    match w
    case Refused(kind) => Failed(kind)
    case Applied(_, _, returned) =>
      if !returning then Outcome.Stored
      else if returned == [] then Failed(NotFound) else Returned(returned[0])
  }

  /** No affected row, or no returned one, means the identity was not found. */
  function ReplaceOutcome(w: WriteOutcome, returning: bool): Outcome {
    match w
    case Refused(kind) => Failed(kind)
    case Applied(_, affected, returned) =>
      if returning then (if returned == [] then Failed(NotFound) else Returned(returned[0]))
      else if affected == 0 then Failed(NotFound) else Outcome.Stored
  }

  function RemoveOutcome(w: WriteOutcome): Outcome {
    match w
    case Refused(kind) => Failed(kind)
    case Applied(_, affected, _) => Removed(affected > 0)
  }

  /** `fetch_optional` takes the first row, if any. */
  function GetOutcome(answer: seq<Row>): Outcome {
    Got(if answer == [] then None else Some(answer[0]))
  }

  /** A query compiled and answered so, or refused before it was sent. */
  ghost predicate Reads(
    server: Server, compiled: Result<PgCompiledQuery>, table: Table, answer: seq<Row>)
  {
    compiled.Ok? && Answers(server, compiled.value.sql, BindValues(compiled.value.bindings), table, answer)
  }

  ghost predicate Unanswered(server: Server, compiled: Result<PgCompiledQuery>, table: Table, kind: ErrorKind) {
    match compiled
    case Err(k) => kind == k
    case Ok(_) => kind == Infrastructure && forall answer :: !Reads(server, compiled, table, answer)
  }

  /** What one operation may do to the table. */
  ghost predicate Runs(
    server: Server, m: EntityMapping, op: Operation, defaults: Row, table: Table, outcome: Outcome, after: Table)
  {
    match op
    case Insert(e, returning) =>
      var w := Sent(server, InsertStatement(m, e, returning), defaults, table);
      outcome == InsertOutcome(w, returning) && after == AfterWrite(table, w)
    case Replace(e, returning) =>
      var w := Sent(server, ReplaceStatement(m, e, returning), defaults, table);
      outcome == ReplaceOutcome(w, returning) && after == AfterWrite(table, w)
    case Remove(id) =>
      var w := Sent(server, RemoveStatement(m, id), defaults, table);
      outcome == RemoveOutcome(w) && after == AfterWrite(table, w)
    case Get(id) =>
      && after == table
      && ((outcome.Failed? && Unanswered(server, GetStatement(m, id), table, outcome.kind))
          || exists answer :: Reads(server, GetStatement(m, id), table, answer) && outcome == GetOutcome(answer))
    case Find(params) =>
      && after == table
      && ((outcome.Failed? && Unanswered(server, FindStatement(m, params), table, outcome.kind))
          || (outcome.Found? && Reads(server, FindStatement(m, params), table, outcome.rows)))
    case Count(params) =>
      && after == table
      && match CountStatement(m, params)
         case Err(kind) => outcome == Failed(kind)
         case Ok(q) =>
           match CountAnswer(server, q.sql, BindValues(q.bindings), table)
           case None => outcome == Failed(Infrastructure)
           case Some(n) => outcome == Counted(n)
  }
}
