// The statements the repository sends: their grammar, and what the server does with them
// on one table (PostgreSQL manual, sections 7.5 and 7.6 and the INSERT, UPDATE, DELETE and
// SELECT reference pages).

module SqlStatements {
  import opened Results
  import opened Mapping
  import opened Values
  import opened SqlLexer
  import opened SqlGrammar
  import opened SqlSemantics

  datatype TableName = TableName(schema: Option<string>, name: string)

  datatype SortKey = SortKey(e: Expr, ascending: bool, nullsFirst: bool)

  /** What a column is given: the column's default, or an expression. */
  datatype Source = SDefault | SExpr(e: Expr)

  datatype Statement =
    | Select(columns: seq<string>, table: TableName, filter: Option<Expr>,
             order: seq<SortKey>, limit: Option<Expr>, offset: Option<Expr>)
    | SelectCount(table: TableName, filter: Option<Expr>)
    | Insert(table: TableName, columns: seq<string>, values: seq<Source>, returning: seq<string>)
    | Update(table: TableName, columns: seq<string>, values: seq<Source>, filter: Option<Expr>, returning: seq<string>)
    | Delete(table: TableName, filter: Option<Expr>)

  // ----- Grammar -----

  /** A comma-separated list of quoted names. */
  function ParseNames(ts: seq<Token>): (r: Parsed<seq<string>>)
    ensures r.Done? ==> |r.rest| < |ts|
    decreases |ts|
  {
    if ts == [] || !ts[0].TQuoted? then Fail
    else if Starts(ts[1..], TSym(',')) then
      match ParseNames(ts[2..])
      case Fail => Fail
      case Done(names, rest) => Done([ts[0].name] + names, rest)
    else Done([ts[0].name], ts[1..])
  }

  function ParseTable(ts: seq<Token>): (r: Parsed<TableName>)
    ensures r.Done? ==> |r.rest| < |ts|
  {
    if ts == [] || !ts[0].TQuoted? then Fail
    else if Starts(ts[1..], TSym('.')) then
      if |ts| > 2 && ts[2].TQuoted? then Done(TableName(Some(ts[0].name), ts[2].name), ts[3..]) else Fail
    else Done(TableName(None, ts[0].name), ts[1..])
  }

  function ParseSource(ts: seq<Token>): (r: Parsed<Source>)
    ensures r.Done? ==> |r.rest| < |ts|
  {
    if Starts(ts, TWord("DEFAULT")) then Done(SDefault, ts[1..])
    else
      match ParseExpr(ts)
      case Fail => Fail
      case Done(e, rest) => Done(SExpr(e), rest)
  }

  function ParseSources(ts: seq<Token>): (r: Parsed<seq<Source>>)
    ensures r.Done? ==> |r.rest| < |ts|
    decreases |ts|
  {
    match ParseSource(ts)
    case Fail => Fail
    case Done(v, rest) =>
      if Starts(rest, TSym(',')) then
        match ParseSources(rest[1..])
        case Fail => Fail
        case Done(vs, rest1) => Done([v] + vs, rest1)
      else Done([v], rest)
  }

  /** `"column" = source, ...` */
  function ParseAssignments(ts: seq<Token>): (r: Parsed<(seq<string>, seq<Source>)>)
    ensures r.Done? ==> |r.rest| < |ts|
    decreases |ts|
  {
    if ts == [] || !ts[0].TQuoted? || !Starts(ts[1..], TOp("=")) then Fail
    else
      match ParseSource(ts[2..])
      case Fail => Fail
      case Done(v, rest) =>
        if Starts(rest, TSym(',')) then
          match ParseAssignments(rest[1..])
          case Fail => Fail
          case Done(more, rest1) => Done(([ts[0].name] + more.0, [v] + more.1), rest1)
        else Done(([ts[0].name], [v]), rest)
  }

  /** An expression after a key word, when the key word is there. */
  function ParseClause(word: string, ts: seq<Token>): (r: Parsed<Option<Expr>>)
    ensures r.Done? ==> |r.rest| <= |ts|
  {
    if !Starts(ts, TWord(word)) then Done(None, ts)
    else
      match ParseExpr(ts[1..])
      case Fail => Fail
      case Done(e, rest) => Done(Some(e), rest)
  }

  /** One ordering: expression, direction and the place of nulls, all explicit. */
  function ParseSortKey(ts: seq<Token>): (r: Parsed<SortKey>)
    ensures r.Done? ==> |r.rest| < |ts|
  {
    match ParseExpr(ts)
    case Fail => Fail
    case Done(e, rest) =>
      if |rest| >= 3 && (rest[0] == TWord("ASC") || rest[0] == TWord("DESC")) && rest[1] == TWord("NULLS")
         && (rest[2] == TWord("FIRST") || rest[2] == TWord("LAST"))
      then Done(SortKey(e, rest[0] == TWord("ASC"), rest[2] == TWord("FIRST")), rest[3..])
      else Fail
  }

  function ParseSortKeys(ts: seq<Token>): (r: Parsed<seq<SortKey>>)
    ensures r.Done? ==> |r.rest| < |ts|
    decreases |ts|
  {
    match ParseSortKey(ts)
    case Fail => Fail
    case Done(key, rest) =>
      if Starts(rest, TSym(',')) then
        match ParseSortKeys(rest[1..])
        case Fail => Fail
        case Done(keys, rest1) => Done([key] + keys, rest1)
      else Done([key], rest)
  }

  function ParseOrder(ts: seq<Token>): Parsed<seq<SortKey>> {
    if !Starts(ts, TWord("ORDER")) then Done([], ts)
    else if Starts(ts[1..], TWord("BY")) then ParseSortKeys(ts[2..])
    else Fail
  }

  /** Everything after the table of a SELECT. */
  function ParseSelectTail(columns: seq<string>, table: TableName, ts: seq<Token>): Option<Statement> {
    match ParseClause("WHERE", ts)
    case Fail => None
    case Done(filter, rest1) =>
      match ParseOrder(rest1)
      case Fail => None
      case Done(order, rest2) =>
        match ParseClause("LIMIT", rest2)
        case Fail => None
        case Done(limit, rest3) =>
          match ParseClause("OFFSET", rest3)
          case Fail => None
          case Done(offset, rest4) =>
            if rest4 == [] then Some(Select(columns, table, filter, order, limit, offset)) else None
  }

  function ParseSelect(ts: seq<Token>): Option<Statement> {
    match ParseNames(ts)
    case Fail => None
    case Done(columns, rest) =>
      if !Starts(rest, TWord("FROM")) then None
      else
        match ParseTable(rest[1..])
        case Fail => None
        case Done(table, rest1) => ParseSelectTail(columns, table, rest1)
  }

  function ParseCount(ts: seq<Token>): Option<Statement> {
    match ParseTable(ts)
    case Fail => None
    case Done(table, rest) =>
      match ParseClause("WHERE", rest)
      case Fail => None
      case Done(filter, rest1) => if rest1 == [] then Some(SelectCount(table, filter)) else None
  }

  const COUNT_HEAD: seq<Token> :=
    [TWord("COUNT"), TSym('('), TOp("*"), TSym(')'), TWord("AS"), TWord("count"), TWord("FROM")]

  /** `RETURNING names`, or nothing, at the end of a write. */
  function ParseReturning(ts: seq<Token>): Option<seq<string>> {
    if ts == [] then Some([])
    else if ts[0] != TWord("RETURNING") then None
    else
      match ParseNames(ts[1..])
      case Fail => None
      case Done(names, rest) => if rest == [] then Some(names) else None
  }

  function ParseInsert(ts: seq<Token>): Option<Statement> {
    match ParseTable(ts)
    case Fail => None
    case Done(table, rest) =>
      if Starts(rest, TWord("DEFAULT")) && Starts(rest[1..], TWord("VALUES")) then
        match ParseReturning(rest[2..])
        case None => None
        case Some(returning) => Some(Insert(table, [], [], returning))
      else if Starts(rest, TSym('(')) then
        match ParseNames(rest[1..])
        case Fail => None
        case Done(columns, rest1) =>
          if |rest1| >= 3 && rest1[0] == TSym(')') && rest1[1] == TWord("VALUES") && rest1[2] == TSym('(') then
            match ParseSources(rest1[3..])
            case Fail => None
            case Done(values, rest2) =>
              if !Starts(rest2, TSym(')')) then None
              else
                match ParseReturning(rest2[1..])
                case None => None
                case Some(returning) => Some(Insert(table, columns, values, returning))
          else None
      else None
  }

  function ParseUpdate(ts: seq<Token>): Option<Statement> {
    match ParseTable(ts)
    case Fail => None
    case Done(table, rest) =>
      if !Starts(rest, TWord("SET")) then None
      else
        match ParseAssignments(rest[1..])
        case Fail => None
        case Done(sets, rest1) =>
          match ParseClause("WHERE", rest1)
          case Fail => None
          case Done(filter, rest2) =>
            match ParseReturning(rest2)
            case None => None
            case Some(returning) => Some(Update(table, sets.0, sets.1, filter, returning))
  }

  function ParseDelete(ts: seq<Token>): Option<Statement> {
    match ParseTable(ts)
    case Fail => None
    case Done(table, rest) =>
      match ParseClause("WHERE", rest)
      case Fail => None
      case Done(filter, rest1) => if rest1 == [] then Some(Delete(table, filter)) else None
  }

  function ParseStatement(ts: seq<Token>): Option<Statement> {
    if Starts(ts, TWord("SELECT")) then
      if COUNT_HEAD <= ts[1..] then ParseCount(ts[1 + |COUNT_HEAD|..]) else ParseSelect(ts[1..])
    else if Starts(ts, TWord("INSERT")) && Starts(ts[1..], TWord("INTO")) then ParseInsert(ts[2..])
    else if Starts(ts, TWord("UPDATE")) then ParseUpdate(ts[1..])
    else if Starts(ts, TWord("DELETE")) && Starts(ts[1..], TWord("FROM")) then ParseDelete(ts[2..])
    else None
  }

  // ----- Tables -----

  type Schema = map<string, PgScalarKind>

  datatype Table = Table(name: TableName, schema: Schema, key: string, rows: seq<Row>)

  predicate RowFits(schema: Schema, row: Row) {
    row.Keys == schema.Keys && forall c | c in schema :: HasKind(row[c], schema[c])
  }

  // ----- Reading -----

  /** The rows a filter keeps, in stored order. */
  function Kept(server: Server, filter: Option<Expr>, binds: seq<Value>, rows: seq<Row>): seq<Row> {
    if rows == [] then []
    else if filter.None? || Judge(server, filter.value, rows[0], binds).Accepts? then
      [rows[0]] + Kept(server, filter, binds, rows[1..])
    else Kept(server, filter, binds, rows[1..])
  }

  /** No row makes the filter fail. */
  predicate FilterSound(server: Server, filter: Option<Expr>, binds: seq<Value>, rows: seq<Row>) {
    filter.Some? ==> forall r | r in rows :: !Judge(server, filter.value, r, binds).Errs?
  }

  /** -1, 0 or 1 as the first value sorts before, with or after the second. */
  function CompareKeys(server: Server, key: SortKey, v: Value, w: Value): int {
    if v.VNull? && w.VNull? then 0
    else if v.VNull? then (if key.nullsFirst then -1 else 1)
    else if w.VNull? then (if key.nullsFirst then 1 else -1)
    else if SqlLess(server, v, w, CollatedC(key.e)) then (if key.ascending then -1 else 1)
    else if SqlLess(server, w, v, CollatedC(key.e)) then (if key.ascending then 1 else -1)
    else 0
  }

  /** Lexicographic comparison of two rows; `None` when a key does not evaluate. */
  function CompareRows(server: Server, order: seq<SortKey>, a: Row, b: Row, binds: seq<Value>): Option<int> {
    if order == [] then Some(0)
    else
      match (Eval(server, order[0].e, a, binds), Eval(server, order[0].e, b, binds))
      case (Some(v), Some(w)) =>
        var c := CompareKeys(server, order[0], v, w);
        if c != 0 then Some(c) else CompareRows(server, order[1..], a, b, binds)
      case (_, _) => None
  }

  ghost predicate OrderedBy(server: Server, order: seq<SortKey>, rows: seq<Row>, binds: seq<Value>) {
    forall i, j | 0 <= i < j < |rows| ::
      var c := CompareRows(server, order, rows[i], rows[j], binds);
      c.Some? && c.value <= 0
  }

  /** A row count given to LIMIT or OFFSET. */
  function Amount(server: Server, e: Option<Expr>, binds: seq<Value>): Option<Option<nat>> {
    match e
    case None => Some(None)
    case Some(x) =>
      match Eval(server, x, map[], binds)
      case None => None
      case Some(v) => if v.VBigint? && v.i >= 0 then Some(Some(v.i)) else None
  }

  function Page(rows: seq<Row>, limit: Option<nat>, offset: nat): seq<Row> {
    var rest := if offset <= |rows| then rows[offset..] else [];
    if limit.Some? && limit.value < |rest| then rest[..limit.value] else rest
  }

  function Project(row: Row, columns: seq<string>): Row {
    map c | c in columns && c in row :: row[c]
  }

  function ProjectAll(rows: seq<Row>, columns: seq<string>): (r: seq<Row>)
    ensures |r| == |rows| && forall i | 0 <= i < |rows| :: r[i] == Project(rows[i], columns)
  {
    seq(|rows|, i requires 0 <= i < |rows| => Project(rows[i], columns))
  }

  /**
   * The answers a SELECT may give: the server is free in how it orders rows its ORDER BY
   * leaves tied, so several answers may be allowed.
   */
  ghost predicate SelectAnswers(server: Server, s: Statement, binds: seq<Value>, table: Table, answer: seq<Row>)
    requires s.Select?
  {
    && s.table == table.name
    && (forall c | c in s.columns :: c in table.schema)
    && FilterSound(server, s.filter, binds, table.rows)
    && Amount(server, s.limit, binds).Some?
    && Amount(server, s.offset, binds).Some?
    && exists sorted: seq<Row> ::
         && multiset(sorted) == multiset(Kept(server, s.filter, binds, table.rows))
         && OrderedBy(server, s.order, sorted, binds)
         && answer == ProjectAll(
              Page(sorted, Amount(server, s.limit, binds).value,
                   var o := Amount(server, s.offset, binds).value; if o.Some? then o.value else 0),
              s.columns)
  }

  /** Whether the server may answer a query text with these rows. */
  ghost predicate Answers(server: Server, sql: string, binds: seq<Value>, table: Table, answer: seq<Row>) {
    match ParseStatement(Lex(sql))
    case None => false
    case Some(s) => s.Select? && SelectAnswers(server, s, binds, table, answer)
  }

  /** The number a counting query yields; `None` when it fails. */
  function CountAnswer(server: Server, sql: string, binds: seq<Value>, table: Table): Option<nat> {
    match ParseStatement(Lex(sql))
    case None => None
    case Some(s) =>
      if s.SelectCount? && s.table == table.name && FilterSound(server, s.filter, binds, table.rows) then
        Some(|Kept(server, s.filter, binds, table.rows)|)
      else None
  }

  // ----- Writing -----

  /** The value a source puts into a column of this kind; DEFAULT is what the server supplies. */
  function SourceValue(server: Server, kind: PgScalarKind, source: Source, default: Value, binds: seq<Value>): Option<Value> {
    match source
    case SDefault => Some(default)
    case SExpr(e) =>
      match Eval(server, e, map[], binds)
      case None => None
      case Some(v) => if HasKind(v, kind) then Some(v) else None
  }

  /** `base` with the j-th column set from the j-th source. */
  function Assign(
    server: Server, schema: Schema, base: Row, columns: seq<string>, sources: seq<Source>, defaults: Row,
    binds: seq<Value>): Option<Row>
    requires |columns| == |sources|
    decreases |columns|
  {
    if columns == [] then Some(base)
    else if columns[0] !in schema || columns[0] !in defaults || columns[0] in columns[1..] then None
    else
      match SourceValue(server, schema[columns[0]], sources[0], defaults[columns[0]], binds)
      case None => None
      case Some(v) => Assign(server, schema, base[columns[0] := v], columns[1..], sources[1..], defaults, binds)
  }

  datatype WriteOutcome =
    | Refused(kind: ErrorKind)
    | Applied(rows: seq<Row>, affected: nat, returned: seq<Row>)

  predicate HasKey(key: string, v: Value, rows: seq<Row>) {
    exists r | r in rows :: key in r && r[key] == v
  }

  function ExecuteInsert(server: Server, s: Statement, binds: seq<Value>, defaults: Row, table: Table): WriteOutcome
    requires s.Insert?
  {
    if |s.columns| != |s.values| then Refused(Infrastructure)
    else
      match Assign(server, table.schema, defaults, s.columns, s.values, defaults, binds)
      case None => Refused(Infrastructure)
      case Some(row) =>
        if table.key !in row || row[table.key].VNull? then Refused(Infrastructure)
        else if HasKey(table.key, row[table.key], table.rows) then Refused(Conflict)
        else Applied(table.rows + [row], 1, [Project(row, s.returning)])
  }

  /** Each row the filter keeps is replaced by its updated self; the others stay. */
  function UpdateRows(
    server: Server, s: Statement, binds: seq<Value>, defaults: Row, schema: Schema, rows: seq<Row>)
    : Option<(seq<Row>, seq<Row>)>
    requires s.Update? && |s.columns| == |s.values|
    decreases |rows|
  {
    if rows == [] then Some(([], []))
    else
      match UpdateRows(server, s, binds, defaults, schema, rows[1..])
      case None => None
      case Some((rest, updated)) =>
        if s.filter.Some? && !Judge(server, s.filter.value, rows[0], binds).Accepts? then
          Some(([rows[0]] + rest, updated))
        else
          match Assign(server, schema, rows[0], s.columns, s.values, defaults, binds)
          case None => None
          case Some(row) => Some(([row] + rest, [row] + updated))
  }

  function ExecuteUpdate(server: Server, s: Statement, binds: seq<Value>, defaults: Row, table: Table): WriteOutcome
    requires s.Update?
  {
    if |s.columns| != |s.values| || table.key in s.columns || !FilterSound(server, s.filter, binds, table.rows) then
      Refused(Infrastructure)
    else
      match UpdateRows(server, s, binds, defaults, table.schema, table.rows)
      case None => Refused(Infrastructure)
      case Some((rows, updated)) => Applied(rows, |updated|, ProjectAll(updated, s.returning))
  }

  /** The rows a filter does not keep. */
  function Dropped(server: Server, filter: Option<Expr>, binds: seq<Value>, rows: seq<Row>): seq<Row> {
    if rows == [] then []
    else if filter.None? || Judge(server, filter.value, rows[0], binds).Accepts? then
      Dropped(server, filter, binds, rows[1..])
    else [rows[0]] + Dropped(server, filter, binds, rows[1..])
  }

  function ExecuteDelete(server: Server, s: Statement, binds: seq<Value>, table: Table): WriteOutcome
    requires s.Delete?
  {
    if !FilterSound(server, s.filter, binds, table.rows) then Refused(Infrastructure)
    else Applied(Dropped(server, s.filter, binds, table.rows), |Kept(server, s.filter, binds, table.rows)|, [])
  }

  /** What a write statement's text does to a table under these bindings. */
  function ExecuteWrite(server: Server, sql: string, binds: seq<Value>, defaults: Row, table: Table): WriteOutcome {
    match ParseStatement(Lex(sql))
    case None => Refused(Infrastructure)
    case Some(s) =>
      if s.table != table.name then Refused(Infrastructure)
      else if s.Insert? then ExecuteInsert(server, s, binds, defaults, table)
      else if s.Update? then ExecuteUpdate(server, s, binds, defaults, table)
      else if s.Delete? then ExecuteDelete(server, s, binds, table)
      else Refused(Infrastructure)
  }
}
