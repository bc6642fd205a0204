// The repository as its callers may think of it: a map from identity to row, and what each
// operation does to that map.

module Stores {
  import opened Results
  import opened Mapping
  import opened Values
  import opened Conditions
  import opened Entity
  import opened Repository
  import opened SqlSemantics
  import opened SqlStatements
  import opened MeaningProofs
  import opened StatementProofs
  import opened ConditionTheorems
  import opened Queries
  import opened FindTheorems

  // ----- Stored values -----

  predicate FitsStored(kind: PgScalarKind, value: PgValue) {
    match value
    case Null => true
    case Default => false
    case Bool(_) => kind.Bool?
    case I64(_) => kind.Numeric?
    case U64(_) => kind.Numeric?
    case F64(f) => kind.Numeric? && f.Finite?
    case Text(_) => kind.Text?
    case Bytes(_) => kind.Bytes?
    case Uuid(_) => kind.Uuid?
    case Json(_) => kind.Json?
    case Decimal(_) => kind.Numeric?
    case Date(_) => kind.Date?
    case Time(_) => kind.Time?
    case Timestamp(_) => kind.Timestamp?
    case TimestampTz(_) => kind.TimestampTz?
  }

  /** What a column holds once the value has been written to it. */
  function StoredValue(server: Server, value: PgValue): Value {
    match value
    case Null => VNull
    case Default => VNull
    case Bool(b) => VBool(b)
    case I64(i) => VNumeric(i as real)
    case U64(u) => VNumeric(u as real)
    case F64(f) => if f.Finite? then VNumeric(NumericOf(server, f.text)) else VNull
    case Text(s) => VText(s)
    case Bytes(bytes) => VBytes(bytes)
    case Uuid(r) => VNative(PgScalarKind.Uuid, r)
    case Json(r) => VNative(PgScalarKind.Json, r)
    case Decimal(r) => VNumeric(r)
    case Date(r) => VNative(PgScalarKind.Date, r)
    case Time(r) => VNative(PgScalarKind.Time, r)
    case Timestamp(r) => VNative(PgScalarKind.Timestamp, r)
    case TimestampTz(r) => VNative(PgScalarKind.TimestampTz, r)
  }

  /** Why an entity cannot be written to these fields: the first field the codec or its column refuses. */
  function Refusal(m: EntityMapping, e: Encoded, fs: seq<FieldName>): Option<ErrorKind>
    requires forall f | f in fs :: f in m.fields
  {
    if fs == [] then None
    else
      match EntityValue(m, e, fs[0])
      case Err(kind) => Some(kind)
      case Ok(value) =>
        if value.Default? || FitsStored(m.fields[fs[0]].kind, value) then Refusal(m, e, fs[1..]) else Some(Validation)
  }

  /** Why a value cannot identify a row. */
  function IdRefusal(m: EntityMapping, id: Result<PgValue>): Option<ErrorKind>
    requires m.idField in m.fields
  {
    match id
    case Err(kind) => Some(kind)
    case Ok(value) =>
      if value.Null? || value.Default? || !FitsStored(m.fields[m.idField].kind, value) then Some(Validation) else None
  }

  function FieldValue(server: Server, m: EntityMapping, e: Encoded, field: FieldName, defaults: Row): Value
    requires field in m.fields && EntityValue(m, e, field).Ok? && m.fields[field].identifier in defaults
  {
    var value := EntityValue(m, e, field).value;
    if value.Default? then defaults[m.fields[field].identifier] else StoredValue(server, value)
  }

  /** `row` is `base` with each of these fields' columns holding its own value, and nothing else changed. */
  ghost predicate Written(
    server: Server, m: EntityMapping, e: Encoded, fs: seq<FieldName>, base: Row, defaults: Row, row: Row)
    requires Writable(m, e, fs) && forall f | f in fs :: m.fields[f].identifier in defaults
  {
    && row.Keys == base.Keys
    && (forall f | f in fs ::
          m.fields[f].identifier in row && row[m.fields[f].identifier] == FieldValue(server, m, e, f, defaults))
    && forall c | c in base && (forall f | f in fs :: m.fields[f].identifier != c) :: row[c] == base[c]
  }

  // ----- Operations -----

  type Store = map<Value, Row>

  datatype Operation =
    | Insert(e: Encoded, returning: bool)
    | Replace(e: Encoded, returning: bool)
    | Remove(id: Result<PgValue>)
    | Get(id: Result<PgValue>)
    | Find(params: FindParams)
    | Count(params: FindParams)

  datatype Outcome =
    | Failed(kind: ErrorKind)
    | Stored
    | Returned(row: Row)
    | Removed(existed: bool)
    | Got(found: Option<Row>)
    | Found(rows: seq<Row>)
    | Counted(n: nat)

  function IdColumn(m: EntityMapping): string
    requires m.idField in m.fields
  {
    m.fields[m.idField].identifier
  }

  /** The row as a caller gets it back. */
  function Seen(m: EntityMapping, row: Row): Row {
    Project(row, SelectedNames(m))
  }

  function Acknowledged(m: EntityMapping, returning: bool, row: Row): Outcome {
    if returning then Returned(Seen(m, row)) else Outcome.Stored
  }

  ghost predicate StoreTyped(m: EntityMapping, store: Store) {
    forall k | k in store :: TypedRow(m.fields, store[k])
  }

  /** Some list of the store's rows, each once. */
  ghost predicate Lists(rows: seq<Row>, store: Store) {
    && (forall i, j | 0 <= i < j < |rows| :: rows[i] != rows[j])
    && (forall r | r in rows :: exists k | k in store :: store[k] == r)
    && forall k | k in store :: store[k] in rows
  }

  ghost predicate Inserts(
    server: Server, m: EntityMapping, e: Encoded, returning: bool, defaults: Row, store: Store, outcome: Outcome, after: Store)
    requires m.idField in m.fields
  {
    var fs := FieldsWith(m, Inserting);
    match Refusal(m, e, fs)
    case Some(kind) => outcome == Failed(kind) && after == store
    case None =>
      && Writable(m, e, fs) && (forall f | f in fs :: m.fields[f].identifier in defaults)
      && exists row: Row ::
           && Written(server, m, e, fs, defaults, defaults, row)
           && IdColumn(m) in row
           && var id := row[IdColumn(m)];
              if id.VNull? then outcome == Failed(Infrastructure) && after == store
              else if id in store then outcome == Failed(Conflict) && after == store
              else outcome == Acknowledged(m, returning, row) && after == store[id := row]
  }

  ghost predicate Replaces(
    server: Server, m: EntityMapping, e: Encoded, returning: bool, defaults: Row, store: Store, outcome: Outcome, after: Store)
    requires m.idField in m.fields
  {
    var fs := ReplacedFields(m);
    if fs == [] then outcome == Failed(Unsupported) && after == store
    else if Refusal(m, e, fs).Some? then outcome == Failed(Refusal(m, e, fs).value) && after == store
    else if IdRefusal(m, e.id).Some? then outcome == Failed(IdRefusal(m, e.id).value) && after == store
    else
      var id := StoredValue(server, e.id.value);
      if id !in store then outcome == Failed(NotFound) && after == store
      else
        && Writable(m, e, fs) && (forall f | f in fs :: m.fields[f].identifier in defaults)
        && exists row: Row ::
             && Written(server, m, e, fs, store[id], defaults, row)
             && outcome == Acknowledged(m, returning, row)
             && after == store[id := row]
  }

  /** What an operation may do to the store, and what it tells its caller. */
  ghost predicate Does(
    server: Server, m: EntityMapping, op: Operation, defaults: Row, store: Store, outcome: Outcome, after: Store)
    requires m.idField in m.fields && StoreTyped(m, store)
  {
    match op
    case Insert(e, returning) => Inserts(server, m, e, returning, defaults, store, outcome, after)
    case Replace(e, returning) => Replaces(server, m, e, returning, defaults, store, outcome, after)
    case Remove(id) =>
      if IdRefusal(m, id).Some? then outcome == Failed(IdRefusal(m, id).value) && after == store
      else
        var key := StoredValue(server, id.value);
        outcome == Removed(key in store) && after == store - {key}
    case Get(id) =>
      && after == store
      && if IdRefusal(m, id).Some? then outcome == Failed(IdRefusal(m, id).value)
         else
           var key := StoredValue(server, id.value);
           outcome == Got(if key in store then Some(Seen(m, store[key])) else None)
    case Find(params) =>
      && after == store
      && if ValidParams(params) && (params.condition.Some? ==> Compilable(m.fields, params.condition.value))
            && SortMapped(m.fields, params.sort)
            && (params.limit.Some? ==> params.limit.value <= MAX_BIGINT) && params.offset <= MAX_BIGINT
         then
           && outcome.Found?
           && exists rows :: Lists(rows, store) && TypedRows(m.fields, rows)
                             && FindAnswer(server, m, params, rows, outcome.rows)
         else outcome == Failed(Validation)
    case Count(params) =>
      && after == store
      && if ValidParams(params) && (params.condition.Some? ==> Compilable(m.fields, params.condition.value))
         then outcome == Counted(|set k | k in store && Matches(server, m.fields, params.condition, store[k])|)
         else outcome == Failed(Validation)
  }
}
