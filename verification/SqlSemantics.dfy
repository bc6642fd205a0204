// What an SQL expression yields on a row (PostgreSQL manual, sections 9.1, 9.2 and 9.7.1):
// three-valued logic, comparison by type and collation, LIKE with its escape character.
// `None` is a statement error: an unknown column or placeholder, or operands whose types
// do not match.

module SqlSemantics {
  import opened Results
  import opened Mapping
  import opened Values
  import opened SqlGrammar

  type Row = map<string, Value>

  /** What the server receives for a binding; numeric text travels as text. */
  function BindValue(b: PgBindValue): Value {
    match b
    case Bool(b) => VBool(b)
    case Numeric(text) => VText(text)
    case Text(s) => VText(s)
    case Bytes(bytes) => VBytes(bytes)
    case Uuid(r) => VNative(PgScalarKind.Uuid, r)
    case Json(r) => VNative(PgScalarKind.Json, r)
    case Decimal(r) => VNumeric(r)
    case Date(r) => VNative(PgScalarKind.Date, r)
    case Time(r) => VNative(PgScalarKind.Time, r)
    case Timestamp(r) => VNative(PgScalarKind.Timestamp, r)
    case TimestampTz(r) => VNative(PgScalarKind.TimestampTz, r)
    case I64(i) => VBigint(i)
    case Null(_) => VNull
  }

  function BindValues(bs: seq<PgBindValue>): (vs: seq<Value>)
    ensures |vs| == |bs| && forall i | 0 <= i < |bs| :: vs[i] == BindValue(bs[i])
  {
    seq(|bs|, i requires 0 <= i < |bs| => BindValue(bs[i]))
  }

  // ----- Casts -----

  function TypeKind(ty: string): Option<PgScalarKind> {
    if ty == "numeric" then Some(PgScalarKind.Numeric)
    else if ty == "uuid" then Some(PgScalarKind.Uuid)
    else if ty == "jsonb" then Some(PgScalarKind.Json)
    else if ty == "date" then Some(PgScalarKind.Date)
    else if ty == "time" then Some(PgScalarKind.Time)
    else if ty == "timestamp" then Some(PgScalarKind.Timestamp)
    else if ty == "timestamptz" then Some(PgScalarKind.TimestampTz)
    else None
  }

  function CastTo(server: Server, v: Value, kind: PgScalarKind): Option<Value> {
    match v
    case VNull => Some(VNull)
    case VText(t) =>
      if kind.Numeric? then Some(VNumeric(NumericOf(server, t)))
      else Some(VNative(kind, server.cast(kind, t)))
    case VNumeric(_) => if kind.Numeric? then Some(v) else None
    case VBigint(i) => if kind.Numeric? then Some(VNumeric(i as real)) else None
    case VNative(k, _) => if k == kind then Some(v) else None
    case VBool(_) => None
    case VBytes(_) => None
  }

  function CastValue(server: Server, v: Value, ty: string): Option<Value> {
    match TypeKind(ty)
    case Some(kind) => CastTo(server, v, kind)
    case None => None
  }

  // ----- Comparison -----

  /** Whether an operand carries collation "C" explicitly. */
  predicate CollatedC(e: Expr) {
    e.ECollate? && e.collation == "C"
  }

  predicate SqlLess(server: Server, v: Value, w: Value, collatedC: bool) {
    if v.VText? && w.VText? && !collatedC then server.defaultTextLess(v.s, w.s) else ValueLess(v, w)
  }

  function CompareValues(server: Server, op: CompareOp, v: Value, w: Value, collatedC: bool): Option<Value> {
    if v.VNull? || w.VNull? then Some(VNull)
    else if !SameType(v, w) then None
    else
      match op
      case CEq => Some(VBool(v == w))
      case CNe => Some(VBool(v != w))
      case CLt => Some(VBool(SqlLess(server, v, w, collatedC)))
      case CGt => Some(VBool(SqlLess(server, w, v, collatedC)))
      case CLe => Some(VBool(!SqlLess(server, w, v, collatedC)))
      case CGe => Some(VBool(!SqlLess(server, v, w, collatedC)))
  }

  /** Matches with an escape character, or with none. */
  predicate SqlLike(text: string, pattern: string, escape: Option<char>)
    decreases |pattern|, |text|
  {
    if pattern == "" then text == ""
    else if escape == Some(pattern[0]) then
      |pattern| > 1 && text != "" && text[0] == pattern[1] && SqlLike(text[1..], pattern[2..], escape)
    else if pattern[0] == '%' then
      SqlLike(text, pattern[1..], escape) || (text != "" && SqlLike(text[1..], pattern, escape))
    else text != "" && (pattern[0] == '_' || pattern[0] == text[0]) && SqlLike(text[1..], pattern[1..], escape)
  }

  function LikeValues(v: Value, pattern: Value, escape: Option<char>): Option<Value> {
    if v.VNull? || pattern.VNull? then Some(VNull)
    else if v.VText? && pattern.VText? then Some(VBool(SqlLike(v.s, pattern.s, escape)))
    else None
  }

  /** `ESCAPE ''` switches escaping off; otherwise the escape is one character. */
  function EscapeOf(v: Value): Option<Option<char>> {
    if v.VText? && v.s == "" then Some(None)
    else if v.VText? && |v.s| == 1 then Some(Some(v.s[0]))
    else None
  }

  // ----- Three-valued connectives -----

  predicate Boolean(v: Value) {
    v.VBool? || v.VNull?
  }

  function NotValue(v: Value): Option<Value> {
    if v.VNull? then Some(VNull) else if v.VBool? then Some(VBool(!v.b)) else None
  }

  function AndValues(v: Value, w: Value): Option<Value> {
    if !Boolean(v) || !Boolean(w) then None
    else if v == VBool(false) || w == VBool(false) then Some(VBool(false))
    else if v.VNull? || w.VNull? then Some(VNull)
    else Some(VBool(true))
  }

  function OrValues(v: Value, w: Value): Option<Value> {
    if !Boolean(v) || !Boolean(w) then None
    else if v == VBool(true) || w == VBool(true) then Some(VBool(true))
    else if v.VNull? || w.VNull? then Some(VNull)
    else Some(VBool(false))
  }

  /** `v IN (ws)`: some element equal, unknown when none is but one comparison is unknown. */
  function InValues(server: Server, v: Value, ws: seq<Value>): Option<Value> {
    if ws == [] then Some(VBool(false))
    else
      match CompareValues(server, CEq, v, ws[0], true)
      case None => None
      case Some(first) =>
        match InValues(server, v, ws[1..])
        case None => None
        case Some(rest) => OrValues(first, rest)
  }

  // ----- Expressions -----

  function Eval(server: Server, e: Expr, row: Row, binds: seq<Value>): Option<Value>
    decreases e
  {
    match e
    case EColumn(name) => if name in row then Some(row[name]) else None
    case EParam(i) => if 0 < i <= |binds| then Some(binds[i - 1]) else None
    case EString(text) => Some(VText(text))
    case EBool(b) => Some(VBool(b))
    case ENull => Some(VNull)
    case ECast(x, ty) =>
      (match Eval(server, x, row, binds)
       case None => None
       case Some(v) => CastValue(server, v, ty))
    case ECollate(x, collation) =>
      (match Eval(server, x, row, binds)
       case None => None
       case Some(v) => if v.VText? || v.VNull? then Some(v) else None)
    case EIn(x, negated, items) =>
      (match (Eval(server, x, row, binds), EvalItems(server, items, row, binds))
       case (Some(v), Some(ws)) =>
         (match InValues(server, v, ws)
          case None => None
          case Some(r) => if negated then NotValue(r) else Some(r))
       case (_, _) => None)
    case ELike(x, pattern) =>
      (match (Eval(server, x, row, binds), Eval(server, pattern, row, binds))
       case (Some(v), Some(p)) => LikeValues(v, p, Some('\\'))
       case (_, _) => None)
    case ELikeEscape(x, pattern, escape) =>
      (match (Eval(server, x, row, binds), Eval(server, pattern, row, binds), Eval(server, escape, row, binds))
       case (Some(v), Some(p), Some(c)) =>
         (match EscapeOf(c)
          case None => None
          case Some(character) => LikeValues(v, p, character))
       case (_, _, _) => None)
    case ECompare(op, left, right) =>
      (match (Eval(server, left, row, binds), Eval(server, right, row, binds))
       case (Some(v), Some(w)) => CompareValues(server, op, v, w, CollatedC(left) || CollatedC(right))
       case (_, _) => None)
    case EIsNull(x, negated) =>
      (match Eval(server, x, row, binds)
       case None => None
       case Some(v) => Some(VBool(v.VNull? != negated)))
    case ENot(x) =>
      (match Eval(server, x, row, binds)
       case None => None
       case Some(v) => NotValue(v))
    case EAnd(left, right) =>
      (match (Eval(server, left, row, binds), Eval(server, right, row, binds))
       case (Some(v), Some(w)) => AndValues(v, w)
       case (_, _) => None)
    case EOr(left, right) =>
      (match (Eval(server, left, row, binds), Eval(server, right, row, binds))
       case (Some(v), Some(w)) => OrValues(v, w)
       case (_, _) => None)
  }

  function EvalItems(server: Server, items: seq<Expr>, row: Row, binds: seq<Value>): Option<seq<Value>>
    decreases items
  {
    if items == [] then Some([])
    else
      match (Eval(server, items[0], row, binds), EvalItems(server, items[1..], row, binds))
      case (Some(v), Some(vs)) => Some([v] + vs)
      case (_, _) => None
  }

  /** What a WHERE clause does with a row: unknown rejects it as false does. */
  datatype Verdict = Accepts | Rejects | Errs

  function Judge(server: Server, e: Expr, row: Row, binds: seq<Value>): Verdict {
    match Eval(server, e, row, binds)
    case None => Errs
    case Some(v) => if v == VBool(true) then Accepts else if Boolean(v) then Rejects else Errs
  }

  function AcceptsIf(holds: bool): Verdict {
    if holds then Accepts else Rejects
  }
}
