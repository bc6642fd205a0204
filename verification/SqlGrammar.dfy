// The expression grammar of SQL as far as it concerns conditions, with the precedence of
// section 4.1.6 of the PostgreSQL manual. From tightest to loosest:
//   ::   COLLATE   IN LIKE   < > = <= >= <>   IS   NOT   AND   OR

module SqlGrammar {
  import opened SqlLexer

  datatype CompareOp = CEq | CNe | CLt | CGt | CLe | CGe

  datatype Expr =
    | EColumn(name: string)
    | EParam(index: nat)
    | EString(text: string)
    | EBool(b: bool)
    | ENull
    | ECast(e: Expr, ty: string)
    | ECollate(e: Expr, collation: string)
    | EIn(e: Expr, negated: bool, items: seq<Expr>)
    | ELike(e: Expr, pattern: Expr)
    | ELikeEscape(e: Expr, pattern: Expr, escape: Expr)
    | ECompare(op: CompareOp, left: Expr, right: Expr)
    | EIsNull(e: Expr, negated: bool)
    | ENot(e: Expr)
    | EAnd(left: Expr, right: Expr)
    | EOr(left: Expr, right: Expr)

  /** A parsed phrase and the tokens after it. */
  datatype Parsed<+T> = Fail | Done(value: T, rest: seq<Token>)

  predicate Starts(ts: seq<Token>, t: Token) {
    ts != [] && ts[0] == t
  }

  function ComparisonOp(ts: seq<Token>): Parsed<CompareOp> {
    if ts == [] then Fail
    else if ts[0] == TOp("=") then Done(CEq, ts[1..])
    else if ts[0] == TOp("<>") then Done(CNe, ts[1..])
    else if ts[0] == TOp("<") then Done(CLt, ts[1..])
    else if ts[0] == TOp(">") then Done(CGt, ts[1..])
    else if ts[0] == TOp("<=") then Done(CLe, ts[1..])
    else if ts[0] == TOp(">=") then Done(CGe, ts[1..])
    else Fail
  }

  function ParseExpr(ts: seq<Token>): (r: Parsed<Expr>)
    ensures r.Done? ==> |r.rest| < |ts|
    decreases |ts|, 10
  {
    match ParseAnd(ts)
    case Fail => Fail
    case Done(e, rest) => OrTail(e, rest)
  }

  function OrTail(left: Expr, ts: seq<Token>): (r: Parsed<Expr>)
    ensures r.Done? ==> |r.rest| <= |ts|
    decreases |ts|, 10
  {
    if !Starts(ts, TWord("OR")) then Done(left, ts)
    else
      match ParseAnd(ts[1..])
      case Fail => Fail
      case Done(e, rest) => OrTail(EOr(left, e), rest)
  }

  function ParseAnd(ts: seq<Token>): (r: Parsed<Expr>)
    ensures r.Done? ==> |r.rest| < |ts|
    decreases |ts|, 9
  {
    match ParseNot(ts)
    case Fail => Fail
    case Done(e, rest) => AndTail(e, rest)
  }

  function AndTail(left: Expr, ts: seq<Token>): (r: Parsed<Expr>)
    ensures r.Done? ==> |r.rest| <= |ts|
    decreases |ts|, 9
  {
    if !Starts(ts, TWord("AND")) then Done(left, ts)
    else
      match ParseNot(ts[1..])
      case Fail => Fail
      case Done(e, rest) => AndTail(EAnd(left, e), rest)
  }

  function ParseNot(ts: seq<Token>): (r: Parsed<Expr>)
    ensures r.Done? ==> |r.rest| < |ts|
    decreases |ts|, 8
  {
    if Starts(ts, TWord("NOT")) then
      match ParseNot(ts[1..])
      case Fail => Fail
      case Done(e, rest) => Done(ENot(e), rest)
    else ParseIs(ts)
  }

  function ParseIs(ts: seq<Token>): (r: Parsed<Expr>)
    ensures r.Done? ==> |r.rest| < |ts|
    decreases |ts|, 7
  {
    match ParseComparison(ts)
    case Fail => Fail
    case Done(e, rest) => IsTail(e, rest)
  }

  function IsTail(e: Expr, ts: seq<Token>): (r: Parsed<Expr>)
    ensures r.Done? ==> |r.rest| <= |ts|
    decreases |ts|, 7
  {
    if !Starts(ts, TWord("IS")) then Done(e, ts)
    else if Starts(ts[1..], TWord("NULL")) then IsTail(EIsNull(e, false), ts[2..])
    else if Starts(ts[1..], TWord("NOT")) && Starts(ts[2..], TWord("NULL")) then IsTail(EIsNull(e, true), ts[3..])
    else Fail
  }

  /** Comparison operators do not associate: `a = b = c` is refused. */
  function ParseComparison(ts: seq<Token>): (r: Parsed<Expr>)
    ensures r.Done? ==> |r.rest| < |ts|
    decreases |ts|, 6
  {
    match ParseMember(ts)
    case Fail => Fail
    case Done(left, rest) =>
      match ComparisonOp(rest)
      case Fail => Done(left, rest)
      case Done(op, rest1) =>
        match ParseMember(rest1)
        case Fail => Fail
        case Done(right, rest2) => if ComparisonOp(rest2).Done? then Fail else Done(ECompare(op, left, right), rest2)
  }

  /** `[NOT] IN (...)` and `LIKE ... [ESCAPE ...]`. */
  function ParseMember(ts: seq<Token>): (r: Parsed<Expr>)
    ensures r.Done? ==> |r.rest| < |ts|
    decreases |ts|, 5
  {
    match ParseCollate(ts)
    case Fail => Fail
    case Done(e, rest) => MemberTail(e, rest)
  }

  function MemberTail(e: Expr, ts: seq<Token>): (r: Parsed<Expr>)
    ensures r.Done? ==> |r.rest| <= |ts|
    decreases |ts|, 5
  {
    if Starts(ts, TWord("IN")) then InTail(e, false, ts[1..])
    else if Starts(ts, TWord("NOT")) && Starts(ts[1..], TWord("IN")) then InTail(e, true, ts[2..])
    else if Starts(ts, TWord("LIKE")) then
      match ParseCollate(ts[1..])
      case Fail => Fail
      case Done(pattern, rest) =>
        if !Starts(rest, TWord("ESCAPE")) then Done(ELike(e, pattern), rest)
        else
          match ParseCollate(rest[1..])
          case Fail => Fail
          case Done(escape, rest1) => Done(ELikeEscape(e, pattern, escape), rest1)
    else Done(e, ts)
  }

  function InTail(e: Expr, negated: bool, ts: seq<Token>): (r: Parsed<Expr>)
    ensures r.Done? ==> |r.rest| <= |ts|
    decreases |ts|, 11
  {
    if !Starts(ts, TSym('(')) then Fail
    else
      match ParseExpr(ts[1..])
      case Fail => Fail
      case Done(first, rest) => ItemsTail(e, negated, [first], rest)
  }

  function ItemsTail(e: Expr, negated: bool, items: seq<Expr>, ts: seq<Token>): (r: Parsed<Expr>)
    ensures r.Done? ==> |r.rest| <= |ts|
    decreases |ts|, 11
  {
    if Starts(ts, TSym(')')) then Done(EIn(e, negated, items), ts[1..])
    else if Starts(ts, TSym(',')) then
      match ParseExpr(ts[1..])
      case Fail => Fail
      case Done(item, rest) => ItemsTail(e, negated, items + [item], rest)
    else Fail
  }

  function ParseCollate(ts: seq<Token>): (r: Parsed<Expr>)
    ensures r.Done? ==> |r.rest| < |ts|
    decreases |ts|, 4
  {
    match ParseCast(ts)
    case Fail => Fail
    case Done(e, rest) => CollateTail(e, rest)
  }

  function CollateTail(e: Expr, ts: seq<Token>): (r: Parsed<Expr>)
    ensures r.Done? ==> |r.rest| <= |ts|
    decreases |ts|, 4
  {
    if !Starts(ts, TWord("COLLATE")) then Done(e, ts)
    else if |ts| > 1 && ts[1].TQuoted? then CollateTail(ECollate(e, ts[1].name), ts[2..])
    else Fail
  }

  function ParseCast(ts: seq<Token>): (r: Parsed<Expr>)
    ensures r.Done? ==> |r.rest| < |ts|
    decreases |ts|, 3
  {
    match ParsePrimary(ts)
    case Fail => Fail
    case Done(e, rest) => CastTail(e, rest)
  }

  function CastTail(e: Expr, ts: seq<Token>): (r: Parsed<Expr>)
    ensures r.Done? ==> |r.rest| <= |ts|
    decreases |ts|, 3
  {
    if !Starts(ts, TCast) then Done(e, ts)
    else if |ts| > 1 && ts[1].TWord? then CastTail(ECast(e, ts[1].word), ts[2..])
    else Fail
  }

  function ParsePrimary(ts: seq<Token>): (r: Parsed<Expr>)
    ensures r.Done? ==> |r.rest| < |ts|
    decreases |ts|, 2
  {
    if ts == [] then Fail
    else if ts[0].TQuoted? then Done(EColumn(ts[0].name), ts[1..])
    else if ts[0].TParam? then Done(EParam(ts[0].index), ts[1..])
    else if ts[0].TString? then Done(EString(ts[0].text), ts[1..])
    else if ts[0] == TWord("TRUE") then Done(EBool(true), ts[1..])
    else if ts[0] == TWord("FALSE") then Done(EBool(false), ts[1..])
    else if ts[0] == TWord("NULL") then Done(ENull, ts[1..])
    else if ts[0] == TSym('(') then
      match ParseExpr(ts[1..])
      case Fail => Fail
      case Done(e, rest) => if Starts(rest, TSym(')')) then Done(e, rest[1..]) else Fail
    else Fail
  }
}
