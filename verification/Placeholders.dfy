// Placeholders and bindings of every compiled statement: read left to right, the k-th
// placeholder is `$k`, it carries the cast of the kind its binding was normalised for, and
// the k-th binding is that of the k-th operand. Numbering runs on across WHERE, LIMIT,
// OFFSET and the identity at the end of an UPDATE.

module Placeholders {
  import opened Results
  import opened Mapping
  import opened Values
  import opened Conditions
  import opened Compiler
  import opened SqlLexer
  import opened Intended
  import opened LexingProofs

  /** What stands behind a placeholder: a query operand, a stored value, or a row count. */
  datatype Slot =
    | Operand(kind: PgScalarKind, value: ScalarValue)
    | Stored(kind: PgScalarKind, stored: PgValue)
    | RowCount(amount: nat)

  function SlotCast(slot: Slot): Option<string> {
    if slot.RowCount? then None else PlaceholderCast(slot.kind)
  }

  function SlotBinding(slot: Slot): Result<PgBindValue> {
    match slot
    case Operand(kind, value) => NormalizeBinding(kind, value)
    case Stored(kind, stored) => NormalizeEntityBinding(kind, stored)
    case RowCount(amount) => if amount > MAX_BIGINT then Err(Validation) else Ok(PgBindValue.I64(amount))
  }

  // ----- Reading placeholders off a token list -----

  function CastAfter(ts: seq<Token>): Option<string> {
    if |ts| >= 2 && ts[0] == TCast && ts[1].TWord? then Some(ts[1].word) else None
  }

  /** The placeholders of a statement in order, each with its number and its cast. */
  function PlaceholdersOf(ts: seq<Token>): seq<(nat, Option<string>)> {
    if ts == [] then []
    else if ts[0].TParam? then [(ts[0].index, CastAfter(ts[1..]))] + PlaceholdersOf(ts[1..])
    else PlaceholdersOf(ts[1..])
  }

  /** Numbers `n + 1`, `n + 2`, ... with the casts of these slots. */
  function Numbers(slots: seq<Slot>, n: nat): seq<(nat, Option<string>)> {
    if slots == [] then [] else [(n + 1, SlotCast(slots[0]))] + Numbers(slots[1..], n + 1)
  }

  lemma {:induction false} NumberedInOrder(slots: seq<Slot>, n: nat)
    ensures |Numbers(slots, n)| == |slots|
    ensures forall k | 0 <= k < |slots| :: Numbers(slots, n)[k] == (n + k + 1, SlotCast(slots[k]))
    decreases |slots|
  {
    if slots != [] {
      NumberedInOrder(slots[1..], n + 1);
    }
  }

  ghost predicate Bound(bindings: seq<PgBindValue>, slots: seq<Slot>) {
    |bindings| == |slots| && forall k | 0 <= k < |slots| :: SlotBinding(slots[k]) == Ok(bindings[k])
  }

  /** The whole claim about a statement. */
  ghost predicate Numbered(q: PgCompiledQuery, slots: seq<Slot>) {
    && |PlaceholdersOf(Lex(q.sql))| == |slots| == |q.bindings|
    && forall k | 0 <= k < |slots| ::
         && PlaceholdersOf(Lex(q.sql))[k] == (k + 1, SlotCast(slots[k]))
         && SlotBinding(slots[k]) == Ok(q.bindings[k])
  }

  lemma {:induction false} IsNumbered(q: PgCompiledQuery, tokens: seq<Token>, slots: seq<Slot>)
    requires Lexes(q.sql, tokens) && Carries(tokens, slots, 0) && Bound(q.bindings, slots)
    ensures Numbered(q, slots)
  {
    WholeText(q.sql, tokens);
    NumberedInOrder(slots, 0);
  }

  // ----- Token lists that carry slots -----

  /** No cast is cut off at either end. */
  predicate Solid(ts: seq<Token>) {
    ts != [] ==> ts[0] != TCast && ts[|ts| - 1] != TCast
  }

  ghost predicate Carries(ts: seq<Token>, slots: seq<Slot>, n: nat) {
    Solid(ts) && PlaceholdersOf(ts) == Numbers(slots, n)
  }

  /** A cast is not cut off by what follows. */
  lemma {:induction false} CastStays(a: seq<Token>, b: seq<Token>)
    requires (a != [] ==> a[|a| - 1] != TCast) && (b != [] ==> b[0] != TCast)
    ensures CastAfter(a + b) == CastAfter(a)
  {
  }

  lemma {:induction false} PlaceholdersCons(t: Token, ts: seq<Token>)
    ensures PlaceholdersOf([t] + ts)
         == (if t.TParam? then [(t.index, CastAfter(ts))] else []) + PlaceholdersOf(ts)
  {
    assert ([t] + ts)[1..] == ts;
  }

  lemma {:induction false} Peeled<T>(a: seq<T>, b: seq<T>)
    requires a != []
    ensures [a[0]] + a[1..] == a && [a[0]] + (a[1..] + b) == a + b
  {
  }

  lemma {:induction false} ConsJoins(t: Token, ts: seq<Token>, b: seq<Token>)
    requires PlaceholdersOf(ts + b) == PlaceholdersOf(ts) + PlaceholdersOf(b) && CastAfter(ts + b) == CastAfter(ts)
    ensures PlaceholdersOf([t] + (ts + b)) == PlaceholdersOf([t] + ts) + PlaceholdersOf(b)
  {
    PlaceholdersCons(t, ts);
    PlaceholdersCons(t, ts + b);
  }

  lemma {:induction false} PlaceholdersJoin(a: seq<Token>, b: seq<Token>)
    requires (a != [] ==> a[|a| - 1] != TCast) && Solid(b)
    ensures PlaceholdersOf(a + b) == PlaceholdersOf(a) + PlaceholdersOf(b)
    decreases |a|
  {
    if a == [] {
      assert a + b == b;
    } else {
      PlaceholdersJoin(a[1..], b);
      CastStays(a[1..], b);
      Peeled(a, b);
      ConsJoins(a[0], a[1..], b);
    }
  }

  lemma {:induction false} NumbersJoin(a: seq<Slot>, b: seq<Slot>, n: nat)
    ensures Numbers(a + b, n) == Numbers(a, n) + Numbers(b, n + |a|)
    decreases |a|
  {
    if a == [] {
      assert a + b == b;
    } else {
      assert (a + b)[1..] == a[1..] + b;
      NumbersJoin(a[1..], b, n + 1);
    }
  }

  lemma {:induction false} Joins(a: seq<Token>, left: seq<Slot>, b: seq<Token>, right: seq<Slot>, n: nat)
    requires Carries(a, left, n) && Carries(b, right, n + |left|)
    ensures Carries(a + b, left + right, n)
  {
    PlaceholdersJoin(a, b);
    NumbersJoin(left, right, n);
  }

  /** Tokens with no placeholder, in front or behind. */
  predicate Plain(ts: seq<Token>) {
    Solid(ts) && forall i | 0 <= i < |ts| :: !ts[i].TParam?
  }

  lemma {:induction false} NoPlaceholders(ts: seq<Token>)
    requires forall i | 0 <= i < |ts| :: !ts[i].TParam?
    ensures PlaceholdersOf(ts) == []
    decreases |ts|
  {
    if ts != [] {
      NoPlaceholders(ts[1..]);
    }
  }

  lemma {:induction false} PlainCarries(ts: seq<Token>, n: nat)
    requires Plain(ts)
    ensures Carries(ts, [], n)
  {
    NoPlaceholders(ts);
  }

  lemma {:induction false} PlainFirst(a: seq<Token>, b: seq<Token>, slots: seq<Slot>, n: nat)
    requires Plain(a) && Carries(b, slots, n)
    ensures Carries(a + b, slots, n)
  {
    PlainCarries(a, n);
    Joins(a, [], b, slots, n);
    assert [] + slots == slots;
  }

  lemma {:induction false} PlainLast(a: seq<Token>, slots: seq<Slot>, b: seq<Token>, n: nat)
    requires Carries(a, slots, n) && Plain(b)
    ensures Carries(a + b, slots, n)
  {
    PlainCarries(b, n + |slots|);
    Joins(a, slots, b, [], n);
    assert slots + [] == slots;
  }

  lemma {:induction false} ParamCarries(slot: Slot, n: nat)
    ensures Carries(ParamTokens(n + 1, SlotCast(slot)), [slot], n)
  {
    var ts := ParamTokens(n + 1, SlotCast(slot));
    assert Numbers([slot][1..], n + 1) == [];
    if SlotCast(slot).Some? {
      assert ts[1..] == [TCast, TWord(SlotCast(slot).value)];
      NoPlaceholders(ts[1..]);
    } else {
      assert ts[1..] == [];
    }
  }

  lemma {:induction false} BoundJoins(a: seq<PgBindValue>, left: seq<Slot>, b: seq<PgBindValue>, right: seq<Slot>)
    requires Bound(a, left) && Bound(b, right)
    ensures Bound(a + b, left + right)
  {
  }

  // ----- Conditions -----

  function Elements(kind: PgScalarKind, values: seq<ScalarValue>, i: nat): (slots: seq<Slot>)
    requires i <= |values|
    ensures |slots| == |values| - i
    decreases |values| - i
  {
    if i == |values| then [] else [Operand(kind, values[i])] + Elements(kind, values, i + 1)
  }

  function LeafOperands(kind: PgScalarKind, op: Operator, value: Option<ScalarValue>): (slots: seq<Slot>)
    requires OperandPresent(op, value)
    ensures |slots| == PredicateSlots(op, value)
  {
    if op.IsNull? || op.IsNotNull? then []
    else if op.In? || op.NotIn? then Elements(kind, value.value.values, 0)
    else [Operand(kind, value.value)]
  }

  /** The operands of a condition, left to right. */
  function OperandsOf(fields: FieldMap, c: Condition): (slots: seq<Slot>)
    requires ValidCondition(c) && Mapped(fields, c)
    ensures |slots| == Slots(c)
    decreases c
  {
    match c
    case Group(_, cs) => OperandsFrom(fields, cs, 0)
    case Predicate(f, op, value) => LeafOperands(fields[f].kind, op, value)
  }

  function OperandsFrom(fields: FieldMap, cs: seq<Condition>, i: nat): (slots: seq<Slot>)
    requires i <= |cs| && Ready(fields, cs)
    ensures |slots| == SlotsFrom(cs, i)
    decreases cs, |cs| - i
  {
    if i == |cs| then [] else OperandsOf(fields, cs[i]) + OperandsFrom(fields, cs, i + 1)
  }

  lemma {:induction false} ItemsCarry(kind: PgScalarKind, values: seq<ScalarValue>, i: nat, n: nat)
    requires i <= |values|
    ensures Carries(ItemTokens(PlaceholderCast(kind), |values|, i, n), Elements(kind, values, i), n)
    decreases |values| - i
  {
    if i < |values| {
      var slot := Operand(kind, values[i]);
      var param := ParamTokens(n + 1, SlotCast(slot));
      ParamCarries(slot, n);
      PlainFirst(CommaTokens(i), param, [slot], n);
      ItemsCarry(kind, values, i + 1, n + 1);
      Joins(CommaTokens(i) + param, [slot], ItemTokens(PlaceholderCast(kind), |values|, i + 1, n + 1),
            Elements(kind, values, i + 1), n);
    }
  }

  lemma {:induction false} LeafCarries(column: PgColumn, op: Operator, value: Option<ScalarValue>, n: nat)
    requires OperandPresent(op, value)
    ensures Carries(PredicateTokens(column, op, value, n), LeafOperands(column.kind, op, value), n)
  {
    var head := ColumnTokens(column);
    if op.IsNull? || op.IsNotNull? || ((op.In? || op.NotIn?) && value.value.values == []) {
      PlainCarries(PredicateTokens(column, op, value, n), n);
    } else if op.In? || op.NotIn? {
      var values := value.value.values;
      var items := ItemTokens(PlaceholderCast(column.kind), |values|, 0, n);
      ItemsCarry(column.kind, values, 0, n);
      PlainFirst(head + OpenTokens(op.NotIn?), items, Elements(column.kind, values, 0), n);
      PlainLast(head + OpenTokens(op.NotIn?) + items, Elements(column.kind, values, 0), [TSym(')')], n);
    } else {
      var slot := Operand(column.kind, value.value);
      var param := ParamTokens(n + 1, SlotCast(slot));
      ParamCarries(slot, n);
      PlainFirst(head + [ComparisonToken(op)], param, [slot], n);
      PlainLast(head + [ComparisonToken(op)] + param, [slot], EscapeTokens(op), n);
    }
  }

  lemma {:induction false} ConditionCarries(fields: FieldMap, c: Condition, n: nat)
    requires ValidCondition(c) && Mapped(fields, c)
    ensures Carries(ConditionTokens(fields, c, n), OperandsOf(fields, c), n)
    decreases c, 1
  {
    match c
    case Group(operator, cs) =>
      var inner := Joined(operator, TokensOf(fields, cs, 0, n), 0);
      ChildrenCarry(fields, operator, cs, 0, n);
      PlainFirst([TSym('(')], inner, OperandsFrom(fields, cs, 0), n);
      PlainLast([TSym('(')] + inner, OperandsFrom(fields, cs, 0), [TSym(')')], n);
    case Predicate(f, op, value) => LeafCarries(fields[f], op, value, n);
  }

  lemma {:induction false} ChildrenCarry(
    fields: FieldMap, operator: LogicalOperator, cs: seq<Condition>, i: nat, n: nat)
    requires i <= |cs| && Ready(fields, cs)
    ensures Carries(Joined(operator, TokensOf(fields, cs, i, n), i), OperandsFrom(fields, cs, i), n)
    decreases cs, 0, |cs| - i
  {
    if i == |cs| {
      PlainCarries([], n);
    } else {
      var s, own, t, others, k := FirstChildCarries(fields, operator, cs, i, n);
      ChildrenCarry(fields, operator, cs, i + 1, k);
      Joins(s, own, t, others, n);
    }
  }

  lemma {:induction false} FirstChildCarries(
    fields: FieldMap, operator: LogicalOperator, cs: seq<Condition>, i: nat, n: nat)
    returns (s: seq<Token>, own: seq<Slot>, t: seq<Token>, others: seq<Slot>, k: nat)
    requires i < |cs| && Ready(fields, cs)
    ensures Carries(s, own, n) && n + |own| == k
    ensures Joined(operator, TokensOf(fields, cs, i, n), i) == s + t
    ensures Joined(operator, TokensOf(fields, cs, i + 1, k), i + 1) == t
    ensures OperandsFrom(fields, cs, i) == own + others && OperandsFrom(fields, cs, i + 1) == others
    decreases cs, 0, 0
  {
    own, others, k := OperandsOf(fields, cs[i]), OperandsFrom(fields, cs, i + 1), n + Slots(cs[i]);
    ConditionCarries(fields, cs[i], n);
    s, t := TokensSplit(fields, operator, cs, i, n);
    PlainFirst(LeadTokens(operator, i), ConditionTokens(fields, cs[i], n), own, n);
  }

  lemma {:induction false} ListBound(kind: PgScalarKind, values: seq<ScalarValue>, i: nat, n: nat)
    requires i <= |values| && ListFragment(kind, values, i, n).Ok?
    ensures Bound(ListFragment(kind, values, i, n).value.bindings, Elements(kind, values, i))
    decreases |values| - i
  {
    if i < |values| {
      var item := ListItem(kind, values[i], i, n).value;
      ListBound(kind, values, i + 1, n + 1);
      BoundJoins(item.bindings, [Operand(kind, values[i])],
                 ListFragment(kind, values, i + 1, n + 1).value.bindings, Elements(kind, values, i + 1));
    }
  }

  lemma {:induction false} ConditionBound(fields: FieldMap, c: Condition, n: nat)
    requires ValidCondition(c) && Mapped(fields, c) && ConditionFragment(fields, c, n).Ok?
    ensures Bound(ConditionFragment(fields, c, n).value.bindings, OperandsOf(fields, c))
    decreases c, 1
  {
    match c
    case Group(operator, cs) => ChildrenBound(fields, operator, cs, 0, n);
    case Predicate(f, op, value) =>
      if op.In? || op.NotIn? {
        if value.value.values != [] {
          ListBound(fields[f].kind, value.value.values, 0, n);
        }
      }
  }

  lemma {:induction false} ChildrenBound(
    fields: FieldMap, operator: LogicalOperator, cs: seq<Condition>, i: nat, n: nat)
    requires i <= |cs| && Ready(fields, cs) && ChildrenFragment(fields, operator, cs, i, n).Ok?
    ensures Bound(ChildrenFragment(fields, operator, cs, i, n).value.bindings, OperandsFrom(fields, cs, i))
    decreases cs, 0, |cs| - i
  {
    if i < |cs| {
      var child, rest := ChildrenSplit(fields, operator, cs, i, n);
      ConditionBound(fields, cs[i], n);
      ChildrenBound(fields, operator, cs, i + 1, n + |child.bindings|);
      BoundJoins(child.bindings, OperandsOf(fields, cs[i]), rest.bindings, OperandsFrom(fields, cs, i + 1));
    }
  }

  /** `compile_condition`: one placeholder an operand, in order, under the operand's cast. */
  lemma {:induction false} ConditionIsNumbered(fields: FieldMap, c: Condition)
    requires ValidCondition(c) && ConditionFragment(fields, c, 0).Ok?
    ensures Mapped(fields, c)
    ensures Numbered(ConditionFragment(fields, c, 0).value, OperandsOf(fields, c))
  {
    CompiledIsMapped(fields, c, 0);
    ConditionLexes(fields, c, 0);
    ConditionCarries(fields, c, 0);
    ConditionBound(fields, c, 0);
    IsNumbered(ConditionFragment(fields, c, 0).value, ConditionTokens(fields, c, 0), OperandsOf(fields, c));
  }
}
