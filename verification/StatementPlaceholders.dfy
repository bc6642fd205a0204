// Placeholder numbering of whole statements: find, insert and replace.

module StatementPlaceholders {
  import opened Results
  import opened Mapping
  import opened Values
  import opened Conditions
  import opened Compiler
  import opened Entity
  import opened Repository
  import opened SqlLexer
  import opened Intended
  import opened StatementProofs
  import opened SelectProofs
  import opened Placeholders

  // ----- Lists without placeholders -----

  lemma {:induction false} PlainCommas(pieces: seq<seq<Token>>)
    requires forall k | 0 <= k < |pieces| :: pieces[k] != [] && Plain(pieces[k])
    ensures Plain(Commas(pieces))
    decreases |pieces|
  {
    if |pieces| > 1 {
      var rest := pieces[1..];
      assert forall k | 0 <= k < |rest| :: rest[k] == pieces[k + 1];
      PlainCommas(rest);
    }
  }

  lemma {:induction false} PlainNames(names: seq<string>)
    ensures Plain(Commas(NamePieces(names)))
  {
    PlainCommas(NamePieces(names));
  }

  // ----- FIND -----

  lemma {:induction false} PlainSort(fields: FieldMap, sort: seq<Sort>, i: nat)
    requires i <= |sort| && SortMapped(fields, sort)
    ensures Plain(SortTokens(fields, sort, i))
    decreases |sort| - i
  {
    if i < |sort| {
      PlainSort(fields, sort, i + 1);
      PlainKey(CommaTokens(i), fields[sort[i].field], sort[i].direction, SortTokens(fields, sort, i + 1));
    }
  }

  lemma {:induction false} PlainKey(comma: seq<Token>, column: PgColumn, direction: SortDirection, rest: seq<Token>)
    requires Plain(comma) && Plain(rest)
    ensures Plain(comma + ColumnTokens(column) + DirectionTokens(direction) + rest)
  {
    var key := comma + ColumnTokens(column) + DirectionTokens(direction);
    assert Plain(key);
    assert Plain(key + rest);
  }

  lemma {:induction false} PageCarries(word: string, amount: Option<nat>, n: nat)
    ensures Carries(PageTokens(word, amount.Some?, n + 1), PageSlots(amount), n)
  {
    match amount
    case None => PlainCarries([], n);
    case Some(a) =>
      ParamCarries(RowCount(a), n);
      PlainFirst([TWord(word)], ParamTokens(n + 1, None), [RowCount(a)], n);
      assert [TWord(word)] + ParamTokens(n + 1, None) == [TWord(word), TParam(n + 1)];
  }

  function PageSlots(amount: Option<nat>): seq<Slot> {
    if amount.Some? then [RowCount(amount.value)] else []
  }

  function FilterOperands(fields: FieldMap, params: FindParams): (slots: seq<Slot>)
    requires FindReady(fields, params)
    ensures |slots| == FilterSlots(params)
  {
    match params.condition
    case Some(c) => OperandsOf(fields, c)
    case None => []
  }

  /** An offset of zero is not written. */
  function WrittenOffset(params: FindParams): Option<nat> {
    if params.offset > 0 then Some(params.offset) else None
  }

  /** The condition's operands, then the limit, then the offset. */
  function FindOperands(fields: FieldMap, params: FindParams): seq<Slot>
    requires FindReady(fields, params)
  {
    FilterOperands(fields, params) + PageSlots(params.limit) + PageSlots(WrittenOffset(params))
  }

  lemma {:induction false} WhereCarries(fields: FieldMap, params: FindParams)
    requires FindReady(fields, params)
    ensures Carries(WhereTokens(fields, params), FilterOperands(fields, params), 0)
  {
    match params.condition
    case None => PlainCarries([], 0);
    case Some(c) =>
      ConditionCarries(fields, c, 0);
      PlainFirst([TWord("WHERE")], ConditionTokens(fields, c, 0), OperandsOf(fields, c), 0);
  }

  lemma {:induction false} OrderIsPlain(fields: FieldMap, sort: seq<Sort>)
    requires SortMapped(fields, sort)
    ensures Plain(OrderTokens(fields, sort))
  {
    PlainSort(fields, sort, 0);
  }

  function HeadTokens(fields: FieldMap, params: FindParams): seq<Token>
    requires FindReady(fields, params)
  {
    WhereTokens(fields, params) + OrderTokens(fields, params.sort)
  }

  lemma {:induction false} HeadCarries(fields: FieldMap, params: FindParams)
    requires FindReady(fields, params)
    ensures Carries(HeadTokens(fields, params), FilterOperands(fields, params), 0)
  {
    WhereCarries(fields, params);
    OrderIsPlain(fields, params.sort);
    PlainLast(WhereTokens(fields, params), FilterOperands(fields, params), OrderTokens(fields, params.sort), 0);
  }

  lemma {:induction false} PagingCarries(params: FindParams, n: nat)
    requires ValidParams(params) && n == FilterSlots(params)
    ensures Carries(PagingTokens(params), PageSlots(params.limit) + PageSlots(WrittenOffset(params)), n)
  {
    PageCarries("LIMIT", params.limit, LimitIndex(params) - 1);
    PageCarries("OFFSET", WrittenOffset(params), OffsetIndex(params) - 1);
    Joins(PageTokens("LIMIT", params.limit.Some?, LimitIndex(params)), PageSlots(params.limit),
          PageTokens("OFFSET", params.offset > 0, OffsetIndex(params)), PageSlots(WrittenOffset(params)), n);
  }

  lemma {:induction false} FindHalves(fields: FieldMap, params: FindParams)
    returns (head: seq<Token>, operands: seq<Slot>, tail: seq<Token>, rows: seq<Slot>)
    requires FindReady(fields, params)
    ensures FindTokens(fields, params) == head + tail && FindOperands(fields, params) == operands + rows
    ensures Carries(head, operands, 0) && Carries(tail, rows, |operands|)
  {
    head := HeadTokens(fields, params);
    operands := FilterOperands(fields, params);
    tail := PagingTokens(params);
    rows := PageSlots(params.limit) + PageSlots(WrittenOffset(params));
    HeadCarries(fields, params);
    PagingCarries(params, |operands|);
    Assoc(WhereTokens(fields, params), OrderTokens(fields, params.sort), tail);
    Assoc(operands, PageSlots(params.limit), PageSlots(WrittenOffset(params)));
  }

  lemma {:induction false} FindCarries(fields: FieldMap, params: FindParams)
    requires FindReady(fields, params)
    ensures Carries(FindTokens(fields, params), FindOperands(fields, params), 0)
  {
    var head, operands, tail, rows := FindHalves(fields, params);
    Joins(head, operands, tail, rows, 0);
  }

  lemma {:induction false} FilterBound(fields: FieldMap, params: FindParams)
    requires FindReady(fields, params) && WhereFragment(fields, params.condition).Ok?
    ensures Bound(WhereFragment(fields, params.condition).value.bindings, FilterOperands(fields, params))
  {
    if params.condition.Some? {
      var c := params.condition.value;
      ConditionBound(fields, c, 0);
      assert [] + ConditionFragment(fields, c, 0).value.bindings == ConditionFragment(fields, c, 0).value.bindings;
    }
  }

  lemma {:induction false} FindBound(fields: FieldMap, params: FindParams)
    requires FindReady(fields, params) && WhereFragment(fields, params.condition).Ok?
    requires (params.limit.Some? ==> params.limit.value <= MAX_BIGINT) && params.offset <= MAX_BIGINT
    ensures Bound(FindBindings(fields, params), FindOperands(fields, params))
  {
    FilterBound(fields, params);
  }

  lemma {:induction false} SelectHeadIsPlain(m: EntityMapping)
    ensures Plain(SelectTokens(m, []))
  {
    PlainNames(SelectedNames(m));
  }

  /** A fragment keeps its numbering behind a prefix without placeholders. */
  lemma {:induction false} PrefixedIsNumbered(
    head: string, headTokens: seq<Token>, fragment: PgCompiledQuery, tail: seq<Token>, slots: seq<Slot>)
    requires Lexes(head, headTokens) && Plain(headTokens)
    requires Clauses(fragment.sql, tail) && Carries(tail, slots, 0) && Bound(fragment.bindings, slots)
    ensures Numbered(PgCompiledQuery(AppendFragment(head, fragment.sql), fragment.bindings), slots)
  {
    AppendLexes(head, headTokens, fragment.sql, tail);
    PlainFirst(headTokens, tail, slots, 0);
    IsNumbered(PgCompiledQuery(AppendFragment(head, fragment.sql), fragment.bindings), headTokens + tail, slots);
  }

  /** `compile_find`, embedded in the repository's SELECT. */
  lemma {:induction false} FindIsNumbered(m: EntityMapping, params: FindParams)
    requires FindStatement(m, params).Ok?
    ensures FindReady(m.fields, params)
    ensures Numbered(FindStatement(m, params).value, FindOperands(m.fields, params))
  {
    FindIsReady(m.fields, params);
    FindLexes(m.fields, params);
    PrefixLexes(m);
    FindCarries(m.fields, params);
    SelectHeadIsPlain(m);
    FindBound(m.fields, params);
    PrefixedIsNumbered(SelectPrefix(m).value, SelectTokens(m, []), FindFragment(m.fields, params).value,
                       FindTokens(m.fields, params), FindOperands(m.fields, params));
  }

  // ----- INSERT and UPDATE -----

  function FieldSlots(m: EntityMapping, e: Encoded, field: FieldName): (slots: seq<Slot>)
    requires field in m.fields && EntityValue(m, e, field).Ok?
    ensures |slots| == Takes(m, e, field)
  {
    var value := EntityValue(m, e, field).value;
    if value.Default? then [] else [Stored(m.fields[field].kind, value)]
  }

  /** The written fields that are not left to the database, in statement order. */
  function StoredSlots(m: EntityMapping, e: Encoded, fs: seq<FieldName>): seq<Slot>
    requires Writable(m, e, fs)
    decreases |fs|
  {
    if fs == [] then [] else FieldSlots(m, e, fs[0]) + StoredSlots(m, e, fs[1..])
  }

  lemma {:induction false} SourceCarries(m: EntityMapping, e: Encoded, field: FieldName, n: nat)
    requires field in m.fields && EntityValue(m, e, field).Ok?
    ensures Carries(SourceTokens(m, e, field, n), FieldSlots(m, e, field), n)
  {
    var value := EntityValue(m, e, field).value;
    if value.Default? {
      PlainCarries([TWord("DEFAULT")], n);
    } else {
      ParamCarries(Stored(m.fields[field].kind, value), n);
    }
  }

  lemma {:induction false} CommasCons(piece: seq<Token>, more: seq<seq<Token>>)
    ensures Commas([piece] + more) == if more == [] then piece else piece + [TSym(',')] + Commas(more)
  {
    assert ([piece] + more)[1..] == more;
  }

  /** One more piece in front of a list that already carries its slots. */
  lemma {:induction false} PieceCarries(piece: seq<Token>, slots: seq<Slot>, more: seq<seq<Token>>, moreSlots: seq<Slot>, n: nat)
    requires Carries(piece, slots, n) && Carries(Commas(more), moreSlots, n + |slots|)
    requires more == [] ==> moreSlots == []
    ensures Carries(Commas([piece] + more), slots + moreSlots, n)
  {
    CommasCons(piece, more);
    if more == [] {
      assert slots + moreSlots == slots;
    } else {
      PlainLast(piece, slots, [TSym(',')], n);
      Joins(piece + [TSym(',')], slots, Commas(more), moreSlots, n);
    }
  }

  lemma {:induction false} SourcesCarry(m: EntityMapping, e: Encoded, fs: seq<FieldName>, n: nat)
    requires Writable(m, e, fs)
    ensures Carries(Commas(SourcePieces(m, e, fs, n)), StoredSlots(m, e, fs), n)
    decreases |fs|
  {
    if fs == [] {
      PlainCarries([], n);
    } else {
      SourceCarries(m, e, fs[0], n);
      SourcesCarry(m, e, fs[1..], n + Takes(m, e, fs[0]));
      PieceCarries(SourceTokens(m, e, fs[0], n), FieldSlots(m, e, fs[0]),
                   SourcePieces(m, e, fs[1..], n + Takes(m, e, fs[0])), StoredSlots(m, e, fs[1..]), n);
    }
  }

  lemma {:induction false} AssignmentsCarry(m: EntityMapping, e: Encoded, fs: seq<FieldName>, n: nat)
    requires Writable(m, e, fs)
    ensures Carries(Commas(AssignmentPieces(m, e, fs, n)), StoredSlots(m, e, fs), n)
    decreases |fs|
  {
    if fs == [] {
      PlainCarries([], n);
    } else {
      var target := [TQuoted(m.fields[fs[0]].identifier), TOp("=")];
      SourceCarries(m, e, fs[0], n);
      PlainFirst(target, SourceTokens(m, e, fs[0], n), FieldSlots(m, e, fs[0]), n);
      AssignmentsCarry(m, e, fs[1..], n + Takes(m, e, fs[0]));
      PieceCarries(target + SourceTokens(m, e, fs[0], n), FieldSlots(m, e, fs[0]),
                   AssignmentPieces(m, e, fs[1..], n + Takes(m, e, fs[0])), StoredSlots(m, e, fs[1..]), n);
    }
  }

  lemma {:induction false} SourcesBound(m: EntityMapping, e: Encoded, fs: seq<FieldName>, n: nat)
    requires Writable(m, e, fs)
    ensures SourceItems(m, e, fs, n).Ok? ==>
              Bound(SourceItems(m, e, fs, n).value.bindings, StoredSlots(m, e, fs))
    ensures AssignmentItems(m, e, fs, n).Ok? ==>
              Bound(AssignmentItems(m, e, fs, n).value.bindings, StoredSlots(m, e, fs))
    decreases |fs|
  {
    if fs != [] && SourceItem(m, e, fs[0], n).Ok? {
      var item := SourceItem(m, e, fs[0], n).value;
      var k := n + |item.bindings|;
      SourcesBound(m, e, fs[1..], k);
      assert Bound(item.bindings, FieldSlots(m, e, fs[0]));
      if SourceItems(m, e, fs[1..], k).Ok? {
        BoundJoins(item.bindings, FieldSlots(m, e, fs[0]),
                   SourceItems(m, e, fs[1..], k).value.bindings, StoredSlots(m, e, fs[1..]));
      }
      if AssignmentItems(m, e, fs[1..], k).Ok? {
        BoundJoins(item.bindings, FieldSlots(m, e, fs[0]),
                   AssignmentItems(m, e, fs[1..], k).value.bindings, StoredSlots(m, e, fs[1..]));
      }
    }
  }

  lemma {:induction false} PlainReturning(m: EntityMapping, returning: bool)
    ensures Plain(ReturningTokens(m, returning))
  {
    PlainNames(SelectedNames(m));
  }

  lemma {:induction false} InsertBindings(m: EntityMapping, e: Encoded, returning: bool)
    requires InsertStatement(m, e, returning).Ok? && Writable(m, e, FieldsWith(m, Inserting))
    ensures Bound(InsertStatement(m, e, returning).value.bindings, StoredSlots(m, e, FieldsWith(m, Inserting)))
  {
    SourcesBound(m, e, FieldsWith(m, Inserting), 0);
  }

  /** `compile_insert`: a field left to the database takes no number and no binding. */
  lemma {:induction false} InsertIsNumbered(m: EntityMapping, e: Encoded, returning: bool)
    requires InsertStatement(m, e, returning).Ok?
    ensures Writable(m, e, FieldsWith(m, Inserting))
    ensures Numbered(InsertStatement(m, e, returning).value, StoredSlots(m, e, FieldsWith(m, Inserting)))
  {
    InsertLexes(m, e, returning);
    var fs := FieldsWith(m, Inserting);
    var slots := StoredSlots(m, e, fs);
    InsertCarries(m, e, fs);
    PlainReturning(m, returning);
    PlainLast(InsertTokens(m, e), slots, ReturningTokens(m, returning), 0);
    InsertBindings(m, e, returning);
    IsNumbered(InsertStatement(m, e, returning).value, InsertTokens(m, e) + ReturningTokens(m, returning), slots);
  }

  lemma {:induction false} InsertCarries(m: EntityMapping, e: Encoded, fs: seq<FieldName>)
    requires fs == FieldsWith(m, Inserting) && Writable(m, e, fs)
    ensures Carries(InsertTokens(m, e), StoredSlots(m, e, fs), 0)
  {
    var head := [TWord("INSERT"), TWord("INTO")] + TableTokens(m.table);
    if fs == [] {
      PlainCarries(head + [TWord("DEFAULT"), TWord("VALUES")], 0);
    } else {
      var names := Commas(NamePieces(NamesOf(m.fields, fs)));
      var values := Commas(SourcePieces(m, e, fs, 0));
      PlainNames(NamesOf(m.fields, fs));
      var open := head + [TSym('(')] + names + [TSym(')'), TWord("VALUES"), TSym('(')];
      SourcesCarry(m, e, fs, 0);
      PlainFirst(open, values, StoredSlots(m, e, fs), 0);
      PlainLast(open + values, StoredSlots(m, e, fs), [TSym(')')], 0);
    }
  }

  /** The replaced fields, then the identity. */
  function ReplaceSlots(m: EntityMapping, e: Encoded): seq<Slot>
    requires m.idField in m.fields && Writable(m, e, ReplacedFields(m)) && e.id.Ok?
  {
    StoredSlots(m, e, ReplacedFields(m)) + [Stored(m.fields[m.idField].kind, e.id.value)]
  }

  lemma {:induction false} IdCarries(column: PgColumn, id: Slot, n: nat)
    requires SlotCast(id) == PlaceholderCast(column.kind)
    ensures Carries(IdTokens(column, n + 1), [id], n)
  {
    ParamCarries(id, n);
    PlainFirst([TQuoted(column.identifier), TOp("=")], ParamTokens(n + 1, SlotCast(id)), [id], n);
  }

  lemma {:induction false} UpdateCarries(head: seq<Token>, sets: seq<Token>, slots: seq<Slot>, tail: seq<Token>, id: Slot)
    requires Plain(head) && Carries(sets, slots, 0) && Carries(tail, [id], |slots|)
    ensures Carries(head + sets + [TWord("WHERE")] + tail, slots + [id], 0)
  {
    PlainFirst(head, sets, slots, 0);
    PlainLast(head + sets, slots, [TWord("WHERE")], 0);
    Joins(head + sets + [TWord("WHERE")], slots, tail, [id], 0);
  }

  /** The identity takes the number after those of the assignments. */
  lemma {:induction false} ReplaceCarries(m: EntityMapping, e: Encoded, index: nat)
    requires m.idField in m.fields && Writable(m, e, ReplacedFields(m)) && e.id.Ok?
    requires index == |StoredSlots(m, e, ReplacedFields(m))| + 1
    ensures Carries(ReplaceTokens(m, e, index), ReplaceSlots(m, e), 0)
  {
    var fs := ReplacedFields(m);
    var column := m.fields[m.idField];
    var id := Stored(column.kind, e.id.value);
    AssignmentsCarry(m, e, fs, 0);
    IdCarries(column, id, index - 1);
    UpdateCarries([TWord("UPDATE")] + TableTokens(m.table) + [TWord("SET")], Commas(AssignmentPieces(m, e, fs, 0)),
                  StoredSlots(m, e, fs), IdTokens(column, index), id);
  }

  lemma {:induction false} ReplaceBindings(m: EntityMapping, e: Encoded, returning: bool)
    requires m.idField in m.fields && ReplaceStatement(m, e, returning).Ok? && Writable(m, e, ReplacedFields(m))
    ensures e.id.Ok? && IdIndex(m, e) == |StoredSlots(m, e, ReplacedFields(m))| + 1
    ensures Bound(ReplaceStatement(m, e, returning).value.bindings, ReplaceSlots(m, e))
  {
    var items := AssignmentItems(m, e, ReplacedFields(m), 0).value;
    SourcesBound(m, e, ReplacedFields(m), 0);
    BoundJoins(items.bindings, StoredSlots(m, e, ReplacedFields(m)),
               [IdBinding(m, e.id).value], [Stored(m.fields[m.idField].kind, e.id.value)]);
  }

  /** `compile_replace`: numbering runs on into the trailing identity. */
  lemma {:induction false} ReplaceIsNumbered(m: EntityMapping, e: Encoded, returning: bool)
    requires m.idField in m.fields && ReplaceStatement(m, e, returning).Ok?
    ensures Writable(m, e, ReplacedFields(m)) && e.id.Ok?
    ensures Numbered(ReplaceStatement(m, e, returning).value, ReplaceSlots(m, e))
  {
    ReplaceLexes(m, e, returning);
    ReplaceBindings(m, e, returning);
    ReplaceCarries(m, e, IdIndex(m, e));
    PlainReturning(m, returning);
    var tokens := ReplaceTokens(m, e, IdIndex(m, e));
    PlainLast(tokens, ReplaceSlots(m, e), ReturningTokens(m, returning), 0);
    IsNumbered(ReplaceStatement(m, e, returning).value, tokens + ReturningTokens(m, returning), ReplaceSlots(m, e));
  }
}
