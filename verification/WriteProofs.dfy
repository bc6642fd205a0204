// How a write statement changes one row: which value each column receives, which row the
// identity condition selects, and when the entity is refused before anything is sent.

module WriteProofs {
  import opened Results
  import opened Decimals
  import opened Mapping
  import opened Values
  import opened Compiler
  import opened Entity
  import opened Repository
  import opened SqlGrammar
  import opened SqlSemantics
  import opened SqlStatements
  import opened Intended
  import opened MeaningProofs
  import opened StatementProofs
  import opened Placeholders
  import opened StatementPlaceholders
  import opened FindTheorems
  import opened Stores

  // ----- Values -----

  lemma {:induction false} StoresIfFits(kind: PgScalarKind, value: PgValue)
    ensures NormalizeEntityBinding(kind, value).Ok? <==> FitsStored(kind, value)
    ensures NormalizeEntityBinding(kind, value).Err? && !value.Default? ==>
              NormalizeEntityBinding(kind, value).kind == Validation
    ensures value.Default? ==> NormalizeEntityBinding(kind, value) == Err(Infrastructure)
  {
  }

  /** A stored value's placeholder, under its column's cast, yields the value itself. */
  lemma {:induction false} StoredMeans(server: Server, kind: PgScalarKind, value: PgValue, index: nat, row: Row, binds: seq<Value>)
    requires NormalizeEntityBinding(kind, value).Ok?
    requires index < |binds| && binds[index] == BindValue(NormalizeEntityBinding(kind, value).value)
    ensures Eval(server, ParamExpr(index + 1, PlaceholderCast(kind)), row, binds) == Some(StoredValue(server, value))
    ensures HasKind(StoredValue(server, value), kind)
  {
    TypeOfCast(kind);
    assert Eval(server, EParam(index + 1), row, binds) == Some(binds[index]);
    if value.I64? {
      IntTextRoundTrip(value.i);
    } else if value.U64? {
      IntTextRoundTrip(value.u);
    }
  }

  // ----- Refusals -----

  lemma {:induction false} SourcesRefuse(m: EntityMapping, e: Encoded, fs: seq<FieldName>, n: nat)
    requires forall f | f in fs :: f in m.fields
    ensures match Refusal(m, e, fs)
            case Some(kind) => SourceItems(m, e, fs, n) == Err(kind) && AssignmentItems(m, e, fs, n) == Err(kind)
            case None => SourceItems(m, e, fs, n).Ok? && AssignmentItems(m, e, fs, n).Ok? && Writable(m, e, fs)
    decreases |fs|
  {
    if fs != [] {
      ItemRefuses(m, e, fs[0], n);
      if SourceItem(m, e, fs[0], n).Ok? {
        assert forall f | f in fs[1..] :: f in fs;
        SourcesRefuse(m, e, fs[1..], n + |SourceItem(m, e, fs[0], n).value.bindings|);
        assert forall f | f in fs :: f == fs[0] || f in fs[1..];
      }
    }
  }

  lemma {:induction false} ItemRefuses(m: EntityMapping, e: Encoded, field: FieldName, n: nat)
    requires field in m.fields
    ensures match EntityValue(m, e, field)
            case Err(kind) => SourceItem(m, e, field, n) == Err(kind)
            case Ok(value) =>
              if value.Default? || FitsStored(m.fields[field].kind, value) then SourceItem(m, e, field, n).Ok?
              else SourceItem(m, e, field, n) == Err(Validation)
  {
    if EntityValue(m, e, field).Ok? {
      StoresIfFits(m.fields[field].kind, EntityValue(m, e, field).value);
    }
  }

  lemma {:induction false} IdRefuses(m: EntityMapping, id: Result<PgValue>)
    requires m.idField in m.fields
    ensures match IdRefusal(m, id)
            case Some(kind) => IdBinding(m, id) == Err(kind)
            case None =>
              && IdBinding(m, id).Ok? && id.Ok? && !id.value.Null?
              && NormalizeEntityBinding(m.fields[m.idField].kind, id.value) == IdBinding(m, id)
  {
    if id.Ok? {
      StoresIfFits(m.fields[m.idField].kind, id.value);
    }
  }

  // ----- Columns -----

  /** No two fields share a physical column. */
  predicate DistinctColumns(fields: FieldMap) {
    forall f, g | f in fields && g in fields && f != g :: fields[f].identifier != fields[g].identifier
  }

  lemma {:induction false} SourceMeans(
    server: Server, m: EntityMapping, e: Encoded, field: FieldName, n: nat, schema: Schema, defaults: Row,
    binds: seq<Value>, bs: seq<PgBindValue>)
    requires field in m.fields && EntityValue(m, e, field).Ok? && InSchema(m, schema) && RowFits(schema, defaults)
    requires Bound(bs, FieldSlots(m, e, field)) && BoundAt(binds, n, bs)
    ensures var column := m.fields[field];
            SourceValue(server, column.kind, SourceOf(m, e, field, n), defaults[column.identifier], binds)
            == Some(FieldValue(server, m, e, field, defaults))
    ensures HasKind(FieldValue(server, m, e, field, defaults), m.fields[field].kind)
  {
    var value := EntityValue(m, e, field).value;
    if !value.Default? {
      var slots := FieldSlots(m, e, field);
      assert SlotBinding(slots[0]) == Ok(bs[0]) && binds[n + 0] == BindValue(bs[0]);
      StoredMeans(server, m.fields[field].kind, value, n, map[], binds);
    }
  }

  lemma {:induction false} WrittenStep(
    server: Server, m: EntityMapping, e: Encoded, fs: seq<FieldName>, base: Row, defaults: Row, row: Row)
    requires fs != [] && Writable(m, e, fs) && (forall f | f in fs :: m.fields[f].identifier in defaults)
    requires m.fields[fs[0]].identifier in base
    requires forall f | f in fs[1..] :: m.fields[f].identifier != m.fields[fs[0]].identifier
    requires Written(server, m, e, fs[1..],
                     base[m.fields[fs[0]].identifier := FieldValue(server, m, e, fs[0], defaults)], defaults, row)
    ensures Written(server, m, e, fs, base, defaults, row)
  {
    assert forall f | f in fs :: f == fs[0] || f in fs[1..];
    assert forall f | f in fs[1..] :: f in fs;
  }

  lemma {:induction false} BoundSplits(bs: seq<PgBindValue>, left: seq<Slot>, right: seq<Slot>)
    requires Bound(bs, left + right)
    ensures Bound(bs[..|left|], left) && Bound(bs[|left|..], right) && bs == bs[..|left|] + bs[|left|..]
  {
    forall k | 0 <= k < |left| ensures SlotBinding(left[k]) == Ok(bs[..|left|][k]) {
      assert (left + right)[k] == left[k];
    }
    forall k | 0 <= k < |right| ensures SlotBinding(right[k]) == Ok(bs[|left|..][k]) {
      assert (left + right)[|left| + k] == right[k];
    }
  }

  lemma {:induction false} TailDistinct(m: EntityMapping, fs: seq<FieldName>)
    requires fs != [] && NoDuplicates(fs) && DistinctColumns(m.fields) && forall f | f in fs :: f in m.fields
    ensures NoDuplicates(fs[1..]) && forall f | f in fs[1..] :: m.fields[f].identifier != m.fields[fs[0]].identifier
    ensures m.fields[fs[0]].identifier !in NamesOf(m.fields, fs)[1..]
  {
    assert forall i | 0 <= i < |fs[1..]| :: fs[1..][i] == fs[i + 1];
  }

  lemma {:induction false} AssignNothing(
    server: Server, m: EntityMapping, e: Encoded, n: nat, schema: Schema, base: Row, defaults: Row, binds: seq<Value>)
    ensures Assign(server, schema, base, NamesOf(m.fields, []), SourcesOf(m, e, [], n), defaults, binds) == Some(base)
  {
  }

  lemma {:induction false} AssignFirst(
    server: Server, schema: Schema, base: Row, column: string, columns: seq<string>, source: Source,
    sources: seq<Source>, defaults: Row, binds: seq<Value>)
    requires |columns| == |sources| && column in schema && column in defaults && column !in columns
    requires SourceValue(server, schema[column], source, defaults[column], binds).Some?
    ensures Assign(server, schema, base, [column] + columns, [source] + sources, defaults, binds)
         == Assign(server, schema,
                   base[column := SourceValue(server, schema[column], source, defaults[column], binds).value],
                   columns, sources, defaults, binds)
  {
    assert ([column] + columns)[1..] == columns && ([source] + sources)[1..] == sources;
  }

  lemma {:induction false} AssignCons(
    server: Server, m: EntityMapping, e: Encoded, fs: seq<FieldName>, n: nat, schema: Schema, base: Row,
    defaults: Row, binds: seq<Value>) returns (next: Row, k: nat)
    requires fs != [] && Writable(m, e, fs) && InSchema(m, schema) && RowFits(schema, defaults)
    requires m.fields[fs[0]].identifier !in NamesOf(m.fields, fs)[1..]
    requires var column := m.fields[fs[0]];
             SourceValue(server, column.kind, SourceOf(m, e, fs[0], n), defaults[column.identifier], binds)
             == Some(FieldValue(server, m, e, fs[0], defaults))
    ensures next == base[m.fields[fs[0]].identifier := FieldValue(server, m, e, fs[0], defaults)]
    ensures k == n + Takes(m, e, fs[0])
    ensures Assign(server, schema, base, NamesOf(m.fields, fs), SourcesOf(m, e, fs, n), defaults, binds)
         == Assign(server, schema, next, NamesOf(m.fields, fs[1..]), SourcesOf(m, e, fs[1..], k), defaults, binds)
  {
    next, k := base[m.fields[fs[0]].identifier := FieldValue(server, m, e, fs[0], defaults)], n + Takes(m, e, fs[0]);
    NamesCons(m.fields, fs);
    AssignmentsCons(m, e, fs, n);
    AssignFirst(server, schema, base, m.fields[fs[0]].identifier, NamesOf(m.fields, fs[1..]), SourceOf(m, e, fs[0], n),
                SourcesOf(m, e, fs[1..], k), defaults, binds);
  }

  lemma {:induction false} FirstBindings(
    m: EntityMapping, e: Encoded, fs: seq<FieldName>, n: nat, binds: seq<Value>, bs: seq<PgBindValue>)
    returns (own: seq<PgBindValue>, rest: seq<PgBindValue>)
    requires fs != [] && Writable(m, e, fs)
    requires Bound(bs, StoredSlots(m, e, fs)) && BoundAt(binds, n, bs)
    ensures Bound(own, FieldSlots(m, e, fs[0])) && BoundAt(binds, n, own)
    ensures Bound(rest, StoredSlots(m, e, fs[1..])) && BoundAt(binds, n + Takes(m, e, fs[0]), rest)
  {
    var first := FieldSlots(m, e, fs[0]);
    BoundSplits(bs, first, StoredSlots(m, e, fs[1..]));
    own, rest := bs[..|first|], bs[|first|..];
    BoundInside(binds, n, bs, own, rest);
  }

  /** The first source reaches its column; the others keep theirs. */
  lemma {:induction false} FirstAssigned(
    server: Server, m: EntityMapping, e: Encoded, fs: seq<FieldName>, n: nat, schema: Schema, base: Row,
    defaults: Row, binds: seq<Value>, bs: seq<PgBindValue>) returns (rest: seq<PgBindValue>, next: Row, k: nat)
    requires fs != [] && Writable(m, e, fs) && NoDuplicates(fs) && DistinctColumns(m.fields) && InSchema(m, schema)
    requires RowFits(schema, base) && RowFits(schema, defaults)
    requires Bound(bs, StoredSlots(m, e, fs)) && BoundAt(binds, n, bs)
    ensures next == base[m.fields[fs[0]].identifier := FieldValue(server, m, e, fs[0], defaults)]
    ensures RowFits(schema, next)
    ensures Bound(rest, StoredSlots(m, e, fs[1..])) && BoundAt(binds, k, rest)
    ensures Assign(server, schema, base, NamesOf(m.fields, fs), SourcesOf(m, e, fs, n), defaults, binds)
         == Assign(server, schema, next, NamesOf(m.fields, fs[1..]), SourcesOf(m, e, fs[1..], k), defaults, binds)
  {
    var own;
    own, rest := FirstBindings(m, e, fs, n, binds, bs);
    SourceMeans(server, m, e, fs[0], n, schema, defaults, binds, own);
    TailDistinct(m, fs);
    next, k := AssignCons(server, m, e, fs, n, schema, base, defaults, binds);
  }

  /** The columns of an INSERT or UPDATE receive their own values, whatever their order. */
  lemma {:induction false} AssignMeans(
    server: Server, m: EntityMapping, e: Encoded, fs: seq<FieldName>, n: nat, schema: Schema, base: Row,
    defaults: Row, binds: seq<Value>, bs: seq<PgBindValue>) returns (row: Row)
    requires Writable(m, e, fs) && NoDuplicates(fs) && DistinctColumns(m.fields) && InSchema(m, schema)
    requires RowFits(schema, base) && RowFits(schema, defaults)
    requires Bound(bs, StoredSlots(m, e, fs)) && BoundAt(binds, n, bs)
    ensures Assign(server, schema, base, NamesOf(m.fields, fs), SourcesOf(m, e, fs, n), defaults, binds) == Some(row)
    ensures RowFits(schema, row) && Written(server, m, e, fs, base, defaults, row)
    decreases |fs|
  {
    if fs == [] {
      AssignNothing(server, m, e, n, schema, base, defaults, binds);
      row := base;
    } else {
      var rest, next, k := FirstAssigned(server, m, e, fs, n, schema, base, defaults, binds, bs);
      TailDistinct(m, fs);
      row := AssignMeans(server, m, e, fs[1..], k, schema, next, defaults, binds, rest);
      WrittenStep(server, m, e, fs, base, defaults, row);
    }
  }

  // ----- The identity condition -----

  /** The identity condition accepts exactly the rows whose key is the identity's value. */
  lemma {:induction false} IdMeans(server: Server, column: PgColumn, id: PgValue, index: nat, row: Row, binds: seq<Value>)
    requires NormalizeEntityBinding(column.kind, id).Ok? && !id.Null?
    requires index < |binds| && binds[index] == BindValue(NormalizeEntityBinding(column.kind, id).value)
    requires column.identifier in row && HasKind(row[column.identifier], column.kind)
    ensures Judge(server, IdExpr(column, index + 1), row, binds)
         == AcceptsIf(row[column.identifier] == StoredValue(server, id))
    ensures !StoredValue(server, id).VNull?
  {
    var v := row[column.identifier];
    StoredMeans(server, column.kind, id, index, row, binds);
    assert Eval(server, EColumn(column.identifier), row, binds) == Some(v);
    if !v.VNull? {
      OneKindOneType(v, StoredValue(server, id), column.kind);
    }
  }
}
