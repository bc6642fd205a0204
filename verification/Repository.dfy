// src/postgres/repository.rs: the statements of the generic repository. As in the
// compiler, functions say what is written and a class writes it.

module Repository {
  import opened Results
  import opened Identifiers
  import opened Mapping
  import opened Values
  import opened Conditions
  import opened Compiler
  import opened Entity

  /**
   * An entity as its codec presents it: the identity value and the value of each other
   * field. A field the codec does not know is a codec error.
   */
  datatype Encoded = Encoded(id: Result<PgValue>, values: map<FieldName, Result<PgValue>>)

  function EntityValue(m: EntityMapping, e: Encoded, field: FieldName): Result<PgValue> {
    if field == m.idField then e.id
    else if field in e.values then e.values[field]
    else Err(Validation)
  }

  // ----- Pieces -----

  function JoinComma(texts: seq<string>): string {
    if |texts| == 0 then ""
    else if |texts| == 1 then texts[0]
    else texts[0] + ", " + JoinComma(texts[1..])
  }

  /** Resolves and quotes each field's column. */
  function QuotedColumns(fields: FieldMap, fs: seq<FieldName>): Result<seq<string>> {
    if fs == [] then Ok([])
    else
      var column :- Resolve(fields, fs[0]);
      var rest :- QuotedColumns(fields, fs[1..]);
      Ok([Quoted(column.identifier)] + rest)
  }

  function SelectedColumns(m: EntityMapping): Result<string> {
    var columns :- QuotedColumns(m.fields, FieldsWith(m, Selecting));
    Ok(JoinComma(columns))
  }

  function SelectPrefix(m: EntityMapping): Result<string> {
    var columns :- SelectedColumns(m);
    Ok("SELECT " + columns + " FROM " + QuotedTable(m.table))
  }

  function AppendFragment(sql: string, fragment: string): string {
    if fragment == "" then sql else sql + " " + fragment
  }

  /** The identity's binding: an identity is never null nor left to the database. */
  function IdBinding(m: EntityMapping, id: Result<PgValue>): Result<PgBindValue> {
    var column :- Resolve(m.fields, m.idField);
    var value :- id;
    if value.Null? || value.Default? then Err(Validation) else NormalizeEntityBinding(column.kind, value)
  }

  function CompiledId(m: EntityMapping, id: Result<PgValue>): Result<PgCompiledQuery> {
    var column :- Resolve(m.fields, m.idField);
    var binding :- IdBinding(m, id);
    Ok(PgCompiledQuery(
         Quoted(column.identifier) + " = " + Placeholder(1, PlaceholderCast(column.kind)), [binding]))
  }

  /** What one written field contributes: `DEFAULT`, or the next placeholder and its binding. */
  function SourceItem(m: EntityMapping, e: Encoded, field: FieldName, n: nat): Result<PgCompiledQuery> {
    var column :- Resolve(m.fields, field);
    var value :- EntityValue(m, e, field);
    if value.Default? then Ok(PgCompiledQuery("DEFAULT", []))
    else
      var binding :- NormalizeEntityBinding(column.kind, value);
      Ok(PgCompiledQuery(Placeholder(n + 1, PlaceholderCast(column.kind)), [binding]))
  }

  datatype Sources = Sources(texts: seq<string>, bindings: seq<PgBindValue>)

  /** The items of all fields in order; `n` bindings are pushed before them. */
  function SourceItems(m: EntityMapping, e: Encoded, fs: seq<FieldName>, n: nat): Result<Sources> {
    if fs == [] then Ok(Sources([], []))
    else
      var item :- SourceItem(m, e, fs[0], n);
      var rest :- SourceItems(m, e, fs[1..], n + |item.bindings|);
      Ok(Sources([item.sql] + rest.texts, item.bindings + rest.bindings))
  }

  /** The same for an UPDATE, each item after its column. */
  function AssignmentItems(m: EntityMapping, e: Encoded, fs: seq<FieldName>, n: nat): Result<Sources> {
    if fs == [] then Ok(Sources([], []))
    else
      var item :- SourceItem(m, e, fs[0], n);
      var rest :- AssignmentItems(m, e, fs[1..], n + |item.bindings|);
      Ok(Sources([Quoted(m.fields[fs[0]].identifier) + " = " + item.sql] + rest.texts, item.bindings + rest.bindings))
  }

  function Returning(m: EntityMapping, returning: bool, q: PgCompiledQuery): Result<PgCompiledQuery> {
    if !returning then Ok(q)
    else
      var columns :- SelectedColumns(m);
      Ok(PgCompiledQuery(q.sql + " RETURNING " + columns, q.bindings))
  }

  // ----- Statements -----

  function InsertStatement(m: EntityMapping, e: Encoded, returning: bool): Result<PgCompiledQuery> {
    var fs := FieldsWith(m, Inserting);
    if fs == [] then
      Returning(m, returning, PgCompiledQuery("INSERT INTO " + QuotedTable(m.table) + " DEFAULT VALUES", []))
    else
      var columns :- QuotedColumns(m.fields, fs);
      var sources :- SourceItems(m, e, fs, 0);
      var sql := "INSERT INTO " + QuotedTable(m.table)
                 + " (" + JoinComma(columns) + ") VALUES (" + JoinComma(sources.texts) + ")";
      Returning(m, returning, PgCompiledQuery(sql, sources.bindings))
  }

  function Without(fs: seq<FieldName>, f: FieldName): (r: seq<FieldName>)
    ensures forall g :: g in r <==> g in fs && g != f
  {
    if fs == [] then [] else if fs[0] == f then Without(fs[1..], f) else [fs[0]] + Without(fs[1..], f)
  }

  /** A replacement writes the updatable fields other than the identity. */
  function ReplacedFields(m: EntityMapping): seq<FieldName> {
    Without(FieldsWith(m, Updating), m.idField)
  }

  /** An UPDATE around its assignments; the identity comes last. */
  function ReplaceText(m: EntityMapping, e: Encoded, returning: bool, sources: Sources): Result<PgCompiledQuery> {
    var column :- Resolve(m.fields, m.idField);
    var binding :- IdBinding(m, e.id);
    var placeholder := Placeholder(|sources.bindings| + 1, PlaceholderCast(column.kind));
    var sql := "UPDATE " + QuotedTable(m.table) + " SET " + JoinComma(sources.texts)
               + " WHERE " + Quoted(column.identifier) + " = " + placeholder;
    Returning(m, returning, PgCompiledQuery(sql, sources.bindings + [binding]))
  }

  function ReplaceStatement(m: EntityMapping, e: Encoded, returning: bool): Result<PgCompiledQuery> {
    var fs := ReplacedFields(m);
    if fs == [] then Err(Unsupported)
    else
      var sources :- AssignmentItems(m, e, fs, 0);
      ReplaceText(m, e, returning, sources)
  }

  function GetStatement(m: EntityMapping, id: Result<PgValue>): Result<PgCompiledQuery> {
    var condition :- CompiledId(m, id);
    var prefix :- SelectPrefix(m);
    Ok(PgCompiledQuery(prefix + " WHERE " + condition.sql, condition.bindings))
  }

  function RemoveStatement(m: EntityMapping, id: Result<PgValue>): Result<PgCompiledQuery> {
    var condition :- CompiledId(m, id);
    Ok(PgCompiledQuery("DELETE FROM " + QuotedTable(m.table) + " WHERE " + condition.sql, condition.bindings))
  }

  function FindStatement(m: EntityMapping, params: FindParams): Result<PgCompiledQuery> {
    var fragment :- FindFragment(m.fields, params);
    var prefix :- SelectPrefix(m);
    Ok(PgCompiledQuery(AppendFragment(prefix, fragment.sql), fragment.bindings))
  }

  function CountStatement(m: EntityMapping, params: FindParams): Result<PgCompiledQuery> {
    var fragment :- CountFragment(m.fields, params);
    Ok(PgCompiledQuery(
         AppendFragment("SELECT COUNT(*) AS count FROM " + QuotedTable(m.table), fragment.sql), fragment.bindings))
  }

  // ----- The repository -----

  class PgRepository {
    const mapping: EntityMapping
    const compiler: PgQueryCompiler

    constructor (mapping: EntityMapping)
      requires Validate(mapping).Ok?
      ensures this.mapping == mapping && compiler.fields == mapping.fields
    {
      this.mapping := mapping;
      this.compiler := new PgQueryCompiler(mapping.fields);
    }

    method CompileInsert(e: Encoded, returning: bool) returns (r: Result<PgCompiledQuery>)
      ensures r == InsertStatement(mapping, e, returning)
    {
      var fields := FieldsWith(mapping, Inserting);
      var bindings: seq<PgBindValue> := [];
      var sql;
      if fields == [] {
        sql := "INSERT INTO " + QuotedTable(mapping.table) + " DEFAULT VALUES";
      } else {
        var columns := QuotedColumns(mapping.fields, fields);
        if columns.Err? {
          return Err(columns.kind);
        }
        var values: seq<string> := [];
        EmptySources(SourceItems(mapping, e, fields, 0));
        for i := 0 to |fields|
          invariant Before(Sources(values, bindings), SourceItems(mapping, e, fields[i..], |bindings|))
                 == SourceItems(mapping, e, fields, 0)
        {
          assert fields[i..][0] == fields[i] && fields[i..][1..] == fields[i + 1..];
          var column := Resolve(mapping.fields, fields[i]);
          if column.Err? {
            return Err(column.kind);
          }
          var value := EntityValue(mapping, e, fields[i]);
          if value.Err? {
            return Err(value.kind);
          }
          ghost var before := Sources(values, bindings);
          if value.value.Default? {
            values := values + ["DEFAULT"];
          } else {
            var binding := NormalizeEntityBinding(column.value.kind, value.value);
            if binding.Err? {
              return Err(binding.kind);
            }
            bindings := bindings + [binding.value];
            values := values + [Placeholder(|bindings|, PlaceholderCast(column.value.kind))];
          }
          ghost var item := SourceItem(mapping, e, fields[i], |before.bindings|).value;
          assert bindings == before.bindings + item.bindings && values == before.texts + [item.sql];
          BeforeBefore(before, item, SourceItems(mapping, e, fields[i + 1..], |bindings|));
        }
        assert fields[|fields|..] == [];
        SourcesEnd(Sources(values, bindings));
        sql := "INSERT INTO " + QuotedTable(mapping.table)
        + " (" + JoinComma(columns.value) + ") VALUES (" + JoinComma(values) + ")";
      }
      if returning {
        var selected := SelectedColumns(mapping);
        if selected.Err? {
          return Err(selected.kind);
        }
        sql := sql + " RETURNING " + selected.value;
      }
      r := Ok(PgCompiledQuery(sql, bindings));
    }

    method CompileReplace(e: Encoded, returning: bool) returns (r: Result<PgCompiledQuery>)
      ensures r == ReplaceStatement(mapping, e, returning)
    {
      var fields := ReplacedFields(mapping);
      if fields == [] {
        return Err(Unsupported);
      }
      var bindings: seq<PgBindValue> := [];
      var assignments: seq<string> := [];
      EmptySources(AssignmentItems(mapping, e, fields, 0));
      for i := 0 to |fields|
        invariant Before(Sources(assignments, bindings), AssignmentItems(mapping, e, fields[i..], |bindings|))
               == AssignmentItems(mapping, e, fields, 0)
      {
        assert fields[i..][0] == fields[i] && fields[i..][1..] == fields[i + 1..];
        var column := Resolve(mapping.fields, fields[i]);
        if column.Err? {
          return Err(column.kind);
        }
        var value := EntityValue(mapping, e, fields[i]);
        if value.Err? {
          return Err(value.kind);
        }
        ghost var before := Sources(assignments, bindings);
        var expression;
        if value.value.Default? {
          expression := "DEFAULT";
        } else {
          var binding := NormalizeEntityBinding(column.value.kind, value.value);
          if binding.Err? {
            return Err(binding.kind);
          }
          bindings := bindings + [binding.value];
          expression := Placeholder(|bindings|, PlaceholderCast(column.value.kind));
        }
        assignments := assignments + [Quoted(column.value.identifier) + " = " + expression];
        ghost var item := SourceItem(mapping, e, fields[i], |before.bindings|).value;
        assert bindings == before.bindings + item.bindings;
        ghost var text := Quoted(column.value.identifier) + " = " + item.sql;
        BeforeBefore(before, PgCompiledQuery(text, item.bindings),
                     AssignmentItems(mapping, e, fields[i + 1..], |bindings|));
      }
      assert fields[|fields|..] == [];
      SourcesEnd(Sources(assignments, bindings));
      r := CloseReplace(e, returning, assignments, bindings);
    }

    /** The rest of the replacement, once its assignments are written. */
    method CloseReplace(e: Encoded, returning: bool, assignments: seq<string>, bindings: seq<PgBindValue>)
      returns (r: Result<PgCompiledQuery>)
      ensures r == ReplaceText(mapping, e, returning, Sources(assignments, bindings))
    {
      var idColumn := Resolve(mapping.fields, mapping.idField);
      if idColumn.Err? {
        return Err(idColumn.kind);
      }
      if e.id.Err? {
        return Err(e.id.kind);
      }
      if e.id.value.Null? || e.id.value.Default? {
        return Err(Validation);
      }
      var idBinding := NormalizeEntityBinding(idColumn.value.kind, e.id.value);
      if idBinding.Err? {
        return Err(idBinding.kind);
      }
      var sent := bindings + [idBinding.value];
      var idPlaceholder := Placeholder(|sent|, PlaceholderCast(idColumn.value.kind));
      var sql := "UPDATE " + QuotedTable(mapping.table) + " SET " + JoinComma(assignments)
      + " WHERE " + Quoted(idColumn.value.identifier) + " = " + idPlaceholder;
      if returning {
        var selected := SelectedColumns(mapping);
        if selected.Err? {
          return Err(selected.kind);
        }
        sql := sql + " RETURNING " + selected.value;
      }
      r := Ok(PgCompiledQuery(sql, sent));
    }
  }

  /** `PgRepository::new` takes a valid mapping and compiles with its fields. */
  method NewRepository(mapping: EntityMapping) returns (r: Result<PgRepository>)
    ensures match Validate(mapping)
            case Err(kind) => r == Err(kind)
            case Ok(_) =>
              && r.Ok? && fresh(r.value)
              && r.value.mapping == mapping && r.value.compiler.fields == mapping.fields
  {
    var valid := Validate(mapping);
    if valid.Err? {
      return Err(valid.kind);
    }
    var repository := new PgRepository(mapping);
    r := Ok(repository);
  }

  // ----- Bookkeeping of the loops -----

  ghost function Before(done: Sources, rest: Result<Sources>): Result<Sources> {
    match rest
    case Ok(s) => Ok(Sources(done.texts + s.texts, done.bindings + s.bindings))
    case Err(kind) => Err(kind)
  }

  lemma {:induction false} EmptySources(rest: Result<Sources>)
    ensures Before(Sources([], []), rest) == rest
  {
    if rest.Ok? {
      assert [] + rest.value.texts == rest.value.texts && [] + rest.value.bindings == rest.value.bindings;
    }
  }

  lemma {:induction false} SourcesEnd(done: Sources)
    ensures Before(done, Ok(Sources([], []))) == Ok(done)
  {
    assert done.texts + [] == done.texts && done.bindings + [] == done.bindings;
  }

  lemma {:induction false} BeforeBefore(done: Sources, item: PgCompiledQuery, rest: Result<Sources>)
    ensures Before(done, Before(Sources([item.sql], item.bindings), rest))
         == Before(Sources(done.texts + [item.sql], done.bindings + item.bindings), rest)
  {
    if rest.Ok? {
      Assoc(done.texts, [item.sql], rest.value.texts);
      Assoc(done.bindings, item.bindings, rest.value.bindings);
    }
  }
}
