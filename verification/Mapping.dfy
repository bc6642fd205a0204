// src/postgres/mapping.rs: physical columns and the logical-field allow-list.

module Mapping {
  import opened Results
  import opened Identifiers

  type FieldName = string

  datatype PgScalarKind =
    | Bool
    | Numeric
    | Text
    | Bytes
    | Uuid
    | Json
    | Date
    | Time
    | Timestamp
    | TimestampTz

  datatype PgFieldPermissions = PgFieldPermissions(selectable: bool, insertable: bool, updatable: bool)

  const PERSISTED := PgFieldPermissions(true, true, true)
  const IMMUTABLE := PgFieldPermissions(true, true, false)
  const GENERATED := PgFieldPermissions(true, false, false)

  datatype PgColumn = PgColumn(identifier: PgIdentifier, kind: PgScalarKind, permissions: PgFieldPermissions)

  /** The contents of a `PgFieldMap`; compilers hold a clone of it. */
  type FieldMap = map<FieldName, PgColumn>

  function Resolve(fields: FieldMap, logical: FieldName): Result<PgColumn> {
    if logical in fields then Ok(fields[logical]) else Err(Validation)
  }

  /** A column that is selected, inserted and updated. */
  function Ordinary(physical: PgIdentifier, kind: PgScalarKind): PgColumn {
    PgColumn(physical, kind, PgFieldPermissions(true, true, true))
  }

  /** Adding `more` to `fields` touches no field already mapped. */
  ghost predicate Extends(fields: FieldMap, more: FieldMap) {
    forall f | f in fields :: f in more && more[f] == fields[f]
  }

  class PgFieldMap {
    var columns: FieldMap

    constructor ()
      ensures columns == map[]
    {
      columns := map[];
    }

    /**
     * Inserts in place. `logical` is what `FieldName::new` makes of the name. A duplicate is
     * reported only after the old entry has been overwritten, so a failed call is not a
     * no-op: the exact new state is stated.
     */
    method InsertWithPermissions(
      logical: Result<FieldName>, physical: string, kind: PgScalarKind, permissions: PgFieldPermissions)
      returns (r: Result<()>)
      modifies this
      ensures logical.Err? ==> r == Err(logical.kind) && columns == old(columns)
      ensures logical.Ok? && !ValidIdentifier(physical) ==> r == Err(Validation) && columns == old(columns)
      ensures logical.Ok? && ValidIdentifier(physical) ==>
                && columns == old(columns)[logical.value := PgColumn(physical, kind, permissions)]
                && r == if logical.value in old(columns) then Err(Validation) else Ok(())
    {
      if logical.Err? {
        return Err(logical.kind);
      }
      var identifier := NewIdentifier(physical);
      if identifier.Err? {
        return Err(identifier.kind);
      }
      var column := PgColumn(identifier.value, kind, permissions);
      var previous := logical.value in columns;
      columns := columns[logical.value := column];
      r := if previous then Err(Validation) else Ok(());
    }

    /**
     * `insert` maps an ordinary persisted field. A refused call leaves the map as it was
     * exactly when a name was bad, or the duplicate says what the map said already.
     */
    method Insert(logical: Result<FieldName>, physical: string, kind: PgScalarKind) returns (r: Result<()>)
      modifies this
      ensures r == if logical.Err? then Err(logical.kind)
                   else if !ValidIdentifier(physical) || logical.value in old(columns) then Err(Validation)
                   else Ok(())
      ensures r.Ok? ==> Extends(old(columns), columns)
      ensures columns == if logical.Ok? && ValidIdentifier(physical)
                         then old(columns)[logical.value := Ordinary(physical, kind)] else old(columns)
      ensures r.Err? ==>
                (columns == old(columns)
                 <==> logical.Err? || !ValidIdentifier(physical)
                      || old(columns)[logical.value] == Ordinary(physical, kind))
    {
      r := InsertWithPermissions(logical, physical, kind, PERSISTED);
      assert logical.Ok? && ValidIdentifier(physical) ==> columns[logical.value] == Ordinary(physical, kind);
    }
  }

  /** The second of two inserts under one name is refused, and is the one the map keeps. */
  method RefusedInsertReplaces() returns (fields: PgFieldMap, first: Result<()>, second: Result<()>)
    ensures first == Ok(()) && second == Err(Validation)
    ensures fields.columns == map["name" := Ordinary("nickname", PgScalarKind.Text)]
  {
    fields := new PgFieldMap();
    assert ValidIdentifier("full_name") && ValidIdentifier("nickname");
    first := fields.Insert(Ok("name"), "full_name", PgScalarKind.Text);
    second := fields.Insert(Ok("name"), "nickname", PgScalarKind.Text);
  }
}
