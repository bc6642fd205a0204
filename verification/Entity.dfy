// src/postgres/entity.rs: tables, and the mapping from an entity's fields to columns.

module Entity {
  import opened Results
  import opened Identifiers
  import opened Mapping

  datatype PgTable = PgTable(schema: Option<PgIdentifier>, name: PgIdentifier)

  function QuotedTable(table: PgTable): string {
    match table.schema
    case Some(schema) => Quoted(schema) + "." + Quoted(table.name)
    case None => Quoted(table.name)
  }

  /** The three statements a field may take part in. */
  datatype Role = Selecting | Inserting | Updating

  predicate Allows(permissions: PgFieldPermissions, role: Role) {
    match role
    case Selecting => permissions.selectable
    case Inserting => permissions.insertable
    case Updating => permissions.updatable
  }

  predicate Participates(permissions: PgFieldPermissions) {
    permissions.selectable || permissions.insertable || permissions.updatable
  }

  /** What a finished mapping holds. */
  datatype EntityMapping = EntityMapping(
    table: PgTable, idField: FieldName, fields: FieldMap, orderedFields: seq<FieldName>)

  predicate FieldAllows(fields: FieldMap, role: Role, f: FieldName) {
    f in fields && Allows(fields[f].permissions, role)
  }

  /** `fields_matching`: the mapped fields with a role, in statement order. */
  function Matching(fields: FieldMap, ordered: seq<FieldName>, role: Role): (r: seq<FieldName>)
    ensures forall f :: f in r <==> f in ordered && FieldAllows(fields, role, f)
  {
    if ordered == [] then []
    else if FieldAllows(fields, role, ordered[0]) then [ordered[0]] + Matching(fields, ordered[1..], role)
    else Matching(fields, ordered[1..], role)
  }

  function FieldsWith(m: EntityMapping, role: Role): seq<FieldName> {
    Matching(m.fields, m.orderedFields, role)
  }

  /** `validate`, with its four checks in the source's order. */
  function Validate(m: EntityMapping): Result<()> {
    if m.orderedFields == [] then Err(Validation)
    else if m.idField !in m.fields then Err(Validation)
    else if !m.fields[m.idField].permissions.selectable then Err(Validation)
    else if FieldsWith(m, Selecting) == [] then Err(Validation)
    else Ok(())
  }

  // ----- Builder chains -----

  /** The arguments of one builder call; `logical` is what `FieldName::new` makes of the name. */
  datatype FieldStep = FieldStep(
    logical: Result<FieldName>, physical: string, kind: PgScalarKind, permissions: PgFieldPermissions)

  /** One `with_field_permissions`, on values. */
  function Added(m: EntityMapping, step: FieldStep): Result<EntityMapping> {
    if !Participates(step.permissions) then Err(Validation)
    else
      var logical :- step.logical;
      if !ValidIdentifier(step.physical) || logical in m.fields then Err(Validation)
      else
        Ok(m.(fields := m.fields[logical := PgColumn(step.physical, step.kind, step.permissions)],
              orderedFields := m.orderedFields + [logical]))
  }

  /** A whole chain; the first error ends it. */
  function Built(m: EntityMapping, steps: seq<FieldStep>): Result<EntityMapping>
    decreases |steps|
  {
    if steps == [] then Ok(m)
    else
      var next :- Added(m, steps[0]);
      Built(next, steps[1..])
  }

  function Started(table: PgTable, idField: FieldName): EntityMapping {
    EntityMapping(table, idField, map[], [])
  }

  predicate NoDuplicates(fs: seq<FieldName>) {
    forall i, j | 0 <= i < j < |fs| :: fs[i] != fs[j]
  }

  /** The ordered fields name each mapped field exactly once, and every column takes part in something. */
  ghost predicate WellBuilt(m: EntityMapping) {
    && NoDuplicates(m.orderedFields)
    && (forall f :: f in m.orderedFields <==> f in m.fields)
    && (forall f | f in m.fields :: Participates(m.fields[f].permissions))
  }

  predicate Named(steps: seq<FieldStep>) {
    forall i | 0 <= i < |steps| :: steps[i].logical.Ok?
  }

  /** The logical names of a chain, in the order of its calls. */
  function LogicalNames(steps: seq<FieldStep>): (names: seq<FieldName>)
    requires Named(steps)
    ensures |names| == |steps| && forall i | 0 <= i < |steps| :: names[i] == steps[i].logical.value
  {
    seq(|steps|, i requires 0 <= i < |steps| => steps[i].logical.value)
  }

  lemma {:induction false} AddedKeepsWellBuilt(m: EntityMapping, step: FieldStep)
    requires WellBuilt(m) && Added(m, step).Ok?
    ensures WellBuilt(Added(m, step).value)
  {
    var next := Added(m, step).value;
    assert forall f :: f in next.orderedFields <==> f in m.orderedFields || f == step.logical.value;
  }

  lemma {:induction false} LogicalNamesCons(steps: seq<FieldStep>)
    requires steps != [] && steps[0].logical.Ok? && Named(steps[1..])
    ensures Named(steps) && LogicalNames(steps) == [steps[0].logical.value] + LogicalNames(steps[1..])
  {
    assert forall i | 0 < i < |steps| :: steps[i] == steps[1..][i - 1];
  }

  /** An order extended by one name, then by the others, is extended by them all. */
  lemma {:induction false} OneThenTheOthers<T>(order: seq<T>, first: T, others: seq<T>)
    ensures order + [first] + others == order + ([first] + others)
  {
  }

  lemma {:induction false} BuiltKeepsWellBuilt(m: EntityMapping, steps: seq<FieldStep>)
    requires WellBuilt(m) && Built(m, steps).Ok?
    ensures WellBuilt(Built(m, steps).value)
    decreases |steps|
  {
    if steps != [] {
      AddedKeepsWellBuilt(m, steps[0]);
      BuiltKeepsWellBuilt(Added(m, steps[0]).value, steps[1..]);
    }
  }

  lemma {:induction false} BuiltKeepsOrder(m: EntityMapping, steps: seq<FieldStep>)
    requires Built(m, steps).Ok?
    ensures Named(steps)
    ensures Built(m, steps).value.orderedFields == m.orderedFields + LogicalNames(steps)
    ensures Built(m, steps).value.table == m.table && Built(m, steps).value.idField == m.idField
    decreases |steps|
  {
    if steps == [] {
      assert m.orderedFields + [] == m.orderedFields;
    } else {
      var next := Added(m, steps[0]).value;
      BuiltKeepsOrder(next, steps[1..]);
      LogicalNamesCons(steps);
      OneThenTheOthers(m.orderedFields, steps[0].logical.value, LogicalNames(steps[1..]));
    }
  }

  /** Every mapping a builder chain reaches is well built, and its order is the order of the calls. */
  lemma {:induction false} ReachableMappings(table: PgTable, idField: FieldName, steps: seq<FieldStep>)
    requires Built(Started(table, idField), steps).Ok?
    ensures var m := Built(Started(table, idField), steps).value;
            && WellBuilt(m) && Named(steps)
            && m.orderedFields == LogicalNames(steps)
            && forall f | f in m.orderedFields :: Resolve(m.fields, f).Ok?
  {
    BuiltKeepsWellBuilt(Started(table, idField), steps);
    BuiltKeepsOrder(Started(table, idField), steps);
    assert [] + LogicalNames(steps) == LogicalNames(steps);
  }

  lemma {:induction false} BuiltExtends(m: EntityMapping, steps: seq<FieldStep>)
    requires Built(m, steps).Ok?
    ensures Extends(m.fields, Built(m, steps).value.fields)
    decreases |steps|
  {
    if steps != [] {
      BuiltExtends(Added(m, steps[0]).value, steps[1..]);
    }
  }

  /** A chain maps each name to the column its own call describes. */
  lemma {:induction false} BuiltColumn(m: EntityMapping, steps: seq<FieldStep>, i: nat)
    requires Built(m, steps).Ok? && i < |steps|
    ensures steps[i].logical.Ok? && ValidIdentifier(steps[i].physical)
    ensures var fields := Built(m, steps).value.fields;
            && steps[i].logical.value in fields
            && fields[steps[i].logical.value] == PgColumn(steps[i].physical, steps[i].kind, steps[i].permissions)
    decreases i
  {
    var next := Added(m, steps[0]).value;
    if i == 0 {
      BuiltExtends(next, steps[1..]);
    } else {
      BuiltColumn(next, steps[1..], i - 1);
    }
  }

  predicate StepFine(step: FieldStep) {
    Participates(step.permissions) && step.logical.Ok? && ValidIdentifier(step.physical)
  }

  /** A chain succeeds exactly when each call is fine by itself and no logical name comes twice. */
  lemma {:induction false} ChainSucceedsExactlyWhen(m: EntityMapping, steps: seq<FieldStep>)
    ensures Built(m, steps).Ok?
       <==> && (forall i | 0 <= i < |steps| ::
                  && (steps[i].permissions.selectable || steps[i].permissions.insertable || steps[i].permissions.updatable)
                  && steps[i].logical.Ok? && steps[i].logical.value !in m.fields
                  && ValidIdentifier(steps[i].physical))
            && (forall i, j | 0 <= i < j < |steps| :: steps[i].logical != steps[j].logical)
    decreases |steps|
  {
    if steps != [] {
      var rest := steps[1..];
      assert forall i | 0 < i < |steps| :: steps[i] == rest[i - 1];
      assert forall i | 0 <= i < |rest| :: rest[i] == steps[i + 1];
      if Added(m, steps[0]).Ok? {
        ChainSucceedsExactlyWhen(Added(m, steps[0]).value, rest);
      }
    }
  }

  /** On a well-built mapping two of the four checks of `validate` can never be the ones that fail. */
  lemma {:induction false} ValidateIsTheIdentityCheck(m: EntityMapping)
    requires WellBuilt(m)
    ensures Validate(m).Ok? <==> m.idField in m.fields && m.fields[m.idField].permissions.selectable
    ensures Validate(m).Err? ==> Validate(m).kind == Validation
  {
    if m.idField in m.fields && m.fields[m.idField].permissions.selectable {
      assert m.idField in m.orderedFields;
      assert FieldAllows(m.fields, Selecting, m.idField);
      assert m.idField in FieldsWith(m, Selecting);
    }
  }

  /** `r` is what remains of `s` after leaving some elements out. */
  predicate Subsequence(r: seq<FieldName>, s: seq<FieldName>)
    decreases |s|
  {
    r == [] || (s != [] && ((r[0] == s[0] && Subsequence(r[1..], s[1..])) || Subsequence(r, s[1..])))
  }

  /** The fields of a role, which are all that have it, keep the statement order and come once. */
  lemma {:induction false} MatchingKeepsOrder(fields: FieldMap, ordered: seq<FieldName>, role: Role)
    requires NoDuplicates(ordered)
    ensures NoDuplicates(Matching(fields, ordered, role))
    ensures Subsequence(Matching(fields, ordered, role), ordered)
    ensures forall f :: f in Matching(fields, ordered, role) <==>
              && f in ordered && f in fields
              && match role
                 case Selecting => fields[f].permissions.selectable
                 case Inserting => fields[f].permissions.insertable
                 case Updating => fields[f].permissions.updatable
  {
    if ordered != [] {
      var rest := ordered[1..];
      assert forall i | 0 <= i < |rest| :: rest[i] == ordered[i + 1];
      assert ordered[0] !in rest;
      MatchingKeepsOrder(fields, rest, role);
      var tail := Matching(fields, rest, role);
      assert ([ordered[0]] + tail)[1..] == tail;
      forall i | 0 <= i < |tail| ensures tail[i] != ordered[0] {
        assert tail[i] in tail;
      }
    }
  }

  class PgEntityMapping {
    const table: PgTable
    const idField: FieldName
    const fields: PgFieldMap
    var orderedFields: seq<FieldName>

    /** The contents, as a value. */
    function Contents(): EntityMapping
      reads this, fields
    {
      EntityMapping(table, idField, fields.columns, orderedFields)
    }

    constructor (table: PgTable, idField: FieldName)
      ensures Contents() == Started(table, idField) && fields.columns == map[] && orderedFields == []
      ensures fresh(fields)
    {
      this.table, this.idField := table, idField;
      this.fields := new PgFieldMap();
      this.orderedFields := [];
    }

    /**
     * A refused call leaves the order alone. It leaves the map alone too, unless the name is
     * a duplicate: that one has by then overwritten the old column, which is why the source's
     * builders give the damaged mapping up.
     */
    method WithFieldPermissions(
      logical: Result<FieldName>, physical: string, kind: PgScalarKind, permissions: PgFieldPermissions)
      returns (r: Result<()>)
      modifies this`orderedFields, fields
      ensures match Added(old(Contents()), FieldStep(logical, physical, kind, permissions))
              case Ok(m) => r.Ok? && Contents() == m
              case Err(e) => r == Err(e) && orderedFields == old(orderedFields)
      ensures r == if !permissions.selectable && !permissions.insertable && !permissions.updatable then Err(Validation)
                   else if logical.Err? then Err(logical.kind)
                   else if !ValidIdentifier(physical) || logical.value in old(fields.columns) then Err(Validation)
                   else Ok(())
      ensures fields.columns == if StepFine(FieldStep(logical, physical, kind, permissions))
                                then old(fields.columns)[logical.value := PgColumn(physical, kind, permissions)]
                                else old(fields.columns)
    {
      if !permissions.selectable && !permissions.insertable && !permissions.updatable {
        return Err(Validation);
      }
      if logical.Err? {
        return Err(logical.kind);
      }
      var inserted := fields.InsertWithPermissions(Ok(logical.value), physical, kind, permissions);
      if inserted.Err? {
        return Err(inserted.kind);
      }
      orderedFields := orderedFields + [logical.value];
      r := Ok(());
    }

    /** Selected, inserted and updated. */
    method WithField(logical: Result<FieldName>, physical: string, kind: PgScalarKind) returns (r: Result<()>)
      modifies this`orderedFields, fields
      ensures match Added(old(Contents()), FieldStep(logical, physical, kind, PgFieldPermissions(true, true, true)))
              case Ok(m) => r.Ok? && Contents() == m
              case Err(e) => r == Err(e) && orderedFields == old(orderedFields)
    {
      r := WithFieldPermissions(logical, physical, kind, PERSISTED);
    }

    /** Selected and inserted; replacements never update it. */
    method WithImmutableField(logical: Result<FieldName>, physical: string, kind: PgScalarKind) returns (r: Result<()>)
      modifies this`orderedFields, fields
      ensures match Added(old(Contents()), FieldStep(logical, physical, kind, PgFieldPermissions(true, true, false)))
              case Ok(m) => r.Ok? && Contents() == m
              case Err(e) => r == Err(e) && orderedFields == old(orderedFields)
    {
      r := WithFieldPermissions(logical, physical, kind, IMMUTABLE);
    }

    /** Selected only; the database generates it. */
    method WithGeneratedField(logical: Result<FieldName>, physical: string, kind: PgScalarKind) returns (r: Result<()>)
      modifies this`orderedFields, fields
      ensures match Added(old(Contents()), FieldStep(logical, physical, kind, PgFieldPermissions(true, false, false)))
              case Ok(m) => r.Ok? && Contents() == m
              case Err(e) => r == Err(e) && orderedFields == old(orderedFields)
    {
      r := WithFieldPermissions(logical, physical, kind, GENERATED);
    }
  }
}
