/** The table engine: every write is judged by the declaration of its table. */
module Engine {
  import opened Store
  import opened Schema

  type Key = seq<Value>
  type Rows = map<Key, Row>
  type Tables = map<Tab, Rows>

  /** The ordered values of some columns; the source compares their JSON. */
  function ValuesOf(row: Row, columns: seq<Col>): (k: Key)
    ensures |k| == |columns| && forall i | 0 <= i < |columns| :: k[i] == At(row, columns[i])
  {
    seq(|columns|, i requires 0 <= i < |columns| => At(row, columns[i]))
  }

  // ---- what the declaration asks of a row ----

  predicate Present(v: Value) { v != Null && v != Flag(false) }

  predicate AllPresent(row: Row, columns: seq<Col>) {
    forall i | 0 <= i < |columns| :: Present(At(row, columns[i]))
  }

  predicate AllNull(row: Row, columns: seq<Col>) { forall i | 0 <= i < |columns| :: At(row, columns[i]) == Null }

  /** Whether a partial unique constraint concerns the row. */
  predicate Applies(row: Row, u: UniqueSpec) { AllPresent(row, u.present) && AllNull(row, u.absent) }

  predicate Clash(u: UniqueSpec, a: Row, b: Row) {
    Applies(a, u) && Applies(b, u) && ValuesOf(a, u.columns) == ValuesOf(b, u.columns)
  }

  function Names(spec: TableSpec): set<Col> { set i | 0 <= i < |spec.columns| :: spec.columns[i].name }

  predicate NotNulls(spec: TableSpec, row: Row) {
    forall i | 0 <= i < |spec.columns| :: !spec.columns[i].nullable ==> At(row, spec.columns[i].name) != Null
  }

  /** Exactly the declared columns, with a value where one is needed. */
  predicate ShapeOk(spec: TableSpec, row: Row) { row.Keys == Names(spec) && NotNulls(spec, row) }

  predicate ChecksOk(spec: TableSpec, row: Row) {
    forall i | 0 <= i < |spec.checks| :: spec.checks[i].holds.Some? ==> spec.checks[i].holds.value(row)
  }

  predicate NoClash(u: UniqueSpec, rows: Rows, row: Row, except: Option<Key>) {
    forall k | k in rows && Some(k) != except :: !Clash(u, row, rows[k])
  }

  predicate UniqueOk(spec: TableSpec, rows: Rows, row: Row, except: Option<Key>) {
    forall i | 0 <= i < |spec.unique| :: NoClash(spec.unique[i], rows, row, except)
  }

  predicate SomeNull(row: Row, columns: seq<Col>) { exists i | 0 <= i < |columns| :: At(row, columns[i]) == Null }

  /** Some row of the referenced table carries the values. */
  predicate HasTarget(rows: Rows, references: seq<Col>, values: Key) {
    exists k | k in rows :: ValuesOf(rows[k], references) == values
  }

  predicate ForeignOk(fk: ForeignKey, tables: Tables, row: Row) {
    SomeNull(row, fk.columns)
    || (fk.table in tables && HasTarget(tables[fk.table], fk.references, ValuesOf(row, fk.columns)))
  }

  predicate ForeignsOk(spec: TableSpec, tables: Tables, row: Row) {
    forall i | 0 <= i < |spec.foreignKeys| :: ForeignOk(spec.foreignKeys[i], tables, row)
  }

  // ---- the writes ----

  predicate Admits(spec: TableSpec, tables: Tables, rows: Rows, row: Row) {
    && ShapeOk(spec, row) && ValuesOf(row, spec.primaryKey) !in rows
    && ChecksOk(spec, row) && UniqueOk(spec, rows, row, None) && ForeignsOk(spec, tables, row)
  }

  function Inserting(spec: TableSpec, tables: Tables, rows: Rows, row: Row): (Rows, bool) {
    if Admits(spec, tables, rows, row) then (rows[ValuesOf(row, spec.primaryKey) := row], true) else (rows, false)
  }

  /** The patch names declared columns only, and none of the fixed ones. */
  predicate Patchable(spec: TableSpec, patch: Row) {
    forall c | c in patch :: MayPatch(spec.columns, c)
  }

  /** The first column of that name is there and not fixed. */
  predicate MayPatch(columns: seq<ColumnSpec>, c: Col) {
    exists i | 0 <= i < |columns| :: IsFirst(columns, i, c) && !columns[i].writeOnce
  }

  predicate IsFirst(columns: seq<ColumnSpec>, i: nat, c: Col)
    requires i < |columns|
  {
    columns[i].name == c && forall j | 0 <= j < i :: columns[j].name != c
  }

  /** Foreign keys are not looked at again. */
  predicate Accepts(spec: TableSpec, rows: Rows, pk: Key, patch: Row) {
    pk in rows ==>
      && Patchable(spec, patch)
      && ShapeOk(spec, rows[pk] + patch) && ChecksOk(spec, rows[pk] + patch)
      && UniqueOk(spec, rows, rows[pk] + patch, Some(pk))
  }

  function Updating(spec: TableSpec, rows: Rows, pk: Key, patch: Row): (Rows, bool) {
    if !Accepts(spec, rows, pk, patch) then (rows, false)
    else if pk in rows then (rows[pk := rows[pk] + patch], true)
    else (rows, true)
  }

  class MemoryTable {
    const spec: TableSpec
    var rows: Rows

    constructor (spec: TableSpec)
      ensures this.spec == spec && rows == map[]
    {
      this.spec, rows := spec, map[];
    }

    method ValidateShape(row: Row) returns (ok: bool)
      ensures ok <==> ShapeOk(spec, row)
    {
      var rest := row.Keys;
      while rest != {}
        invariant rest <= row.Keys
        invariant forall c | c in row && c !in rest :: c in Names(spec)
        decreases rest
      {
        var name :| name in rest;
        if name !in Names(spec) { return false; }
        rest := rest - {name};
      }
      var i := 0;
      while i < |spec.columns|
        invariant 0 <= i <= |spec.columns|
        invariant forall j | 0 <= j < i ::
          spec.columns[j].name in row && (!spec.columns[j].nullable ==> At(row, spec.columns[j].name) != Null)
      {
        var column := spec.columns[i];
        if column.name !in row { return false; }
        if row[column.name] == Null && !column.nullable { return false; }
        i := i + 1;
      }
      ok := true;
    }

    method ValidateChecks(row: Row) returns (ok: bool)
      ensures ok <==> ChecksOk(spec, row)
    {
      var i := 0;
      while i < |spec.checks|
        invariant 0 <= i <= |spec.checks|
        invariant forall j | 0 <= j < i :: spec.checks[j].holds.Some? ==> spec.checks[j].holds.value(row)
      {
        if spec.checks[i].holds.Some? && !spec.checks[i].holds.value(row) { return false; }
        i := i + 1;
      }
      ok := true;
    }

    method ValidateUnique(row: Row, existing: Option<Key>) returns (ok: bool)
      ensures ok <==> UniqueOk(spec, rows, row, existing)
    {
      var i := 0;
      while i < |spec.unique|
        invariant 0 <= i <= |spec.unique|
        invariant forall j | 0 <= j < i :: NoClash(spec.unique[j], rows, row, existing)
      {
        var clean := FindNoClash(spec.unique[i], row, existing);
        if !clean { return false; }
        i := i + 1;
      }
      ok := true;
    }

    method FindNoClash(u: UniqueSpec, row: Row, existing: Option<Key>) returns (ok: bool)
      ensures ok <==> NoClash(u, rows, row, existing)
    {
      if !Applies(row, u) { return true; }
      var key := ValuesOf(row, u.columns);
      var rest := rows.Keys;
      while rest != {}
        invariant rest <= rows.Keys
        invariant forall k | k in rows && k !in rest && Some(k) != existing :: !Clash(u, row, rows[k])
        decreases rest
      {
        var pk :| pk in rest;
        rest := rest - {pk};
        if Some(pk) != existing && Applies(rows[pk], u) && ValuesOf(rows[pk], u.columns) == key { return false; }
      }
      ok := true;
    }

    method ValidateForeignKeys(tables: Tables, row: Row) returns (ok: bool)
      ensures ok <==> ForeignsOk(spec, tables, row)
    {
      var i := 0;
      while i < |spec.foreignKeys|
        invariant 0 <= i <= |spec.foreignKeys|
        invariant forall j | 0 <= j < i :: ForeignOk(spec.foreignKeys[j], tables, row)
      {
        var fk := spec.foreignKeys[i];
        if !SomeNull(row, fk.columns) {
          if fk.table !in tables { return false; }
          var found := FindTarget(tables[fk.table], fk.references, ValuesOf(row, fk.columns));
          if !found { return false; }
        }
        i := i + 1;
      }
      ok := true;
    }

    method FindTarget(candidates: Rows, references: seq<Col>, values: Key) returns (found: bool)
      ensures found <==> HasTarget(candidates, references, values)
    {
      var rest := candidates.Keys;
      while rest != {}
        invariant rest <= candidates.Keys
        invariant forall k | k in candidates && k !in rest :: ValuesOf(candidates[k], references) != values
        decreases rest
      {
        var k :| k in rest;
        if ValuesOf(candidates[k], references) == values { return true; }
        rest := rest - {k};
      }
      found := false;
    }

    /** `tables` is what the parent lookup sees. */
    method Insert(tables: Tables, row: Row) returns (ok: bool)
      modifies this
      ensures (rows, ok) == Inserting(spec, tables, old(rows), row)
    {
      var shaped := ValidateShape(row);
      if !shaped { return false; }
      var pk := ValuesOf(row, spec.primaryKey);
      if pk in rows { return false; }
      var checked := ValidateChecks(row);
      if !checked { return false; }
      var unique := ValidateUnique(row, None);
      if !unique { return false; }
      var linked := ValidateForeignKeys(tables, row);
      if !linked { return false; }
      rows := rows[pk := row];
      ok := true;
    }

    method ValidatePatch(patch: Row) returns (ok: bool)
      ensures ok <==> Patchable(spec, patch)
    {
      var rest := patch.Keys;
      while rest != {}
        invariant rest <= patch.Keys
        invariant forall c | c in patch && c !in rest :: MayPatch(spec.columns, c)
        decreases rest
      {
        var name :| name in rest;
        var i := 0;
        while i < |spec.columns| && spec.columns[i].name != name
          invariant 0 <= i <= |spec.columns|
          invariant forall j | 0 <= j < i :: spec.columns[j].name != name
        {
          i := i + 1;
        }
        if i == |spec.columns| || spec.columns[i].writeOnce { return false; }
        assert IsFirst(spec.columns, i, name);
        rest := rest - {name};
      }
      ok := true;
    }

    method Update(pk: Key, patch: Row) returns (ok: bool)
      modifies this
      ensures (rows, ok) == Updating(spec, old(rows), pk, patch)
    {
      if pk !in rows { return true; }
      var patchable := ValidatePatch(patch);
      if !patchable { return false; }
      var next := rows[pk] + patch;
      var shaped := ValidateShape(next);
      if !shaped { return false; }
      var checked := ValidateChecks(next);
      if !checked { return false; }
      var unique := ValidateUnique(next, Some(pk));
      if !unique { return false; }
      rows := rows[pk := next];
      ok := true;
    }

    method Delete(pk: Key)
      modifies this
      ensures rows == old(rows) - {pk}
    {
      rows := rows - {pk};
    }
  }
}
