/** What the engine's writes keep of the whole declared schema, and the one rule an update forgets. */
module EngineSafety {
  import opened Store
  import opened Schema
  import opened Engine

  type Descriptor = Tab -> TableSpec

  ghost predicate RowOk(spec: TableSpec, tables: Tables, k: Key, row: Row) {
    k == ValuesOf(row, spec.primaryKey) && ShapeOk(spec, row) && ChecksOk(spec, row) && ForeignsOk(spec, tables, row)
  }

  ghost predicate UniquesOk(spec: TableSpec, rows: Rows) {
    forall k | k in rows :: UniqueOk(spec, rows, rows[k], Some(k))
  }

  /** Every rule of the descriptor that the engine knows holds everywhere. */
  ghost predicate Sound(schema: Descriptor, tables: Tables) {
    (forall t: Tab :: t in tables) && RowsOk(schema, tables) && UniquesHold(schema, tables)
  }

  ghost predicate RowsOk(schema: Descriptor, tables: Tables) {
    forall t, k | t in tables && k in tables[t] :: RowOk(schema(t), tables, k, tables[t][k])
  }

  ghost predicate UniquesHold(schema: Descriptor, tables: Tables) {
    forall t | t in tables :: UniquesOk(schema(t), tables[t])
  }

  lemma UniquesElsewhere(schema: Descriptor, tables: Tables, t: Tab, rows: Rows)
    requires UniquesHold(schema, tables) && UniquesOk(schema(t), rows)
    ensures UniquesHold(schema, tables[t := rows])
  {
  }

  /** Primary keys and referenced columns cannot be patched. */
  ghost predicate KeysAreFixed(schema: Descriptor) {
    && (forall t: Tab, i | 0 <= i < |schema(t).primaryKey| :: !MayPatch(schema(t).columns, schema(t).primaryKey[i]))
    && (forall t: Tab, i | 0 <= i < |schema(t).foreignKeys| :: RefsAreFixed(schema, schema(t).foreignKeys[i]))
  }

  ghost predicate RefsAreFixed(schema: Descriptor, fk: ForeignKey) {
    forall j | 0 <= j < |fk.references| :: !MayPatch(schema(fk.table).columns, fk.references[j])
  }

  // ---- insert ----

  lemma TargetsGrow(spec: TableSpec, tables: Tables, t: Tab, k: Key, row: Row, r: Row)
    requires t in tables && k !in tables[t] && ForeignsOk(spec, tables, r)
    ensures ForeignsOk(spec, tables[t := tables[t][k := row]], r)
  {
    var tables' := tables[t := tables[t][k := row]];
    forall i | 0 <= i < |spec.foreignKeys| ensures ForeignOk(spec.foreignKeys[i], tables', r) {
      var fk := spec.foreignKeys[i];
      assert ForeignOk(fk, tables, r);
      if !SomeNull(r, fk.columns) {
        var target :| target in tables[fk.table]
          && ValuesOf(tables[fk.table][target], fk.references) == ValuesOf(r, fk.columns);
        assert target in tables'[fk.table] && tables'[fk.table][target] == tables[fk.table][target];
      }
    }
  }

  /** An admitted row leaves the whole database sound. */
  lemma InsertKeepsSound(schema: Descriptor, tables: Tables, t: Tab, row: Row)
    requires Sound(schema, tables) && Admits(schema(t), tables, tables[t], row)
    ensures Sound(schema, tables[t := Inserting(schema(t), tables, tables[t], row).0])
  {
    var k := ValuesOf(row, schema(t).primaryKey);
    var tables' := tables[t := tables[t][k := row]];
    TargetsGrow(schema(t), tables, t, k, row, row);
    forall t2, k2 | t2 in tables' && k2 in tables'[t2] ensures RowOk(schema(t2), tables', k2, tables'[t2][k2]) {
      if !(t2 == t && k2 == k) {
        assert RowOk(schema(t2), tables, k2, tables[t2][k2]);
        TargetsGrow(schema(t2), tables, t, k, row, tables[t2][k2]);
      }
    }
  }

  /** A row that is not admitted would break a rule or replace a stored row. */
  lemma OnlyAdmittedRowsFit(schema: Descriptor, tables: Tables, t: Tab, row: Row)
    requires Sound(schema, tables) && !Admits(schema(t), tables, tables[t], row)
    ensures var k := ValuesOf(row, schema(t).primaryKey);
      k in tables[t] || !RowOk(schema(t), tables, k, row) || !UniquesOk(schema(t), tables[t][k := row])
  {
    var spec, rows := schema(t), tables[t];
    var k := ValuesOf(row, spec.primaryKey);
    if k !in rows && !UniqueOk(spec, rows, row, None) { ClashBreaksUniques(spec, rows, k, row); }
  }

  lemma ClashBreaksUniques(spec: TableSpec, rows: Rows, k: Key, row: Row)
    requires k !in rows && !UniqueOk(spec, rows, row, None)
    ensures !UniquesOk(spec, rows[k := row])
  {
    var i :| 0 <= i < |spec.unique| && !NoClash(spec.unique[i], rows, row, None);
    var b :| b in rows && Clash(spec.unique[i], row, rows[b]);
    var rows' := rows[k := row];
    assert b in rows' && rows'[b] == rows[b] && b != k;
    assert !NoClash(spec.unique[i], rows', rows'[k], Some(k));
    assert !UniqueOk(spec, rows', rows'[k], Some(k));
  }

  // ---- update ----

  lemma PatchKeepsValues(spec: TableSpec, row: Row, patch: Row, columns: seq<Col>)
    requires Patchable(spec, patch)
    requires forall i | 0 <= i < |columns| :: !MayPatch(spec.columns, columns[i])
    ensures ValuesOf(row + patch, columns) == ValuesOf(row, columns)
  {
    forall i | 0 <= i < |columns| ensures At(row + patch, columns[i]) == At(row, columns[i]) {
    }
  }

  lemma SameTargets(schema: Descriptor, tables: Tables, t: Tab, k: Key, patch: Row, fk: ForeignKey, r: Row)
    requires t in tables && k in tables[t] && Patchable(schema(t), patch) && RefsAreFixed(schema, fk)
    ensures ForeignOk(fk, tables[t := tables[t][k := tables[t][k] + patch]], r) <==> ForeignOk(fk, tables, r)
  {
    var tables' := tables[t := tables[t][k := tables[t][k] + patch]];
    if fk.table == t { PatchKeepsValues(schema(t), tables[t][k], patch, fk.references); }
    var values := ValuesOf(r, fk.columns);
    if fk.table in tables {
      forall a | a in tables[fk.table]
        ensures ValuesOf(tables'[fk.table][a], fk.references) == ValuesOf(tables[fk.table][a], fk.references)
      {
      }
      assert tables'[fk.table].Keys == tables[fk.table].Keys;
      assert HasTarget(tables'[fk.table], fk.references, values) <==> HasTarget(tables[fk.table], fk.references, values);
    }
  }

  lemma SameForeigns(schema: Descriptor, tables: Tables, t: Tab, k: Key, patch: Row, t2: Tab, r: Row)
    requires KeysAreFixed(schema) && t in tables && k in tables[t] && Patchable(schema(t), patch)
    ensures ForeignsOk(schema(t2), tables[t := tables[t][k := tables[t][k] + patch]], r) <==> ForeignsOk(schema(t2), tables, r)
  {
    forall i | 0 <= i < |schema(t2).foreignKeys|
      ensures ForeignOk(schema(t2).foreignKeys[i], tables[t := tables[t][k := tables[t][k] + patch]], r)
        <==> ForeignOk(schema(t2).foreignKeys[i], tables, r)
    {
      SameTargets(schema, tables, t, k, patch, schema(t2).foreignKeys[i], r);
    }
  }

  /** An accepted update keeps the database sound exactly when the patched row's foreign keys still
      find their targets, which the update itself does not look at. */
  lemma UpdateKeepsSoundExactly(schema: Descriptor, tables: Tables, t: Tab, k: Key, patch: Row)
    requires Sound(schema, tables) && KeysAreFixed(schema)
    requires k in tables[t] && Accepts(schema(t), tables[t], k, patch)
    ensures Sound(schema, tables[t := Updating(schema(t), tables[t], k, patch).0])
        <==> ForeignsOk(schema(t), tables, tables[t][k] + patch)
  {
    var next := tables[t][k] + patch;
    SameForeigns(schema, tables, t, k, patch, t, next);
    if ForeignsOk(schema(t), tables, next) {
      RowsAfterUpdate(schema, tables, t, k, patch);
      UniquesElsewhere(schema, tables, t, tables[t][k := next]);
    } else {
      BadRow(schema, tables[t := tables[t][k := next]], t, k);
    }
  }

  lemma BadRow(schema: Descriptor, tables: Tables, t: Tab, k: Key)
    requires t in tables && k in tables[t] && !ForeignsOk(schema(t), tables, tables[t][k])
    ensures !Sound(schema, tables)
  {
  }

  lemma RowsAfterUpdate(schema: Descriptor, tables: Tables, t: Tab, k: Key, patch: Row)
    requires Sound(schema, tables) && KeysAreFixed(schema)
    requires k in tables[t] && Accepts(schema(t), tables[t], k, patch)
    requires ForeignsOk(schema(t), tables, tables[t][k] + patch)
    ensures RowsOk(schema, tables[t := tables[t][k := tables[t][k] + patch]])
  {
    var next := tables[t][k] + patch;
    var tables' := tables[t := tables[t][k := next]];
    SameForeigns(schema, tables, t, k, patch, t, next);
    assert RowOk(schema(t), tables, k, tables[t][k]);
    PatchKeepsValues(schema(t), tables[t][k], patch, schema(t).primaryKey);
    forall t2, k2 | t2 in tables' && k2 in tables'[t2] ensures RowOk(schema(t2), tables', k2, tables'[t2][k2]) {
      assert RowOk(schema(t2), tables, k2, tables[t2][k2]);
      SameForeigns(schema, tables, t, k, patch, t2, tables[t2][k2]);
    }
  }

  /** The patch names only columns that are declared, the first of the name not being fixed. */
  ghost predicate NamesOpenColumns(spec: TableSpec, patch: Row) {
    forall c | c in patch :: exists i | 0 <= i < |spec.columns| ::
      spec.columns[i].name == c && !spec.columns[i].writeOnce && forall j | 0 <= j < i :: spec.columns[j].name != c
  }

  /** An update is refused exactly if it names a fixed or undeclared column, even with the value that is
      there, or would leave a row out of shape, against a check, or with the key of another. */
  lemma UpdateRefusedExactly(schema: Descriptor, tables: Tables, t: Tab, k: Key, patch: Row)
    requires Sound(schema, tables) && k in tables[t]
    ensures var next := tables[t][k := tables[t][k] + patch];
      var (rows', ok) := Updating(schema(t), tables[t], k, patch);
      && (ok <==> NamesOpenColumns(schema(t), patch) && ShapeOk(schema(t), next[k]) && ChecksOk(schema(t), next[k])
                  && UniquesOk(schema(t), next))
      && rows' == if ok then next else tables[t]
  {
    var spec, rows := schema(t), tables[t];
    var next := rows[k := rows[k] + patch];
    assert UniquesOk(spec, rows);
    NamesAreOpen(spec, patch);
    if UniquesOk(spec, next) {
      SelfClash(spec, rows, k, next);
    } else if UniqueOk(spec, rows, rows[k] + patch, Some(k)) {
      OthersClash(spec, rows, k, next);
    }
  }

  lemma NamesAreOpen(spec: TableSpec, patch: Row)
    ensures Patchable(spec, patch) <==> NamesOpenColumns(spec, patch)
  {
    if Patchable(spec, patch) {
      forall c | c in patch ensures exists i | 0 <= i < |spec.columns| ::
        spec.columns[i].name == c && !spec.columns[i].writeOnce && forall j | 0 <= j < i :: spec.columns[j].name != c
      {
        var i :| 0 <= i < |spec.columns| && IsFirst(spec.columns, i, c) && !spec.columns[i].writeOnce;
      }
    }
    if NamesOpenColumns(spec, patch) {
      forall c | c in patch ensures MayPatch(spec.columns, c) {
        var i :| 0 <= i < |spec.columns| && spec.columns[i].name == c && !spec.columns[i].writeOnce
                 && forall j | 0 <= j < i :: spec.columns[j].name != c;
        assert IsFirst(spec.columns, i, c);
      }
    }
  }

  lemma SelfClash(spec: TableSpec, rows: Rows, k: Key, next: Rows)
    requires k in rows && k in next && next == rows[k := next[k]] && UniquesOk(spec, next)
    ensures UniqueOk(spec, rows, next[k], Some(k))
  {
    assert UniqueOk(spec, next, next[k], Some(k));
    forall i | 0 <= i < |spec.unique| ensures NoClash(spec.unique[i], rows, next[k], Some(k)) {
      assert NoClash(spec.unique[i], next, next[k], Some(k));
      forall x | x in rows && Some(x) != Some(k) ensures !Clash(spec.unique[i], next[k], rows[x]) { assert next[x] == rows[x]; }
    }
  }

  lemma OthersClash(spec: TableSpec, rows: Rows, k: Key, next: Rows)
    requires k in rows && k in next && next == rows[k := next[k]] && UniquesOk(spec, rows)
    requires UniqueOk(spec, rows, next[k], Some(k))
    ensures UniquesOk(spec, next)
  {
    forall x, i | x in next && 0 <= i < |spec.unique| ensures NoClash(spec.unique[i], next, next[x], Some(x)) {
      assert NoClash(spec.unique[i], rows, next[k], Some(k));
      assert UniqueOk(spec, rows, rows[x], Some(x)) && NoClash(spec.unique[i], rows, rows[x], Some(x));
      forall y | y in next && Some(y) != Some(x) ensures !Clash(spec.unique[i], next[x], next[y]) {
        if y == k { assert !Clash(spec.unique[i], next[k], rows[x]); }
      }
    }
  }

  /** A patch that leaves the foreign keys alone, or empties them, is always safe. */
  lemma OrdinaryUpdatesAreSafe(schema: Descriptor, tables: Tables, t: Tab, k: Key, patch: Row)
    requires Sound(schema, tables) && KeysAreFixed(schema)
    requires k in tables[t] && Accepts(schema(t), tables[t], k, patch)
    requires forall i | 0 <= i < |schema(t).foreignKeys| :: Harmless(schema(t).foreignKeys[i], patch)
    ensures Sound(schema, tables[t := Updating(schema(t), tables[t], k, patch).0])
  {
    var row := tables[t][k];
    assert RowOk(schema(t), tables, k, row);
    forall i | 0 <= i < |schema(t).foreignKeys| ensures ForeignOk(schema(t).foreignKeys[i], tables, row + patch) {
      var fk := schema(t).foreignKeys[i];
      assert ForeignOk(fk, tables, row);
      HarmlessKeeps(fk, tables, row, patch);
    }
    UpdateKeepsSoundExactly(schema, tables, t, k, patch);
  }

  ghost predicate Harmless(fk: ForeignKey, patch: Row) {
    (forall j | 0 <= j < |fk.columns| :: fk.columns[j] !in patch || patch[fk.columns[j]] == Null)
  }

  lemma HarmlessKeeps(fk: ForeignKey, tables: Tables, row: Row, patch: Row)
    requires Harmless(fk, patch) && ForeignOk(fk, tables, row)
    ensures ForeignOk(fk, tables, row + patch)
  {
    if !SomeNull(row + patch, fk.columns) {
      forall j | 0 <= j < |fk.columns| ensures At(row + patch, fk.columns[j]) == At(row, fk.columns[j]) {
      }
      assert ValuesOf(row + patch, fk.columns) == ValuesOf(row, fk.columns);
      assert !SomeNull(row, fk.columns);
    }
  }

  // ---- delete ----

  /** A foreign key of some other row ends at this one. */
  ghost predicate Needed(schema: Descriptor, tables: Tables, t: Tab, k: Key) {
    exists t2, k2, i | t2 in tables && k2 in tables[t2] && 0 <= i < |schema(t2).foreignKeys| ::
      Leads(schema(t2).foreignKeys[i], tables[t2][k2], t, k) && !(t2 == t && k2 == k)
  }

  predicate Leads(fk: ForeignKey, row: Row, t: Tab, k: Key) {
    fk.table == t && !SomeNull(row, fk.columns) && ValuesOf(row, fk.columns) == k
  }

  /** Foreign keys end at primary keys. */
  ghost predicate RefsArePrimary(schema: Descriptor) {
    forall t: Tab, i | 0 <= i < |schema(t).foreignKeys| ::
      schema(t).foreignKeys[i].references == schema(schema(t).foreignKeys[i].table).primaryKey
  }

  /** The rows of a table sit under their primary keys. */
  ghost predicate Keyed(spec: TableSpec, rows: Rows) {
    forall k | k in rows :: ValuesOf(rows[k], spec.primaryKey) == k
  }

  lemma TargetIsKey(spec: TableSpec, rows: Rows, values: Key)
    requires Keyed(spec, rows)
    ensures HasTarget(rows, spec.primaryKey, values) <==> values in rows
  {
    if values in rows { assert ValuesOf(rows[values], spec.primaryKey) == values; }
  }

  lemma ForeignAfterDelete(spec: TableSpec, tables: Tables, t: Tab, k: Key, fk: ForeignKey, row: Row)
    requires fk.table in tables && t in tables && Keyed(spec, tables[fk.table]) && fk.references == spec.primaryKey
    requires ForeignOk(fk, tables, row)
    ensures ForeignOk(fk, tables[t := tables[t] - {k}], row) <==> !Leads(fk, row, t, k)
  {
    var rows' := tables[t := tables[t] - {k}][fk.table];
    var values := ValuesOf(row, fk.columns);
    TargetIsKey(spec, tables[fk.table], values);
    assert Keyed(spec, rows');
    TargetIsKey(spec, rows', values);
  }

  /** Removing a row is safe exactly when no other row's foreign key ends at it: the engine carries
      out no referential action of its own. */
  lemma DeleteKeepsSoundExactly(schema: Descriptor, tables: Tables, t: Tab, k: Key)
    requires Sound(schema, tables) && RefsArePrimary(schema)
    ensures Sound(schema, tables[t := tables[t] - {k}]) <==> !Needed(schema, tables, t, k)
  {
    if Needed(schema, tables, t, k) {
      NeededRowBreaks(schema, tables, t, k);
    } else {
      RowsAfterDelete(schema, tables, t, k);
      UniquesElsewhere(schema, tables, t, tables[t] - {k});
    }
  }

  lemma NeededRowBreaks(schema: Descriptor, tables: Tables, t: Tab, k: Key)
    requires Sound(schema, tables) && RefsArePrimary(schema) && Needed(schema, tables, t, k)
    ensures !Sound(schema, tables[t := tables[t] - {k}])
  {
    var t2, k2, i :| t2 in tables && k2 in tables[t2] && 0 <= i < |schema(t2).foreignKeys|
      && Leads(schema(t2).foreignKeys[i], tables[t2][k2], t, k) && !(t2 == t && k2 == k);
    LeadingRowBreaks(schema, tables, t, k, t2, k2, i);
  }

  lemma LeadingRowBreaks(schema: Descriptor, tables: Tables, t: Tab, k: Key, t2: Tab, k2: Key, i: nat)
    requires t in tables && t2 in tables && k2 in tables[t2] && i < |schema(t2).foreignKeys| && !(t2 == t && k2 == k)
    requires var fk := schema(t2).foreignKeys[i];
      && fk.table in tables && Keyed(schema(fk.table), tables[fk.table])
      && fk.references == schema(fk.table).primaryKey
      && ForeignOk(fk, tables, tables[t2][k2]) && Leads(fk, tables[t2][k2], t, k)
    ensures !Sound(schema, tables[t := tables[t] - {k}])
  {
    var row, fk := tables[t2][k2], schema(t2).foreignKeys[i];
    ForeignAfterDelete(schema(fk.table), tables, t, k, fk, row);
    BadRow(schema, tables[t := tables[t] - {k}], t2, k2);
  }

  lemma RowsAfterDelete(schema: Descriptor, tables: Tables, t: Tab, k: Key)
    requires Sound(schema, tables) && RefsArePrimary(schema) && !Needed(schema, tables, t, k)
    ensures RowsOk(schema, tables[t := tables[t] - {k}])
  {
    var tables' := tables[t := tables[t] - {k}];
    forall t2, k2 | t2 in tables' && k2 in tables'[t2] ensures RowOk(schema(t2), tables', k2, tables'[t2][k2]) {
      UnneededRow(schema, tables, t, k, t2, k2);
    }
  }

  lemma UnneededRow(schema: Descriptor, tables: Tables, t: Tab, k: Key, t2: Tab, k2: Key)
    requires Sound(schema, tables) && RefsArePrimary(schema) && !Needed(schema, tables, t, k)
    requires k2 in tables[t2] && !(t2 == t && k2 == k)
    ensures RowOk(schema(t2), tables[t := tables[t] - {k}], k2, tables[t2][k2])
  {
    assert RowOk(schema(t2), tables, k2, tables[t2][k2]);
    forall i | 0 <= i < |schema(t2).foreignKeys|
      ensures ForeignOk(schema(t2).foreignKeys[i], tables[t := tables[t] - {k}], tables[t2][k2])
    {
      var fk := schema(t2).foreignKeys[i];
      assert !Leads(fk, tables[t2][k2], t, k);
      ForeignAfterDelete(schema(fk.table), tables, t, k, fk, tables[t2][k2]);
    }
  }
}
