/** Replaying the migrations from nothing declares exactly the descriptor. */
module DdlReplay {
  import opened Store
  import opened Schema
  import opened Ddl

  // ---- one table ----

  lemma TableRuns(catalog: Catalog, spec: TableSpec, later: set<Col>)
    requires spec.name !in catalog && NamesDiffer(spec.columns) && ClosedOver(spec, EarlyNames(spec, later))
    requires forall i | 0 <= i < |spec.foreignKeys| :: TargetDeclared(catalog, spec.foreignKeys[i])
    ensures Run(catalog, RenderTable(spec, later))
         == Some(catalog[spec.name := RelationAfter(spec, Kept(spec.columns, later))])
  {
    var kept, t := Kept(spec.columns, later), spec.name;
    var create := CreateTable(t, kept, spec.primaryKey, spec.foreignKeys, Expressions(spec.checks));
    KeptDiffer(spec.columns, later);
    var made := catalog[t := Relation(kept, spec.primaryKey, spec.foreignKeys, Expressions(spec.checks), [], {})];
    assert Run(made, []) == Some(made) && Run(catalog, [create]) == Some(made);
    UniquesRun(made, spec, spec.unique);
    assert made[t].uniques + RenderedIndexes(spec, spec.unique) == RenderedIndexes(spec, spec.unique);
    var done := made[t := RelationAfter(spec, kept)];
    assert done == catalog[t := RelationAfter(spec, kept)];
    IndexesRun(done, t, spec.indexes);
    RunJoined(catalog, [create], RenderUniques(spec, spec.unique));
    RunJoined(catalog, [create] + RenderUniques(spec, spec.unique), RenderIndexes(t, spec.indexes));
  }

  ghost predicate TargetDeclared(catalog: Catalog, fk: ForeignKey) {
    fk.table in catalog && Known(ColumnNames(catalog[fk.table].columns), fk.references)
  }

  // ---- one added column ----

  lemma AddRuns(catalog: Catalog, t: Tab, c: ColumnSpec, fill: Option<Value>)
    requires t in catalog && c.name !in ColumnNames(catalog[t].columns) && catalog[t].defaults == {}
    ensures Run(catalog, RenderAdd(t, c, fill))
         == Some(catalog[t := catalog[t].(columns := catalog[t].columns + [Rendered(c)])])
  {
    var was, after := catalog[t], catalog[t].(columns := catalog[t].columns + [Rendered(c)]);
    if c.nullable || fill.None? {
      assert was.defaults + {} == {};
      var add := AddColumn(t, Rendered(c), None);
      assert Execute(catalog, add) == Some(catalog[t := after]);
      assert RenderAdd(t, c, fill)[1..] == [];
    } else {
      var add, drop := AddColumn(t, Rendered(c), fill), DropDefault(t, c.name);
      var mid := catalog[t := after.(defaults := {c.name})];
      assert was.defaults + {c.name} == {c.name};
      assert Execute(catalog, add) == Some(mid);
      assert mid[t].columns[|was.columns|].name == c.name;
      assert mid[t].defaults - {c.name} == {};
      assert Execute(mid, drop) == Some(mid[t := after]);
      assert mid[t := after] == catalog[t := after];
      assert RenderAdd(t, c, fill)[1..] == [drop] && [drop][1..] == [];
      assert Run(mid, [drop]) == Some(catalog[t := after]);
    }
  }

  // ---- the invariant ----

  lemma {:induction false} EntryIsNamed(columns: seq<ColumnSpec>, c: Col)
    requires Entry(columns, c).Some?
    ensures Entry(columns, c).value.name == c && Entry(columns, c).value in columns
  {
    if columns[0].name != c { EntryIsNamed(columns[1..], c); }
  }

  lemma {:induction false} EntryFound(columns: seq<ColumnSpec>, i: nat)
    requires NamesDiffer(columns) && i < |columns|
    ensures Entry(columns, columns[i].name) == Some(columns[i])
  {
    if i > 0 {
      assert columns[0].name != columns[i].name;
      EntryFound(columns[1..], i - 1);
    }
  }

  /** Added columns are named by earlier additions. */
  lemma {:induction false} AddedBefore(schema: Descriptor, changes: seq<Change>, n: nat, t: Tab, c: Column)
    requires n <= |changes| && c in AddedColumns(schema, changes, n, t)
    ensures exists i | 0 <= i < n :: AddsColumn(schema, changes[i], t, c)
  {
    if c in AddedColumns(schema, changes, n - 1, t) {
      AddedBefore(schema, changes, n - 1, t, c);
    } else {
      assert AddsColumn(schema, changes[n - 1], t, c) by {
        EntryIsNamed(schema(t).columns, changes[n - 1].column);
      }
    }
  }

  ghost predicate AddsColumn(schema: Descriptor, change: Change, t: Tab, c: Column) {
    change.Add? && change.table == t && change.column == c.name
    && Entry(schema(t).columns, c.name).Some? && Rendered(Entry(schema(t).columns, c.name).value) == c
  }

  lemma {:induction false} AddedAfter(schema: Descriptor, changes: seq<Change>, n: nat, t: Tab, c: Column, i: nat)
    requires i < n <= |changes| && AddsColumn(schema, changes[i], t, c)
    ensures c in AddedColumns(schema, changes, n, t)
  {
    if i < n - 1 { AddedAfter(schema, changes, n - 1, t, c, i); }
  }

  /** What a table has so far does not include the column about to be added. */
  lemma NotYetThere(schema: Descriptor, changes: seq<Change>, n: nat)
    requires Covers(schema, changes) && n < |changes| && changes[n].Add?
    ensures var t := changes[n].table;
      changes[n].column !in ColumnNames(Kept(schema(t).columns, Later(changes, t)) + AddedColumns(schema, changes, n, t))
  {
    var t, name := changes[n].table, changes[n].column;
    var kept, added := Kept(schema(t).columns, Later(changes, t)), AddedColumns(schema, changes, n, t);
    assert AddInOrder(schema, changes, n);
    assert name in Later(changes, t);
    var all: seq<Column> := kept + added;
    forall j | 0 <= j < |all| ensures all[j].name != name {
      var c := all[j];
      if j < |kept| {
        KeptExactly(schema(t).columns, Later(changes, t), c);
        assert c in kept;
      } else {
        assert c in added;
        AddedBefore(schema, changes, n, t, c);
        var i :| 0 <= i < n && AddsColumn(schema, changes[i], t, c);
        assert changes[i].column != name;
      }
    }
  }

  lemma CreateStep(schema: Descriptor, changes: seq<Change>, n: nat, catalog: Catalog)
    requires Covers(schema, changes) && n < |changes| && changes[n].Create?
    requires DeclaredSoFar(schema, changes, n, catalog)
    ensures var t := changes[n].table;
      Run(catalog, RenderTable(schema(t), Later(changes, t)))
      == Some(catalog[t := RelationAfter(schema(t), Kept(schema(t).columns, Later(changes, t)))])
  {
    var t := changes[n].table;
    var spec := schema(t);
    assert CreateInOrder(schema, changes, n);
    forall i | 0 <= i < |spec.foreignKeys| ensures TargetDeclared(catalog, spec.foreignKeys[i]) {
      var target := spec.foreignKeys[i].table;
      assert target in catalog;
      NamesGrow(Kept(schema(target).columns, Later(changes, target)), AddedColumns(schema, changes, n, target));
    }
    TableRuns(catalog, spec, Later(changes, t));
  }

  lemma NamesGrow(a: seq<Column>, b: seq<Column>)
    ensures ColumnNames(a) <= ColumnNames(a + b)
  {
    forall i | 0 <= i < |a| ensures a[i].name in ColumnNames(a + b) {
      assert (a + b)[i] == a[i];
    }
  }

  /** A table has no added columns before it exists. */
  lemma {:induction false} NothingAddedYet(schema: Descriptor, changes: seq<Change>, n: nat, t: Tab)
    requires Covers(schema, changes) && n <= |changes| && !CreatedBefore(changes, n, t)
    ensures AddedColumns(schema, changes, n, t) == []
  {
    if n > 0 {
      NothingAddedYet(schema, changes, n - 1, t);
      assert changes[n - 1].Add? ==> AddInOrder(schema, changes, n - 1);
      assert changes[n - 1].Add? ==> CreatedBefore(changes, n, changes[n - 1].table);
    }
  }

  lemma CreatedByNow(changes: seq<Change>, n: nat, u: Tab)
    requires n < |changes| && changes[n].Create?
    ensures CreatedBefore(changes, n + 1, u) <==> CreatedBefore(changes, n, u) || u == changes[n].table
  {
    if u == changes[n].table { assert changes[n] == Create(u); }
  }

  lemma CreatingAddsNothing(schema: Descriptor, changes: seq<Change>, n: nat, u: Tab)
    requires n < |changes| && changes[n].Create?
    ensures AddedColumns(schema, changes, n + 1, u) == AddedColumns(schema, changes, n, u)
  {
  }

  lemma CreateIsShaped(schema: Descriptor, changes: seq<Change>, n: nat, catalog: Catalog)
    requires Covers(schema, changes) && n < |changes| && changes[n].Create? && ShapedSoFar(schema, changes, n, catalog)
    ensures var t := changes[n].table;
      ShapedSoFar(schema, changes, n + 1, catalog[t := RelationAfter(schema(t), Kept(schema(t).columns, Later(changes, t)))])
  {
    var t := changes[n].table;
    assert CreateInOrder(schema, changes, n);
    NothingAddedYet(schema, changes, n, t);
    forall u: Tab ensures AddedColumns(schema, changes, n + 1, u) == AddedColumns(schema, changes, n, u) {
      CreatingAddsNothing(schema, changes, n, u);
    }
    var kept := Kept(schema(t).columns, Later(changes, t));
    assert kept + [] == kept;
  }

  lemma CreateKeeps(schema: Descriptor, changes: seq<Change>, n: nat, catalog: Catalog)
    requires Covers(schema, changes) && n < |changes| && changes[n].Create?
    requires DeclaredSoFar(schema, changes, n, catalog)
    ensures var t := changes[n].table;
      DeclaredSoFar(schema, changes, n + 1,
        catalog[t := RelationAfter(schema(t), Kept(schema(t).columns, Later(changes, t)))])
  {
    KeptDiffer(schema(changes[n].table).columns, Later(changes, changes[n].table));
    CreateIsShaped(schema, changes, n, catalog);
    forall u: Tab
      ensures CreatedBefore(changes, n + 1, u) <==> CreatedBefore(changes, n, u) || u == changes[n].table
    {
      CreatedByNow(changes, n, u);
    }
  }

  lemma AddStep(schema: Descriptor, changes: seq<Change>, n: nat, catalog: Catalog)
    requires Covers(schema, changes) && n < |changes| && changes[n].Add?
    requires DeclaredSoFar(schema, changes, n, catalog)
    ensures var t := changes[n].table;
      && t in catalog && Entry(schema(t).columns, changes[n].column).Some?
      && var c := Entry(schema(t).columns, changes[n].column).value;
         Run(catalog, RenderAdd(t, c, changes[n].fill))
         == Some(catalog[t := catalog[t].(columns := catalog[t].columns + [Rendered(c)])])
  {
    var t := changes[n].table;
    assert AddInOrder(schema, changes, n);
    NotYetThere(schema, changes, n);
    EntryIsNamed(schema(t).columns, changes[n].column);
    AddRuns(catalog, t, Entry(schema(t).columns, changes[n].column).value, changes[n].fill);
  }

  lemma AddKeeps(schema: Descriptor, changes: seq<Change>, n: nat, catalog: Catalog)
    requires Covers(schema, changes) && n < |changes| && changes[n].Add?
    requires DeclaredSoFar(schema, changes, n, catalog)
    requires changes[n].table in catalog && Entry(schema(changes[n].table).columns, changes[n].column).Some?
    ensures var t := changes[n].table; var c := Entry(schema(t).columns, changes[n].column).value;
      DeclaredSoFar(schema, changes, n + 1, catalog[t := catalog[t].(columns := catalog[t].columns + [Rendered(c)])])
  {
    var t := changes[n].table;
    var c := Rendered(Entry(schema(t).columns, changes[n].column).value);
    NotYetThere(schema, changes, n);
    EntryIsNamed(schema(t).columns, changes[n].column);
    OneMoreDiffers(catalog[t].columns, c);
    AddIsShaped(schema, changes, n, catalog);
  }

  lemma AddIsShaped(schema: Descriptor, changes: seq<Change>, n: nat, catalog: Catalog)
    requires n < |changes| && changes[n].Add? && ShapedSoFar(schema, changes, n, catalog)
    requires changes[n].table in catalog && Entry(schema(changes[n].table).columns, changes[n].column).Some?
    ensures var t := changes[n].table; var c := Rendered(Entry(schema(t).columns, changes[n].column).value);
      ShapedSoFar(schema, changes, n + 1, catalog[t := catalog[t].(columns := catalog[t].columns + [c])])
  {
    var t := changes[n].table;
    var c := Rendered(Entry(schema(t).columns, changes[n].column).value);
    var kept, added := Kept(schema(t).columns, Later(changes, t)), AddedColumns(schema, changes, n, t);
    assert catalog[t].columns == kept + added;
    assert (kept + added) + [c] == kept + (added + [c]);
    forall u: Tab | u != t ensures AddedColumns(schema, changes, n + 1, u) == AddedColumns(schema, changes, n, u) {
    }
  }

  lemma OneMoreDiffers(columns: seq<Column>, c: Column)
    requires NoDuplicates(columns) && c.name !in ColumnNames(columns)
    ensures NoDuplicates(columns + [c])
  {
  }

  lemma CreateDeclares(schema: Descriptor, changes: seq<Change>, n: nat, catalog: Catalog)
    requires Covers(schema, changes) && n < |changes| && DeclaredSoFar(schema, changes, n, catalog) && changes[n].Create?
    ensures var after := Apply(schema, changes, changes[n], catalog);
      after.Some? && DeclaredSoFar(schema, changes, n + 1, after.value)
  {
    CreateStep(schema, changes, n, catalog);
    CreateKeeps(schema, changes, n, catalog);
  }

  lemma AddDeclares(schema: Descriptor, changes: seq<Change>, n: nat, catalog: Catalog)
    requires Covers(schema, changes) && n < |changes| && DeclaredSoFar(schema, changes, n, catalog) && changes[n].Add?
    ensures var after := Apply(schema, changes, changes[n], catalog);
      after.Some? && DeclaredSoFar(schema, changes, n + 1, after.value)
  {
    AddStep(schema, changes, n, catalog);
    AddKeeps(schema, changes, n, catalog);
  }

  lemma StepDeclares(schema: Descriptor, changes: seq<Change>, n: nat, catalog: Catalog)
    requires Covers(schema, changes) && n < |changes| && DeclaredSoFar(schema, changes, n, catalog)
    ensures var after := Apply(schema, changes, changes[n], catalog);
      after.Some? && DeclaredSoFar(schema, changes, n + 1, after.value)
  {
    if changes[n].Create? {
      CreateDeclares(schema, changes, n, catalog);
    } else {
      AddDeclares(schema, changes, n, catalog);
    }
  }

  lemma {:induction false} ReplayDeclares(schema: Descriptor, changes: seq<Change>, n: nat)
    requires Covers(schema, changes) && n <= |changes|
    ensures Replay(schema, changes, n).Some?
    ensures DeclaredSoFar(schema, changes, n, Replay(schema, changes, n).value)
  {
    if n == 0 {
    } else {
      ReplayDeclares(schema, changes, n - 1);
      StepDeclares(schema, changes, n - 1, Replay(schema, changes, n - 1).value);
    }
  }

  // ---- the result ----

  /** The relation is the table of the descriptor: its columns, no two of one name, its keys,
      checks and indexes, and no default left behind. */
  ghost predicate IsTable(spec: TableSpec, r: Relation) {
    && (forall c: Column :: c in r.columns <==> Describes(spec.columns, c))
    && NoDuplicates(r.columns)
    && r.primaryKey == spec.primaryKey && r.foreignKeys == spec.foreignKeys
    && r.checks == Expressions(spec.checks) && r.uniques == RenderedIndexes(spec, spec.unique) && r.defaults == {}
  }

  lemma EveryColumnIsThere(schema: Descriptor, changes: seq<Change>, t: Tab, c: Column)
    requires Covers(schema, changes)
    ensures c in Kept(schema(t).columns, Later(changes, t)) + AddedColumns(schema, changes, |changes|, t)
        <==> Describes(schema(t).columns, c)
  {
    var columns, n := schema(t).columns, |changes|;
    KeptExactly(columns, Later(changes, t), c);
    if c in AddedColumns(schema, changes, n, t) {
      AddedBefore(schema, changes, n, t, c);
      EntryIsNamed(columns, c.name);
      var i :| 0 <= i < |columns| && columns[i] == Entry(columns, c.name).value;
      assert Rendered(columns[i]) == c;
    }
    if c.name in Later(changes, t) && Describes(columns, c) {
      var i :| 0 <= i < |columns| && Rendered(columns[i]) == c;
      EntryFound(columns, i);
      var k :| 0 <= k < n && changes[k].Add? && changes[k].table == t && changes[k].column == c.name;
      AddedAfter(schema, changes, n, t, c, k);
    }
  }

  /** For any descriptor its migrations cover: replaying them succeeds and declares each created
      table exactly as the descriptor has it. */
  lemma MigrationsMatchTheDescriptor(schema: Descriptor, changes: seq<Change>, t: Tab)
    requires Covers(schema, changes)
    ensures Replay(schema, changes, |changes|).Some?
    ensures var catalog := Replay(schema, changes, |changes|).value;
      (t in catalog <==> Create(t) in changes) && (t in catalog ==> IsTable(schema(t), catalog[t]))
  {
    ReplayDeclares(schema, changes, |changes|);
    var catalog := Replay(schema, changes, |changes|).value;
    assert t in catalog <==> CreatedBefore(changes, |changes|, t);
    if t in catalog {
      forall c: Column ensures c in catalog[t].columns <==> Describes(schema(t).columns, c) {
        EveryColumnIsThere(schema, changes, t, c);
      }
    }
  }
}
