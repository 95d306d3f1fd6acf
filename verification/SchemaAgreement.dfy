/** The five declared tables, seen by both interpreters. */
module SchemaAgreement {
  import opened Store
  import opened Schema
  import opened Engine
  import opened EngineSafety
  import Ddl
  import DdlReplay
  import C = DdlCoverage
  import opened DdlAgreement
  import EmailAddress

  lemma KeyIsFixed(t: Tab, i: nat)
    requires i < |Declared(t).primaryKey|
    ensures !MayPatch(Declared(t).columns, Declared(t).primaryKey[i])
  {
  }

  lemma RefersToId(t: Tab, i: nat)
    requires i < |Declared(t).foreignKeys|
    ensures var fk := Declared(t).foreignKeys[i];
      fk.table != Tab.Device && fk.references == [Col.Id] == Declared(fk.table).primaryKey
  {
  }

  /** Primary keys and the columns foreign keys end at cannot be patched, and are the same. */
  lemma DeclaredKeys()
    ensures KeysAreFixed(Declared) && RefsArePrimary(Declared)
  {
    forall t: Tab, i | 0 <= i < |Declared(t).primaryKey|
      ensures !MayPatch(Declared(t).columns, Declared(t).primaryKey[i])
    {
      KeyIsFixed(t, i);
    }
    forall t: Tab, i | 0 <= i < |Declared(t).foreignKeys| ensures RefsAreFixed(Declared, Declared(t).foreignKeys[i]) {
      RefersToId(t, i);
    }
    forall t: Tab, i | 0 <= i < |Declared(t).foreignKeys|
      ensures Declared(t).foreignKeys[i].references == Declared(Declared(t).foreignKeys[i].table).primaryKey
    {
      RefersToId(t, i);
    }
  }

  // ---- comparable ----

  lemma NeverNullAt(spec: TableSpec, i: nat, c: Col)
    requires i < |spec.columns| && spec.columns[i].name == c && !spec.columns[i].nullable
    ensures NeverNull(spec, c)
  {
  }

  lemma KeyNeverNull(t: Tab, i: nat)
    requires i < |Declared(t).primaryKey|
    ensures NeverNull(Declared(t), Declared(t).primaryKey[i])
  {
    NeverNullAt(Declared(t), i, Declared(t).primaryKey[i]);
  }

  lemma KindNeverNull()
    ensures NeverNull(IdentityTable(), Col.Kind)
  {
    NeverNullAt(IdentityTable(), 2, Col.Kind);
  }

  lemma DigestNeverNull()
    ensures NeverNull(SessionTable(), Col.RefreshDigest)
  {
    NeverNullAt(SessionTable(), 4, Col.RefreshDigest);
  }

  lemma UniqueRequired(t: Tab, i: nat)
    requires i < |Declared(t).unique|
    ensures NullKeysRequired(Declared(t).unique[i], Declared(t))
  {
    KindNeverNull();
    DigestNeverNull();
  }

  lemma UniqueSpoken(t: Tab, i: nat)
    requires i < |Declared(t).unique|
    ensures var u := Declared(t).unique[i]; forall j | 0 <= j < |u.present| :: u.present[j] in C.Spoken(t)
  {
  }

  lemma UniqueNamed(t: Tab, i: nat)
    requires i < |Declared(t).unique|
    ensures PartsNamed(Declared(t).unique[i], Declared(t))
  {
    C.EveryTableFits(t);
    UniqueSpoken(t, i);
  }

  lemma DeclaredIsComparable(t: Tab)
    ensures Comparable(Declared(t))
  {
    C.EveryTableFits(t);
    forall i | 0 <= i < |Declared(t).primaryKey| ensures NeverNull(Declared(t), Declared(t).primaryKey[i]) {
      KeyNeverNull(t, i);
    }
    forall i | 0 <= i < |Declared(t).unique|
      ensures NullKeysRequired(Declared(t).unique[i], Declared(t)) && PartsNamed(Declared(t).unique[i], Declared(t))
    {
      UniqueRequired(t, i);
      UniqueNamed(t, i);
    }
  }

  // ---- the agreement ----

  /** The table as all three migrations leave it. */
  ghost function Migrated(t: Tab): (r: Ddl.Relation)
    ensures DdlReplay.IsTable(Declared(t), r)
  {
    C.MigrationsMatchTheSchema(t);
    Ddl.Replay(Declared, Ddl.CHANGES, |Ddl.CHANGES|).value[t]
  }

  /** One descriptor, two interpreters: the table the migrations make and the table the engine runs
      admit the same type-correct rows, up to the checks the engine has no restatement of and the
      one whose restatement is more lenient. */
  lemma SchemaAgreement(t: Tab, tables: Tables, rows: Rows, row: Row)
    requires Stored(Declared(t), rows) && Typed(Declared(t), row)
    ensures DdlAdmits(Migrated(t), tables, rows, row)
        <==> Admits(Declared(t), tables, rows, row) && SqlChecksHold(Declared(t), row)
  {
    DeclaredIsComparable(t);
    DeclaredTwinsFollow(t, row);
    AdmissionExactly(Declared(t), Migrated(t), tables, rows, row);
  }

  // ---- where the engine is more lenient ----

  /** Any unrevoked session the engine would admit it would also admit with a reason for a
      revocation that never happened; the declared table refuses that row. */
  lemma ReasonWithoutRevocation(tables: Tables, rows: Rows, row: Row, reason: string)
    requires Stored(SessionTable(), rows) && Typed(SessionTable(), row)
    requires Admits(SessionTable(), tables, rows, row) && At(row, Col.RevokedAt) == Null
    ensures var row' := row[Col.RevokedReason := Text(reason)];
      Admits(SessionTable(), tables, rows, row') && !SqlChecksHold(SessionTable(), row')
  {
    var row' := row[Col.RevokedReason := Text(reason)];
    ReasonShape(row, row');
    ReasonLinks(tables, row, row');
    ReasonDigest(rows, row, row');
    ReasonIsNoKey(row, row');
    ReasonCheck(row');
  }

  predicate SameButReason(row: Row, row': Row) {
    row'.Keys == row.Keys + {Col.RevokedReason} && forall c | c != Col.RevokedReason :: At(row', c) == At(row, c)
  }

  lemma ReasonShape(row: Row, row': Row)
    requires SameButReason(row, row') && ShapeOk(SessionTable(), row) && At(row', Col.RevokedReason) != Null
    ensures ShapeOk(SessionTable(), row') && ChecksOk(SessionTable(), row')
  {
    ReasonIsAColumn();
  }

  lemma ReasonLinks(tables: Tables, row: Row, row': Row)
    requires SameButReason(row, row') && ForeignsOk(SessionTable(), tables, row)
    ensures ForeignsOk(SessionTable(), tables, row')
  {
    ReasonIsNoKey(row, row');
  }

  lemma ReasonDigest(rows: Rows, row: Row, row': Row)
    requires SameButReason(row, row') && UniqueOk(SessionTable(), rows, row, None)
    ensures UniqueOk(SessionTable(), rows, row', None)
  {
    ReasonIsNoKey(row, row');
    var u := UniqueSpec([Col.RefreshDigest], [], []);
    assert SessionTable().unique[0] == u && NoClash(u, rows, row, None);
    assert NoClash(u, rows, row', None);
  }

  lemma ReasonIsAColumn()
    ensures Col.RevokedReason in Engine.Names(SessionTable())
  {
    assert SessionTable().columns[10] == SessionColumn(10);
  }

  lemma ReasonIsNoKey(row: Row, row': Row)
    requires forall c | c != Col.RevokedReason :: At(row', c) == At(row, c)
    ensures ValuesOf(row', [Col.Id]) == ValuesOf(row, [Col.Id])
    ensures ValuesOf(row', [Col.RefreshDigest]) == ValuesOf(row, [Col.RefreshDigest])
    ensures ValuesOf(row', [Col.AbaUserId]) == ValuesOf(row, [Col.AbaUserId])
    ensures ValuesOf(row', [Col.AuthIdentityId]) == ValuesOf(row, [Col.AuthIdentityId])
    ensures SomeNull(row', [Col.AbaUserId]) == SomeNull(row, [Col.AbaUserId])
    ensures SomeNull(row', [Col.AuthIdentityId]) == SomeNull(row, [Col.AuthIdentityId])
  {
  }

  lemma ReasonCheck(row: Row)
    requires At(row, Col.RevokedAt) == Null && At(row, Col.RevokedReason) != Null
    ensures !SqlChecksHold(SessionTable(), row)
  {
    assert Eval(IsNull(Col.RevokedAt), row) == Yes && Eval(IsNull(Col.RevokedReason), row) == No;
    assert SessionTable().checks[0].expression == Same(IsNull(Col.RevokedAt), IsNull(Col.RevokedReason));
  }
}
