/** The engine and the declared tables admit the same rows, up to the checks the engine is not told. */
module DdlAgreement {
  import opened Store
  import opened Schema
  import opened Engine
  import opened Ddl
  import opened DdlReplay
  import EmailAddress

  // ---- what the database makes of a row ----

  datatype Truth = Yes | No | Unknown

  function OfBool(b: bool): Truth { if b then Yes else No }

  /** Three-valued, as SQL evaluates it. */
  function Eval(e: Expr, row: Row): Truth {
    match e
    case IsNull(c) => OfBool(At(row, c) == Null)
    case In(c, allowed) => if At(row, c).Text? then OfBool(At(row, c).text in allowed) else Unknown
    case Same(a, b) =>
      if Eval(a, row) == Unknown || Eval(b, row) == Unknown then Unknown else OfBool(Eval(a, row) == Eval(b, row))
    case Not(a) => if Eval(a, row) == Yes then No else if Eval(a, row) == No then Yes else Unknown
    case Or(a, b) =>
      if Eval(a, row) == Yes || Eval(b, row) == Yes then Yes
      else if Eval(a, row) == No && Eval(b, row) == No then No
      else Unknown
    case DomainFolded(c) =>
      if At(row, c).Text? then OfBool(EmailAddress.DomainIsFoldedInSql(At(row, c).text)) else Unknown
  }

  predicate TypeOk(v: Value, kind: ColumnType) {
    match v
    case Null => true
    case Text(_) => kind == TextType
    case Number(_) => kind == IntegerType || kind == TimeType
    case Flag(_) => kind == BooleanType
  }

  predicate TermHolds(t: Term, row: Row) {
    match t
    case IsTrue(c) => At(row, c) == Flag(true)
    case IsPresent(c) => At(row, c) != Null
    case IsAbsent(c) => At(row, c) == Null
  }

  predicate WhereHolds(where: seq<Term>, row: Row) { forall i | 0 <= i < |where| :: TermHolds(where[i], row) }

  /** Two rows a unique index will not hold together: no null equals anything. */
  predicate IndexClash(index: Index, a: Row, b: Row) {
    && WhereHolds(index.where, a) && WhereHolds(index.where, b)
    && ValuesOf(a, index.columns) == ValuesOf(b, index.columns) && !SomeNull(a, index.columns)
  }

  predicate RowFits(columns: seq<Column>, row: Row) {
    && row.Keys == ColumnNames(columns)
    && forall i | 0 <= i < |columns| ::
         TypeOk(At(row, columns[i].name), columns[i].kind) && (!columns[i].nullable ==> At(row, columns[i].name) != Null)
  }

  predicate IndexAdmits(index: Index, rows: Rows, row: Row) { forall k | k in rows :: !IndexClash(index, row, rows[k]) }

  /** An INSERT succeeds: types, NOT NULL, the primary key, checks that are not false, unique
      indexes, and foreign keys of which a null part excuses. */
  ghost predicate DdlAdmits(r: Relation, tables: Tables, rows: Rows, row: Row) {
    && RowFits(r.columns, row)
    && !SomeNull(row, r.primaryKey)
    && (forall k | k in rows :: ValuesOf(rows[k], r.primaryKey) != ValuesOf(row, r.primaryKey))
    && (forall i | 0 <= i < |r.checks| :: Eval(r.checks[i], row) != No)
    && (forall i | 0 <= i < |r.uniques| :: IndexAdmits(r.uniques[i], rows, row))
    && (forall i | 0 <= i < |r.foreignKeys| :: ForeignOk(r.foreignKeys[i], tables, row))
  }

  // ---- when the two readings agree ----

  predicate Typed(spec: TableSpec, row: Row) {
    forall i | 0 <= i < |spec.columns| :: TypeOk(At(row, spec.columns[i].name), spec.columns[i].kind)
  }

  predicate NeverNull(spec: TableSpec, c: Col) {
    exists i | 0 <= i < |spec.columns| :: spec.columns[i].name == c && !spec.columns[i].nullable
  }

  /** Every part of a unique key is there whenever the constraint applies. */
  ghost predicate NullKeysRequired(u: UniqueSpec, spec: TableSpec) {
    forall j | 0 <= j < |u.columns| :: u.columns[j] in u.present || NeverNull(spec, u.columns[j])
  }

  ghost predicate PartsNamed(u: UniqueSpec, spec: TableSpec) {
    forall j | 0 <= j < |u.present| :: HasColumn(spec, u.present[j])
  }

  ghost predicate Comparable(spec: TableSpec) {
    && NamesDiffer(spec.columns)
    && (forall i | 0 <= i < |spec.primaryKey| :: NeverNull(spec, spec.primaryKey[i]))
    && (forall i | 0 <= i < |spec.unique| :: NullKeysRequired(spec.unique[i], spec) && PartsNamed(spec.unique[i], spec))
  }

  /** The rows a table may hold. */
  ghost predicate Stored(spec: TableSpec, rows: Rows) {
    forall k | k in rows :: k == ValuesOf(rows[k], spec.primaryKey) && ShapeOk(spec, rows[k]) && Typed(spec, rows[k])
  }

  lemma {:induction false} KindIs(columns: seq<ColumnSpec>, i: nat)
    requires NamesDiffer(columns) && i < |columns|
    ensures KindOf(columns, columns[i].name) == Some(columns[i].kind)
  {
    if i > 0 {
      assert columns[0].name != columns[i].name;
      KindIs(columns[1..], i - 1);
    }
  }

  lemma PresentTermAgrees(spec: TableSpec, row: Row, c: Col)
    requires NamesDiffer(spec.columns) && Typed(spec, row)
    requires HasColumn(spec, c)
    ensures TermHolds(if KindOf(spec.columns, c) == Some(BooleanType) then IsTrue(c) else IsPresent(c), row)
        <==> Present(At(row, c))
  {
    var i :| 0 <= i < |spec.columns| && spec.columns[i].name == c;
    KindIs(spec.columns, i);
    assert TypeOk(At(row, c), spec.columns[i].kind);
  }

  /** The rendered predicate selects exactly the rows the engine applies the constraint to. */
  lemma WhereIsApplies(spec: TableSpec, u: UniqueSpec, row: Row)
    requires NamesDiffer(spec.columns) && PartsNamed(u, spec) && Typed(spec, row)
    ensures WhereHolds(RenderIndex(spec, u).where, row) <==> Applies(row, u)
  {
    var p, a := PresentTerms(spec, u.present), AbsentTerms(u.absent);
    forall i | 0 <= i < |p| ensures TermHolds(p[i], row) <==> Present(At(row, u.present[i])) {
      PresentTermAgrees(spec, row, u.present[i]);
    }
    WhereJoined(p, a, row);
    assert WhereHolds(p, row) <==> AllPresent(row, u.present);
    forall i | 0 <= i < |a| ensures TermHolds(a[i], row) <==> At(row, u.absent[i]) == Null {
    }
    assert WhereHolds(a, row) <==> AllNull(row, u.absent);
  }

  lemma WhereJoined(p: seq<Term>, a: seq<Term>, row: Row)
    ensures WhereHolds(p + a, row) <==> WhereHolds(p, row) && WhereHolds(a, row)
  {
    if WhereHolds(p + a, row) {
      forall i | 0 <= i < |p| ensures TermHolds(p[i], row) { assert (p + a)[i] == p[i]; }
      forall i | 0 <= i < |a| ensures TermHolds(a[i], row) { assert (p + a)[|p| + i] == a[i]; }
    }
  }

  lemma ClashesAgree(spec: TableSpec, u: UniqueSpec, a: Row, b: Row)
    requires NamesDiffer(spec.columns) && PartsNamed(u, spec) && NullKeysRequired(u, spec)
    requires Typed(spec, a) && Typed(spec, b) && ShapeOk(spec, a)
    ensures IndexClash(RenderIndex(spec, u), a, b) <==> Clash(u, a, b)
  {
    WhereIsApplies(spec, u, a);
    WhereIsApplies(spec, u, b);
  }

  lemma {:induction false} RenderedAt(spec: TableSpec, unique: seq<UniqueSpec>, i: nat)
    requires i < |unique|
    ensures |RenderedIndexes(spec, unique)| == |unique| && RenderedIndexes(spec, unique)[i] == RenderIndex(spec, unique[i])
  {
    if |unique| > 1 {
      RenderedAt(spec, unique[1..], if i > 0 then i - 1 else 0);
    }
  }

  lemma {:induction false} RenderedCount(spec: TableSpec, unique: seq<UniqueSpec>)
    ensures |RenderedIndexes(spec, unique)| == |unique|
  {
    if unique != [] { RenderedCount(spec, unique[1..]); }
  }

  ghost predicate IndexesAdmit(indexes: seq<Index>, rows: Rows, row: Row) {
    forall i | 0 <= i < |indexes| :: IndexAdmits(indexes[i], rows, row)
  }

  lemma UniquesAgree(spec: TableSpec, rows: Rows, row: Row)
    requires Comparable(spec) && Stored(spec, rows) && Typed(spec, row) && ShapeOk(spec, row)
    ensures IndexesAdmit(RenderedIndexes(spec, spec.unique), rows, row) <==> UniqueOk(spec, rows, row, None)
  {
    var indexes := RenderedIndexes(spec, spec.unique);
    RenderedCount(spec, spec.unique);
    forall i | 0 <= i < |spec.unique|
      ensures IndexAdmits(indexes[i], rows, row) <==> NoClash(spec.unique[i], rows, row, None)
    {
      RenderedAt(spec, spec.unique, i);
      forall k | k in rows
        ensures IndexClash(indexes[i], row, rows[k]) <==> Clash(spec.unique[i], row, rows[k])
      {
        ClashesAgree(spec, spec.unique[i], row, rows[k]);
      }
    }
  }

  lemma NamesAgree(spec: TableSpec, r: Relation)
    requires IsTable(spec, r)
    ensures ColumnNames(r.columns) == Engine.Names(spec)
  {
    forall c | c in ColumnNames(r.columns) ensures c in Engine.Names(spec) {
      var i :| 0 <= i < |r.columns| && r.columns[i].name == c;
      assert r.columns[i] in r.columns;
      var j :| 0 <= j < |spec.columns| && Rendered(spec.columns[j]) == r.columns[i];
    }
    forall c | c in Engine.Names(spec) ensures c in ColumnNames(r.columns) {
      var j :| 0 <= j < |spec.columns| && spec.columns[j].name == c;
      assert Describes(spec.columns, Rendered(spec.columns[j]));
    }
  }

  lemma ShapesAgree(spec: TableSpec, r: Relation, row: Row)
    requires IsTable(spec, r)
    ensures RowFits(r.columns, row) <==> ShapeOk(spec, row) && Typed(spec, row)
  {
    NamesAgree(spec, r);
    if RowFits(r.columns, row) {
      forall j | 0 <= j < |spec.columns|
        ensures TypeOk(At(row, spec.columns[j].name), spec.columns[j].kind)
        ensures !spec.columns[j].nullable ==> At(row, spec.columns[j].name) != Null
      {
        assert Describes(spec.columns, Rendered(spec.columns[j]));
        var i :| 0 <= i < |r.columns| && r.columns[i] == Rendered(spec.columns[j]);
      }
    }
    if ShapeOk(spec, row) && Typed(spec, row) {
      forall i | 0 <= i < |r.columns|
        ensures TypeOk(At(row, r.columns[i].name), r.columns[i].kind)
        ensures !r.columns[i].nullable ==> At(row, r.columns[i].name) != Null
      {
        assert r.columns[i] in r.columns;
        var j :| 0 <= j < |spec.columns| && Rendered(spec.columns[j]) == r.columns[i];
      }
    }
  }

  ghost predicate SqlChecksHold(spec: TableSpec, row: Row) {
    forall i | 0 <= i < |spec.checks| :: Eval(spec.checks[i].expression, row) != No
  }

  /** The engine's restatements refuse nothing the expressions let pass. */
  ghost predicate TwinsFollow(spec: TableSpec, row: Row) {
    forall i | 0 <= i < |spec.checks| :: spec.checks[i].holds.Some? ==>
      (Eval(spec.checks[i].expression, row) != No ==> spec.checks[i].holds.value(row))
  }

  lemma KeysAgree(spec: TableSpec, rows: Rows, row: Row)
    requires Comparable(spec) && Stored(spec, rows) && ShapeOk(spec, row)
    ensures !SomeNull(row, spec.primaryKey)
    ensures (forall k | k in rows :: ValuesOf(rows[k], spec.primaryKey) != ValuesOf(row, spec.primaryKey))
        <==> ValuesOf(row, spec.primaryKey) !in rows
  {
    forall j | 0 <= j < |spec.primaryKey| ensures At(row, spec.primaryKey[j]) != Null {
      assert NeverNull(spec, spec.primaryKey[j]);
    }
    forall k | k in rows ensures ValuesOf(rows[k], spec.primaryKey) == k {
    }
  }

  lemma ChecksAgree(spec: TableSpec, checks: seq<Expr>, row: Row)
    requires checks == Expressions(spec.checks)
    ensures (forall i | 0 <= i < |checks| :: Eval(checks[i], row) != No) <==> SqlChecksHold(spec, row)
  {
    forall i | 0 <= i < |checks| ensures checks[i] == spec.checks[i].expression {
    }
  }

  /** What both readings ask apart from checks. */
  ghost predicate AdmitsUnchecked(spec: TableSpec, tables: Tables, rows: Rows, row: Row) {
    && ShapeOk(spec, row) && ValuesOf(row, spec.primaryKey) !in rows
    && UniqueOk(spec, rows, row, None) && ForeignsOk(spec, tables, row)
  }

  lemma UncheckedExactly(spec: TableSpec, r: Relation, tables: Tables, rows: Rows, row: Row)
    requires IsTable(spec, r) && Comparable(spec) && Stored(spec, rows) && Typed(spec, row)
    ensures DdlAdmits(r, tables, rows, row) <==> AdmitsUnchecked(spec, tables, rows, row) && SqlChecksHold(spec, row)
  {
    ShapesAgree(spec, r, row);
    ChecksAgree(spec, r.checks, row);
    if ShapeOk(spec, row) {
      UniquesAgree(spec, rows, row);
      KeysAgree(spec, rows, row);
      assert IndexesAdmit(r.uniques, rows, row) <==> UniqueOk(spec, rows, row, None);
    }
  }

  /** The rendered table admits a type-correct row exactly when the engine does and every check,
      restated for the engine or not, is not false. */
  lemma AdmissionExactly(spec: TableSpec, r: Relation, tables: Tables, rows: Rows, row: Row)
    requires IsTable(spec, r) && Comparable(spec) && Stored(spec, rows)
    requires Typed(spec, row) && TwinsFollow(spec, row)
    ensures DdlAdmits(r, tables, rows, row) <==> Admits(spec, tables, rows, row) && SqlChecksHold(spec, row)
  {
    UncheckedExactly(spec, r, tables, rows, row);
  }

  // ---- the five tables ----

  lemma TwinIs(row: Row, a: string)
    requires At(row, Col.Email) == Text(a)
    ensures EmailDomainHolds(row) <==> EmailAddress.DomainIsFolded(a)
  {
  }

  lemma NoAddressPasses(row: Row)
    requires At(row, Col.Email) == Null
    ensures Eval(Or(IsNull(Col.Email), DomainFolded(Col.Email)), row) != No && EmailDomainHolds(row)
  {
  }

  lemma RenderedIs(row: Row, a: string)
    requires At(row, Col.Email) == Text(a)
    ensures Eval(Or(IsNull(Col.Email), DomainFolded(Col.Email)), row) != No <==> EmailAddress.DomainIsFoldedInSql(a)
  {
  }

  /** The one restated check: it never refuses more than the expression, and refuses the same
      exactly for addresses with an `@` or without capitals. */
  lemma EmailTwinFollows(row: Row)
    requires At(row, Col.Email) == Null || At(row, Col.Email).Text?
    ensures var sql := Eval(Or(IsNull(Col.Email), DomainFolded(Col.Email)), row) != No;
      && (sql ==> EmailDomainHolds(row))
      && ((EmailDomainHolds(row) <==> sql) <==> (At(row, Col.Email).Text? ==> FoldsAlike(At(row, Col.Email).text)))
  {
    if At(row, Col.Email) == Null {
      NoAddressPasses(row);
    } else {
      var a := At(row, Col.Email).text;
      TwinIs(row, a);
      RenderedIs(row, a);
      TwinsOf(a);
    }
  }

  lemma TwinsOf(a: string)
    ensures EmailAddress.DomainIsFoldedInSql(a) ==> EmailAddress.DomainIsFolded(a)
    ensures (EmailAddress.DomainIsFolded(a) <==> EmailAddress.DomainIsFoldedInSql(a)) <==> FoldsAlike(a)
  {
    EmailAddress.TwinsAgreeExactly(a);
    if EmailAddress.DomainIsFoldedInSql(a) { EmailAddress.SqlRefusesMore(a); }
  }

  predicate FoldsAlike(a: string) { EmailAddress.LastAt(a) >= 0 || a == EmailAddress.Lower(a) }

  lemma DeclaredTwinsFollow(t: Tab, row: Row)
    requires Typed(Declared(t), row)
    ensures TwinsFollow(Declared(t), row)
  {
    if t == Tab.AuthIdentity { IdentityTwinFollows(row); }
  }

  lemma IdentityTwinFollows(row: Row)
    requires Typed(IdentityTable(), row)
    ensures TwinsFollow(IdentityTable(), row)
  {
    assert IdentityTable().columns[4] == IdentityColumn(4);
    assert TypeOk(At(row, Col.Email), TextType);
    EmailTwinFollows(row);
  }
}
