/** The schema as migration statements, and what executing them declares.

    Statements are trees rather than text: quoting, layout and comments are not modelled. */
module Ddl {
  import opened Store
  import opened Schema

  // ---- statements ----

  datatype Column = Column(name: Col, kind: ColumnType, nullable: bool)

  datatype Term = IsTrue(column: Col) | IsPresent(column: Col) | IsAbsent(column: Col)

  datatype Index = Index(columns: seq<Col>, where: seq<Term>)

  datatype Statement =
    | CreateTable(table: Tab, columns: seq<Column>, primaryKey: seq<Col>, foreignKeys: seq<ForeignKey>, checks: seq<Expr>)
    | CreateUniqueIndex(table: Tab, index: Index)
    | CreateIndex(table: Tab, over: seq<Col>)
    | AddColumn(table: Tab, column: Column, fill: Option<Value>)
    | DropDefault(table: Tab, name: Col)

  // ---- rendering ----

  function Rendered(c: ColumnSpec): Column { Column(c.name, c.kind, c.nullable) }

  function KindOf(columns: seq<ColumnSpec>, c: Col): Option<ColumnType> {
    if columns == [] then None else if columns[0].name == c then Some(columns[0].kind) else KindOf(columns[1..], c)
  }

  /** A boolean column stands for itself, any other for a null test. */
  function PresentTerms(spec: TableSpec, present: seq<Col>): seq<Term> {
    seq(|present|, i requires 0 <= i < |present| =>
      if KindOf(spec.columns, present[i]) == Some(BooleanType) then IsTrue(present[i]) else IsPresent(present[i]))
  }

  function AbsentTerms(absent: seq<Col>): seq<Term> {
    seq(|absent|, i requires 0 <= i < |absent| => IsAbsent(absent[i]))
  }

  function RenderIndex(spec: TableSpec, u: UniqueSpec): Index {
    Index(u.columns, PresentTerms(spec, u.present) + AbsentTerms(u.absent))
  }

  /** The columns no later migration adds. */
  function Kept(columns: seq<ColumnSpec>, later: set<Col>): seq<Column> {
    if columns == [] then []
    else (if columns[0].name in later then [] else [Rendered(columns[0])]) + Kept(columns[1..], later)
  }

  function Expressions(checks: seq<Check>): seq<Expr> {
    seq(|checks|, i requires 0 <= i < |checks| => checks[i].expression)
  }

  function RenderUniques(spec: TableSpec, unique: seq<UniqueSpec>): seq<Statement> {
    if unique == [] then []
    else [CreateUniqueIndex(spec.name, RenderIndex(spec, unique[0]))] + RenderUniques(spec, unique[1..])
  }

  function RenderIndexes(t: Tab, indexes: seq<seq<Col>>): seq<Statement> {
    if indexes == [] then [] else [CreateIndex(t, indexes[0])] + RenderIndexes(t, indexes[1..])
  }

  function RenderTable(spec: TableSpec, later: set<Col>): seq<Statement> {
    [CreateTable(spec.name, Kept(spec.columns, later), spec.primaryKey, spec.foreignKeys, Expressions(spec.checks))]
    + RenderUniques(spec, spec.unique) + RenderIndexes(spec.name, spec.indexes)
  }

  function RenderAdd(t: Tab, c: ColumnSpec, fill: Option<Value>): seq<Statement> {
    if c.nullable || fill.None? then [AddColumn(t, Rendered(c), None)]
    else [AddColumn(t, Rendered(c), fill), DropDefault(t, c.name)]
  }

  /** The descriptor entry of a name; the renderer throws where there is none. */
  function Entry(columns: seq<ColumnSpec>, c: Col): Option<ColumnSpec> {
    if columns == [] then None else if columns[0].name == c then Some(columns[0]) else Entry(columns[1..], c)
  }

  // ---- migrations ----

  datatype Change = Create(table: Tab) | Add(table: Tab, column: Col, fill: Option<Value>)

  type Descriptor = Tab -> TableSpec

  /** The columns of a table that some migration adds by ALTER. */
  function Later(changes: seq<Change>, t: Tab): set<Col> {
    set i | 0 <= i < |changes| && changes[i].Add? && changes[i].table == t :: changes[i].column
  }

  function RenderChange(schema: Descriptor, all: seq<Change>, change: Change): Option<seq<Statement>> {
    match change
    case Create(t) => Some(RenderTable(schema(t), Later(all, t)))
    case Add(t, c, fill) =>
      if Entry(schema(t).columns, c).None? then None else Some(RenderAdd(t, Entry(schema(t).columns, c).value, fill))
  }

  /** The migrations in order: each creates its tables, then adds its columns. */
  const CHANGES: seq<Change> := [
    Create(Tab.AbaUser), Create(Tab.AuthIdentity), Create(Tab.Session), Create(Tab.Device),
    Create(Tab.LoginChallenge), Add(Tab.Session, Col.DigestVersion, Some(Number(1))),
    Add(Tab.LoginChallenge, Col.ResolvedSubject, None), Add(Tab.LoginChallenge, Col.ResolvedEmail, None)]

  // ---- executing ----

  datatype Relation = Relation(
    columns: seq<Column>, primaryKey: seq<Col>, foreignKeys: seq<ForeignKey>, checks: seq<Expr>,
    uniques: seq<Index>, defaults: set<Col>)

  type Catalog = map<Tab, Relation>

  function ColumnNames(columns: seq<Column>): set<Col> { set i | 0 <= i < |columns| :: columns[i].name }

  predicate NoDuplicates(columns: seq<Column>) {
    forall i, j | 0 <= i < j < |columns| :: columns[i].name != columns[j].name
  }

  function Mentions(e: Expr): set<Col> {
    match e
    case IsNull(c) => {c}
    case In(c, _) => {c}
    case Same(a, b) => Mentions(a) + Mentions(b)
    case Not(a) => Mentions(a)
    case Or(a, b) => Mentions(a) + Mentions(b)
    case DomainFolded(c) => {c}
  }

  predicate Known(names: set<Col>, columns: seq<Col>) { forall i | 0 <= i < |columns| :: columns[i] in names }

  predicate ForeignDeclarable(catalog: Catalog, names: set<Col>, fk: ForeignKey) {
    Known(names, fk.columns) && fk.table in catalog && Known(ColumnNames(catalog[fk.table].columns), fk.references)
  }

  predicate Declarable(catalog: Catalog, s: Statement)
    requires s.CreateTable?
  {
    var names := ColumnNames(s.columns);
    && s.table !in catalog && NoDuplicates(s.columns) && Known(names, s.primaryKey)
    && (forall i | 0 <= i < |s.foreignKeys| :: ForeignDeclarable(catalog, names, s.foreignKeys[i]))
    && (forall i | 0 <= i < |s.checks| :: Mentions(s.checks[i]) <= names)
  }

  predicate TermsKnown(names: set<Col>, where: seq<Term>) { forall i | 0 <= i < |where| :: where[i].column in names }

  /** None where the database would report an error. */
  function Execute(catalog: Catalog, s: Statement): Option<Catalog> {
    match s
    case CreateTable(t, columns, pk, fks, checks) =>
      if Declarable(catalog, s) then Some(catalog[t := Relation(columns, pk, fks, checks, [], {})]) else None
    case CreateUniqueIndex(t, index) =>
      if t in catalog && Known(ColumnNames(catalog[t].columns), index.columns)
         && TermsKnown(ColumnNames(catalog[t].columns), index.where)
      then Some(catalog[t := catalog[t].(uniques := catalog[t].uniques + [index])]) else None
    case CreateIndex(t, columns) =>
      if t in catalog && Known(ColumnNames(catalog[t].columns), columns) then Some(catalog) else None
    case AddColumn(t, column, fill) =>
      if t in catalog && column.name !in ColumnNames(catalog[t].columns) then
        Some(catalog[t := catalog[t].(columns := catalog[t].columns + [column],
                                      defaults := catalog[t].defaults + if fill.Some? then {column.name} else {})])
      else None
    case DropDefault(t, name) =>
      if t in catalog && name in ColumnNames(catalog[t].columns)
      then Some(catalog[t := catalog[t].(defaults := catalog[t].defaults - {name})]) else None
  }

  function Run(catalog: Catalog, statements: seq<Statement>): Option<Catalog>
    decreases |statements|
  {
    if statements == [] then Some(catalog)
    else
      match Execute(catalog, statements[0])
      case None => None
      case Some(next) => Run(next, statements[1..])
  }

  /** Render and execute one change. */
  function Apply(schema: Descriptor, changes: seq<Change>, change: Change, catalog: Catalog): Option<Catalog> {
    match RenderChange(schema, changes, change)
    case None => None
    case Some(statements) => Run(catalog, statements)
  }

  /** Render and execute the first `n` changes. */
  function Replay(schema: Descriptor, changes: seq<Change>, n: nat): Option<Catalog>
    requires n <= |changes|
  {
    if n == 0 then Some(map[])
    else
      var before := Replay(schema, changes, n - 1);
      if before.None? then None else Apply(schema, changes, changes[n - 1], before.value)
  }

  // ---- the migrations cover the descriptor ----

  /** The columns every statement that creates the table speaks of are there from the start. */
  ghost predicate ClosedOver(spec: TableSpec, names: set<Col>) {
    && Known(names, spec.primaryKey)
    && (forall i | 0 <= i < |spec.foreignKeys| :: Known(names, spec.foreignKeys[i].columns))
    && (forall i | 0 <= i < |spec.checks| :: Mentions(spec.checks[i].expression) <= names)
    && (forall i | 0 <= i < |spec.unique| :: UniqueClosed(spec.unique[i], names))
    && (forall i | 0 <= i < |spec.indexes| :: Known(names, spec.indexes[i]))
  }

  ghost predicate UniqueClosed(u: UniqueSpec, names: set<Col>) {
    Known(names, u.columns) && Known(names, u.present) && Known(names, u.absent)
  }

  ghost predicate NamesDiffer(columns: seq<ColumnSpec>) {
    forall i, j | 0 <= i < j < |columns| :: columns[i].name != columns[j].name
  }

  function EarlyNames(spec: TableSpec, later: set<Col>): set<Col> { ColumnNames(Kept(spec.columns, later)) }

  ghost predicate CreatedBefore(changes: seq<Change>, n: nat, t: Tab)
    requires n <= |changes|
  {
    exists i | 0 <= i < n :: changes[i] == Create(t)
  }

  ghost predicate CreateInOrder(schema: Descriptor, changes: seq<Change>, n: nat)
    requires n < |changes| && changes[n].Create?
  {
    var t := changes[n].table;
    && !CreatedBefore(changes, n, t)
    && forall i | 0 <= i < |schema(t).foreignKeys| ::
         var fk := schema(t).foreignKeys[i];
         && CreatedBefore(changes, n, fk.table)
         && Known(EarlyNames(schema(fk.table), Later(changes, fk.table)), fk.references)
  }

  ghost predicate AddInOrder(schema: Descriptor, changes: seq<Change>, n: nat)
    requires n < |changes| && changes[n].Add?
  {
    var t, c := changes[n].table, changes[n].column;
    && CreatedBefore(changes, n, t) && Entry(schema(t).columns, c).Some?
    && forall i | 0 <= i < n && changes[i].Add? && changes[i].table == t :: changes[i].column != c
  }

  ghost predicate Covers(schema: Descriptor, changes: seq<Change>) {
    && (forall t: Tab :: schema(t).name == t && NamesDiffer(schema(t).columns)
                      && ClosedOver(schema(t), EarlyNames(schema(t), Later(changes, t))))
    && (forall n | 0 <= n < |changes| && changes[n].Create? :: CreateInOrder(schema, changes, n))
    && (forall n | 0 <= n < |changes| && changes[n].Add? :: AddInOrder(schema, changes, n))
  }

  // ---- what a prefix of the migrations has declared ----

  function AddedColumns(schema: Descriptor, changes: seq<Change>, n: nat, t: Tab): seq<Column>
    requires n <= |changes|
  {
    if n == 0 then []
    else
      var change := changes[n - 1];
      AddedColumns(schema, changes, n - 1, t)
      + if change.Add? && change.table == t && Entry(schema(t).columns, change.column).Some?
        then [Rendered(Entry(schema(t).columns, change.column).value)] else []
  }

  function RenderedIndexes(spec: TableSpec, unique: seq<UniqueSpec>): seq<Index> {
    if unique == [] then [] else [RenderIndex(spec, unique[0])] + RenderedIndexes(spec, unique[1..])
  }

  function RelationAfter(spec: TableSpec, columns: seq<Column>): Relation {
    Relation(columns, spec.primaryKey, spec.foreignKeys, Expressions(spec.checks), RenderedIndexes(spec, spec.unique), {})
  }

  ghost predicate PresentSoFar(changes: seq<Change>, n: nat, catalog: Catalog)
    requires n <= |changes|
  {
    forall t: Tab :: t in catalog <==> CreatedBefore(changes, n, t)
  }

  ghost predicate ShapedSoFar(schema: Descriptor, changes: seq<Change>, n: nat, catalog: Catalog)
    requires n <= |changes|
  {
    forall t | t in catalog :: catalog[t] == RelationAfter(schema(t),
      Kept(schema(t).columns, Later(changes, t)) + AddedColumns(schema, changes, n, t))
  }

  ghost predicate AllDiffer(catalog: Catalog) { forall t | t in catalog :: NoDuplicates(catalog[t].columns) }

  ghost predicate DeclaredSoFar(schema: Descriptor, changes: seq<Change>, n: nat, catalog: Catalog)
    requires n <= |changes|
  {
    PresentSoFar(changes, n, catalog) && ShapedSoFar(schema, changes, n, catalog) && AllDiffer(catalog)
  }

  lemma {:induction false} RunJoined(catalog: Catalog, a: seq<Statement>, b: seq<Statement>)
    ensures Run(catalog, a + b) == match Run(catalog, a) case None => None case Some(c) => Run(c, b)
    decreases |a|
  {
    if a == [] {
      assert a + b == b;
    } else {
      assert (a + b)[0] == a[0] && (a + b)[1..] == a[1..] + b;
      match Execute(catalog, a[0]) {
        case None =>
        case Some(next) => RunJoined(next, a[1..], b);
      }
    }
  }

  lemma IndexIsKnown(spec: TableSpec, u: UniqueSpec, names: set<Col>)
    requires UniqueClosed(u, names)
    ensures Known(names, RenderIndex(spec, u).columns) && TermsKnown(names, RenderIndex(spec, u).where)
  {
  }

  lemma {:induction false} UniquesRun(catalog: Catalog, spec: TableSpec, unique: seq<UniqueSpec>)
    requires spec.name in catalog
    requires forall i | 0 <= i < |unique| :: UniqueClosed(unique[i], ColumnNames(catalog[spec.name].columns))
    ensures Run(catalog, RenderUniques(spec, unique)) == Some(catalog[spec.name := catalog[spec.name].(
              uniques := catalog[spec.name].uniques + RenderedIndexes(spec, unique))])
  {
    var t := spec.name;
    if unique == [] {
      assert catalog[t].uniques + [] == catalog[t].uniques;
      assert catalog[t := catalog[t]] == catalog;
    } else {
      IndexIsKnown(spec, unique[0], ColumnNames(catalog[t].columns));
      var s := CreateUniqueIndex(t, RenderIndex(spec, unique[0]));
      var next := Execute(catalog, s).value;
      UniquesRun(next, spec, unique[1..]);
      assert RenderUniques(spec, unique)[0] == s && RenderUniques(spec, unique)[1..] == RenderUniques(spec, unique[1..]);
      assert next[t].uniques + RenderedIndexes(spec, unique[1..]) == catalog[t].uniques + RenderedIndexes(spec, unique);
      var all := catalog[t].(uniques := catalog[t].uniques + RenderedIndexes(spec, unique));
      assert next[t := all] == catalog[t := all];
    }
  }

  lemma {:induction false} IndexesRun(catalog: Catalog, t: Tab, indexes: seq<seq<Col>>)
    requires t in catalog && forall i | 0 <= i < |indexes| :: Known(ColumnNames(catalog[t].columns), indexes[i])
    ensures Run(catalog, RenderIndexes(t, indexes)) == Some(catalog)
  {
    if indexes != [] {
      IndexesRun(catalog, t, indexes[1..]);
      assert RenderIndexes(t, indexes)[1..] == RenderIndexes(t, indexes[1..]);
    }
  }

  /** The descriptor has that very column. */
  ghost predicate Describes(columns: seq<ColumnSpec>, c: Column) {
    exists i | 0 <= i < |columns| :: Rendered(columns[i]) == c
  }

  lemma DescribesHead(columns: seq<ColumnSpec>, c: Column)
    requires columns != []
    ensures Describes(columns, c) <==> Rendered(columns[0]) == c || Describes(columns[1..], c)
  {
    var rest := columns[1..];
    if Describes(columns, c) {
      var i :| 0 <= i < |columns| && Rendered(columns[i]) == c;
      if i > 0 { assert rest[i - 1] == columns[i]; }
    }
    if Describes(rest, c) {
      var i :| 0 <= i < |rest| && Rendered(rest[i]) == c;
      assert columns[i + 1] == rest[i];
    }
  }

  lemma {:induction false} KeptExactly(columns: seq<ColumnSpec>, later: set<Col>, c: Column)
    ensures c in Kept(columns, later) <==> c.name !in later && Describes(columns, c)
  {
    if columns != [] {
      KeptExactly(columns[1..], later, c);
      DescribesHead(columns, c);
    }
  }

  lemma {:induction false} KeptDiffer(columns: seq<ColumnSpec>, later: set<Col>)
    requires NamesDiffer(columns)
    ensures NoDuplicates(Kept(columns, later))
  {
    if columns != [] {
      var rest := Kept(columns[1..], later);
      KeptDiffer(columns[1..], later);
      forall j | 0 <= j < |rest| ensures rest[j].name != columns[0].name {
        KeptExactly(columns[1..], later, rest[j]);
        assert rest[j] in rest;
        var i :| 0 <= i < |columns[1..]| && Rendered(columns[1..][i]) == rest[j];
        assert columns[i + 1] == columns[1..][i];
      }
    }
  }
}
