/** The three migrations cover the five tables. */
module DdlCoverage {
  import opened Store
  import opened Schema
  import opened Ddl
  import opened DdlReplay

  /** The columns the constraints of a table speak of. */
  function Spoken(t: Tab): set<Col> {
    match t
    case AbaUser => {Col.Id, Col.State, Col.DeletedAt}
    case AuthIdentity => {Col.Id, Col.AbaUserId, Col.Kind, Col.Subject, Col.Email, Col.EmailVerified}
    case Session =>
      {Col.Id, Col.AbaUserId, Col.AuthIdentityId, Col.FamilyId, Col.RefreshDigest, Col.RevokedAt, Col.RevokedReason}
    case Device => {Col.AbaUserId, Col.DeviceId, Col.RetiredAt}
    case LoginChallenge =>
      {Col.Id, Col.Method, Col.Purpose, Col.AbaUserId, Col.State, Col.ExchangeDigest, Col.ExpiresAt}
  }

  function AddedLater(t: Tab): set<Col> {
    match t
    case Session => {Col.DigestVersion}
    case LoginChallenge => {Col.ResolvedSubject, Col.ResolvedEmail}
    case _ => {}
  }

  function Rank(t: Tab): nat {
    match t
    case AbaUser => 0
    case AuthIdentity => 1
    case Session => 2
    case Device => 3
    case LoginChallenge => 4
  }

  /** What has to be looked up in the descriptor, table by table. */
  ghost predicate Fits(spec: TableSpec, t: Tab) {
    && spec.name == t && NamesDiffer(spec.columns)
    && (forall names | Spoken(t) <= names :: ClosedOver(spec, names))
    && (forall c | c in Spoken(t) + AddedLater(t) :: HasColumn(spec, c))
    && (forall i | 0 <= i < |spec.foreignKeys| :: PointsBack(spec.foreignKeys[i], t))
  }

  predicate PointsBack(fk: ForeignKey, t: Tab) {
    Rank(fk.table) < Rank(t) && fk.references == [Col.Id] && Col.Id in Spoken(fk.table)
  }

  // ---- lookups ----

  lemma DifferByPlace(columns: seq<ColumnSpec>, column: nat -> ColumnSpec, place: Col -> int)
    requires forall i: nat | i < |columns| :: columns[i] == column(i)
    requires forall i: nat | i < |columns| :: place(column(i).name) == i
    ensures NamesDiffer(columns)
  {
    forall i, j | 0 <= i < j < |columns| ensures columns[i].name != columns[j].name {
      assert columns[i] == column(i) && columns[j] == column(j);
      assert place(column(i).name) == i && place(column(j).name) == j;
    }
  }

  /** A name at a place is a column. */
  lemma HasAt(spec: TableSpec, i: nat, c: Col)
    requires i < |spec.columns| && spec.columns[i].name == c
    ensures HasColumn(spec, c)
  {
  }

  lemma UserHas(c: Col)
    requires c in Spoken(Tab.AbaUser)
    ensures HasColumn(UserTable(), c)
  {
    HasAt(UserTable(), match c case Id => 0 case State => 2 case _ => 3, c);
  }

  lemma UserDiffers()
    ensures NamesDiffer(UserTable().columns)
  {
    DifferByPlace(UserTable().columns, UserColumn, (c: Col) => match c case Id => 0 case CreatedAt => 1 case State => 2 case _ => 3);
  }

  lemma UserFits()
    ensures Fits(UserTable(), Tab.AbaUser)
  {
    UserDiffers();
    forall c | c in Spoken(Tab.AbaUser) ensures HasColumn(UserTable(), c) { UserHas(c); }
    forall names | Spoken(Tab.AbaUser) <= names ensures ClosedOver(UserTable(), names) { UserCloses(names); }
  }

  lemma UserCloses(names: set<Col>)
    requires Spoken(Tab.AbaUser) <= names
    ensures ClosedOver(UserTable(), names)
  {
  }

  lemma DeviceHas(c: Col)
    requires c in Spoken(Tab.Device)
    ensures HasColumn(DeviceTable(), c)
  {
    HasAt(DeviceTable(), match c case AbaUserId => 0 case DeviceId => 1 case _ => 4, c);
  }

  lemma DeviceDiffers()
    ensures NamesDiffer(DeviceTable().columns)
  {
    DifferByPlace(DeviceTable().columns, DeviceColumn, (c: Col) =>
      match c
      case AbaUserId => 0 case DeviceId => 1 case RegisteredAt => 2 case LastSeenAt => 3 case RetiredAt => 4
      case _ => 5);
  }

  lemma DeviceFits()
    ensures Fits(DeviceTable(), Tab.Device)
  {
    DeviceDiffers();
    forall c | c in Spoken(Tab.Device) ensures HasColumn(DeviceTable(), c) { DeviceHas(c); }
    forall names | Spoken(Tab.Device) <= names ensures ClosedOver(DeviceTable(), names) { DeviceCloses(names); }
  }

  lemma DeviceCloses(names: set<Col>)
    requires Spoken(Tab.Device) <= names
    ensures ClosedOver(DeviceTable(), names)
  {
  }

  lemma IdentityDiffers()
    ensures NamesDiffer(IdentityTable().columns)
  {
    DifferByPlace(IdentityTable().columns, IdentityColumn, (c: Col) =>
      match c
      case Id => 0 case AbaUserId => 1 case Kind => 2 case Subject => 3 case Email => 4 case EmailVerified => 5
      case LinkedAt => 6 case LinkedVia => 7 case _ => 8);
  }

  lemma IdentityHas(c: Col)
    requires c in Spoken(Tab.AuthIdentity)
    ensures HasColumn(IdentityTable(), c)
  {
    HasAt(IdentityTable(), match c case Id => 0 case AbaUserId => 1 case Kind => 2 case Subject => 3 case Email => 4 case _ => 5, c);
  }

  lemma IdentityCloses(names: set<Col>)
    requires Spoken(Tab.AuthIdentity) <= names
    ensures ClosedOver(IdentityTable(), names)
  {
  }

  lemma IdentityFits()
    ensures Fits(IdentityTable(), Tab.AuthIdentity)
  {
    IdentityDiffers();
    forall c | c in Spoken(Tab.AuthIdentity) ensures HasColumn(IdentityTable(), c) { IdentityHas(c); }
    forall names | Spoken(Tab.AuthIdentity) <= names ensures ClosedOver(IdentityTable(), names) { IdentityCloses(names); }
  }

  lemma SessionDiffers()
    ensures NamesDiffer(SessionTable().columns)
  {
    DifferByPlace(SessionTable().columns, SessionColumn, (c: Col) =>
      match c
      case Id => 0 case AbaUserId => 1 case AuthIdentityId => 2 case FamilyId => 3 case RefreshDigest => 4
      case DigestVersion => 5 case IssuedAt => 6 case ExpiresAt => 7 case RotatedAt => 8 case RevokedAt => 9
      case RevokedReason => 10 case _ => 11);
  }

  lemma SessionHas(c: Col)
    requires c in Spoken(Tab.Session) + AddedLater(Tab.Session)
    ensures HasColumn(SessionTable(), c)
  {
    var i := match c
      case Id => 0 case AbaUserId => 1 case AuthIdentityId => 2 case FamilyId => 3 case RefreshDigest => 4
      case DigestVersion => 5 case RevokedAt => 9 case _ => 10;
    HasAt(SessionTable(), i, c);
  }

  lemma SessionCloses(names: set<Col>)
    requires Spoken(Tab.Session) <= names
    ensures ClosedOver(SessionTable(), names)
  {
  }

  lemma SessionFits()
    ensures Fits(SessionTable(), Tab.Session)
  {
    SessionDiffers();
    forall c | c in Spoken(Tab.Session) + AddedLater(Tab.Session) ensures HasColumn(SessionTable(), c) { SessionHas(c); }
    forall names | Spoken(Tab.Session) <= names ensures ClosedOver(SessionTable(), names) { SessionCloses(names); }
  }

  lemma ChallengeDiffers()
    ensures NamesDiffer(ChallengeTable().columns)
  {
    DifferByPlace(ChallengeTable().columns, ChallengeColumn, (c: Col) =>
      match c
      case Id => 0 case Method => 1 case Purpose => 2 case AbaUserId => 3 case State => 4 case Nonce => 5
      case PkceVerifier => 6 case RedirectUri => 7 case ExchangeDigest => 8 case ResolvedAbaUserId => 9
      case ResolvedAuthIdentityId => 10 case ResolvedSubject => 11 case ResolvedEmail => 12 case Attempts => 13
      case CreatedAt => 14 case ExpiresAt => 15 case _ => 16);
  }

  lemma ChallengeHas(c: Col)
    requires c in Spoken(Tab.LoginChallenge) + AddedLater(Tab.LoginChallenge)
    ensures HasColumn(ChallengeTable(), c)
  {
    var i := match c
      case Id => 0 case Method => 1 case Purpose => 2 case AbaUserId => 3 case State => 4 case ExchangeDigest => 8
      case ResolvedSubject => 11 case ResolvedEmail => 12 case _ => 15;
    HasAt(ChallengeTable(), i, c);
  }

  lemma ChallengeCloses(names: set<Col>)
    requires Spoken(Tab.LoginChallenge) <= names
    ensures ClosedOver(ChallengeTable(), names)
  {
  }

  lemma ChallengeFits()
    ensures Fits(ChallengeTable(), Tab.LoginChallenge)
  {
    ChallengeDiffers();
    forall c | c in Spoken(Tab.LoginChallenge) + AddedLater(Tab.LoginChallenge) ensures HasColumn(ChallengeTable(), c) {
      ChallengeHas(c);
    }
    forall names | Spoken(Tab.LoginChallenge) <= names ensures ClosedOver(ChallengeTable(), names) { ChallengeCloses(names); }
  }

  lemma EveryTableFits(t: Tab)
    ensures Fits(Declared(t), t)
  {
    match t {
      case AbaUser => UserFits();
      case AuthIdentity => IdentityFits();
      case Session => SessionFits();
      case Device => DeviceFits();
      case LoginChallenge => ChallengeFits();
    }
  }

  // ---- coverage, from the lookups alone ----

  lemma LaterHere(t: Tab)
    ensures Later(CHANGES, t) == AddedLater(t)
  {
    assert CHANGES[5] == Add(Tab.Session, Col.DigestVersion, Some(Number(1)));
    assert CHANGES[6] == Add(Tab.LoginChallenge, Col.ResolvedSubject, None);
    assert CHANGES[7] == Add(Tab.LoginChallenge, Col.ResolvedEmail, None);
  }

  lemma Early(spec: TableSpec, later: set<Col>, name: Col)
    requires HasColumn(spec, name) && name !in later
    ensures name in EarlyNames(spec, later)
  {
    var i :| 0 <= i < |spec.columns| && spec.columns[i].name == name;
    var c := Rendered(spec.columns[i]);
    assert Describes(spec.columns, c);
    KeptExactly(spec.columns, later, c);
    var kept := Kept(spec.columns, later);
    var j :| 0 <= j < |kept| && kept[j] == c;
    assert kept[j].name in ColumnNames(kept);
  }

  lemma AllEarly(spec: TableSpec, names: set<Col>, later: set<Col>)
    requires names !! later && forall c | c in names :: HasColumn(spec, c)
    ensures names <= EarlyNames(spec, later)
  {
    forall c | c in names ensures c in EarlyNames(spec, later) { Early(spec, later, c); }
  }

  lemma SpokenIsEarly(schema: Descriptor, t: Tab)
    requires Fits(schema(t), t)
    ensures Spoken(t) <= EarlyNames(schema(t), Later(CHANGES, t))
  {
    LaterHere(t);
    SpokenNow(t);
    AllEarly(schema(t), Spoken(t), AddedLater(t));
  }

  lemma SpokenNow(t: Tab)
    ensures Spoken(t) !! AddedLater(t)
  {
  }

  lemma Created(n: nat, t: Tab)
    requires n <= 8
    ensures CreatedBefore(CHANGES, n, t) <==> Rank(t) < n
  {
    assert CHANGES[0] == Create(Tab.AbaUser) && CHANGES[1] == Create(Tab.AuthIdentity)
      && CHANGES[2] == Create(Tab.Session) && CHANGES[3] == Create(Tab.Device)
      && CHANGES[4] == Create(Tab.LoginChallenge);
    assert CHANGES[5].Add? && CHANGES[6].Add? && CHANGES[7].Add?;
  }

  lemma CreatesInOrder(schema: Descriptor, n: nat)
    requires n < |CHANGES| && CHANGES[n].Create? && forall t: Tab :: Fits(schema(t), t)
    ensures CreateInOrder(schema, CHANGES, n)
  {
    var t := CHANGES[n].table;
    Created(n, t);
    assert Fits(schema(t), t);
    forall i | 0 <= i < |schema(t).foreignKeys|
      ensures CreatedBefore(CHANGES, n, schema(t).foreignKeys[i].table)
      ensures var fk := schema(t).foreignKeys[i];
        Known(EarlyNames(schema(fk.table), Later(CHANGES, fk.table)), fk.references)
    {
      var fk := schema(t).foreignKeys[i];
      assert PointsBack(fk, t);
      Created(n, fk.table);
      assert Fits(schema(fk.table), fk.table);
      SpokenIsEarly(schema, fk.table);
    }
  }

  lemma {:induction false} EntryIsThere(columns: seq<ColumnSpec>, c: Col)
    requires exists i | 0 <= i < |columns| :: columns[i].name == c
    ensures Entry(columns, c).Some?
  {
    if columns[0].name != c {
      var i :| 0 <= i < |columns| && columns[i].name == c;
      assert columns[1..][i - 1].name == c;
      EntryIsThere(columns[1..], c);
    }
  }

  lemma AddsAre(n: nat)
    requires n < |CHANGES| && CHANGES[n].Add?
    ensures n >= 5 && CHANGES[n].column in AddedLater(CHANGES[n].table) && Rank(CHANGES[n].table) < 5
    ensures forall i | 0 <= i < n && CHANGES[i].Add? :: CHANGES[i].column != CHANGES[n].column
  {
  }

  lemma AddsInOrder(schema: Descriptor, n: nat)
    requires n < |CHANGES| && CHANGES[n].Add? && forall t: Tab :: Fits(schema(t), t)
    ensures AddInOrder(schema, CHANGES, n)
  {
    var t := CHANGES[n].table;
    AddsAre(n);
    Created(n, t);
    assert Fits(schema(t), t);
    assert HasColumn(schema(t), CHANGES[n].column);
    EntryIsThere(schema(t).columns, CHANGES[n].column);
  }

  lemma MigrationsCover(schema: Descriptor)
    requires forall t: Tab :: Fits(schema(t), t)
    ensures Covers(schema, CHANGES)
  {
    forall t: Tab
      ensures schema(t).name == t && NamesDiffer(schema(t).columns)
      ensures ClosedOver(schema(t), EarlyNames(schema(t), Later(CHANGES, t)))
    {
      assert Fits(schema(t), t);
      SpokenIsEarly(schema, t);
    }
    forall n | 0 <= n < |CHANGES| && CHANGES[n].Create? ensures CreateInOrder(schema, CHANGES, n) {
      CreatesInOrder(schema, n);
    }
    forall n | 0 <= n < |CHANGES| && CHANGES[n].Add? ensures AddInOrder(schema, CHANGES, n) {
      AddsInOrder(schema, n);
    }
  }

  lemma FittingSchemaIsDeclared(schema: Descriptor, t: Tab)
    requires forall u: Tab :: Fits(schema(u), u)
    ensures Replay(schema, CHANGES, |CHANGES|).Some?
    ensures var catalog := Replay(schema, CHANGES, |CHANGES|).value;
      t in catalog && IsTable(schema(t), catalog[t])
  {
    MigrationsCover(schema);
    MigrationsMatchTheDescriptor(schema, CHANGES, t);
    Created(8, t);
    ReplayDeclares(schema, CHANGES, |CHANGES|);
  }

  /** Replaying the checked-in migrations declares all five tables exactly. */
  lemma MigrationsMatchTheSchema(t: Tab)
    ensures Replay(Declared, CHANGES, |CHANGES|).Some?
    ensures var catalog := Replay(Declared, CHANGES, |CHANGES|).value;
      t in catalog && IsTable(Declared(t), catalog[t])
  {
    forall u: Tab ensures Fits(Declared(u), u) { EveryTableFits(u); }
    FittingSchemaIsDeclared(Declared, t);
  }
}
