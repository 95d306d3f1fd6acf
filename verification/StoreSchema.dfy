/** The typed tables of `Store` as rows of the declared schema. */
module StoreSchema {
  import opened Store
  import opened Schema
  import opened Engine
  import opened EngineSafety
  import opened DdlAgreement
  import C = DdlCoverage
  import Challenges
  import Devices
  import EmailAddress

  function TextOr(o: Option<string>): Value { if o.Some? then Text(o.value) else Null }
  function TimeOr(o: Option<int>): Value { if o.Some? then Number(o.value) else Null }

  function StateName(s: AccountState): string { if s.Active? then "active" else "deleted" }
  function KindName(k: Store.Kind): string { if k.Google? then "google" else "email" }

  function UserCell(u: UserRow, c: Col): Value {
    match c
    case Id => Text(u.id)
    case CreatedAt => Number(u.createdAt)
    case State => Text(StateName(u.state))
    case DeletedAt => TimeOr(u.deletedAt)
    case _ => Null
  }

  function IdentityCell(i: IdentityRow, c: Col): Value {
    match c
    case Id => Text(i.id)
    case AbaUserId => Text(i.owner)
    case Kind => Text(KindName(i.kind))
    case Subject => TextOr(i.subject)
    case Email => TextOr(i.email)
    case EmailVerified => Flag(i.emailVerified)
    case LinkedAt => Number(i.linkedAt)
    case LinkedVia => TextOr(i.linkedVia)
    case LastUsedAt => TimeOr(i.lastUsedAt)
    case _ => Null
  }

  function SessionCell(s: SessionRow, c: Col): Value {
    match c
    case Id => Text(s.id)
    case AbaUserId => Text(s.owner)
    case AuthIdentityId => TextOr(s.identity)
    case FamilyId => Text(s.family)
    case RefreshDigest => Text(s.digest)
    case DigestVersion => Number(s.digestVersion)
    case IssuedAt => Number(s.issuedAt)
    case ExpiresAt => Number(s.expiresAt)
    case RotatedAt => TimeOr(s.rotatedAt)
    case RevokedAt => TimeOr(s.revokedAt)
    case RevokedReason => TextOr(s.revokedReason)
    case LastSeenAt => Number(s.lastSeenAt)
    case _ => Null
  }

  function PurposeName(p: Challenges.Purpose): string { if p.SignIn? then "sign_in" else "link" }

  function ChallengeCell(r: Challenges.Challenge, c: Col): Value {
    match c
    case Id => Text(r.id)
    case Method => Text("google")
    case Purpose => Text(PurposeName(r.purpose))
    case AbaUserId => TextOr(r.account)
    case State => Text(r.state)
    case Nonce => Text(r.nonce)
    case PkceVerifier => Text(r.verifier)
    case RedirectUri => Text(r.redirect)
    case ExchangeDigest => TextOr(r.exchange)
    case ResolvedAbaUserId => TextOr(r.user)
    case ResolvedAuthIdentityId => TextOr(r.identity)
    case ResolvedSubject => TextOr(r.subject)
    case ResolvedEmail => TextOr(r.email)
    case Attempts => Number(r.attempts)
    case CreatedAt => Number(r.createdAt)
    case ExpiresAt => Number(r.expiresAt)
    case ConsumedAt => TimeOr(r.consumedAt)
    case _ => Null
  }

  function DeviceCell(r: Devices.DeviceRow, c: Col): Value {
    match c
    case AbaUserId => Text(r.user)
    case DeviceId => Text(r.device)
    case RegisteredAt => Number(r.registeredAt)
    case LastSeenAt => Number(r.lastSeenAt)
    case RetiredAt => TimeOr(r.retiredAt)
    case ReactivatedAt => TimeOr(r.reactivatedAt)
    case _ => Null
  }

  /** The place of a column in its table, or -1. */
  function UserPlace(c: Col): int {
    match c
    case Id => 0 case CreatedAt => 1 case State => 2 case DeletedAt => 3
    case _ => -1
  }

  function IdentityPlace(c: Col): int {
    match c
    case Id => 0 case AbaUserId => 1 case Kind => 2 case Subject => 3 case Email => 4 case EmailVerified => 5
    case LinkedAt => 6 case LinkedVia => 7 case LastUsedAt => 8
    case _ => -1
  }

  function SessionPlace(c: Col): int {
    match c
    case Id => 0 case AbaUserId => 1 case AuthIdentityId => 2 case FamilyId => 3 case RefreshDigest => 4
    case DigestVersion => 5 case IssuedAt => 6 case ExpiresAt => 7 case RotatedAt => 8 case RevokedAt => 9
    case RevokedReason => 10 case LastSeenAt => 11
    case _ => -1
  }

  function ChallengePlace(c: Col): int {
    match c
    case Id => 0 case Method => 1 case Purpose => 2 case AbaUserId => 3 case State => 4 case Nonce => 5
    case PkceVerifier => 6 case RedirectUri => 7 case ExchangeDigest => 8 case ResolvedAbaUserId => 9
    case ResolvedAuthIdentityId => 10 case ResolvedSubject => 11 case ResolvedEmail => 12 case Attempts => 13
    case CreatedAt => 14 case ExpiresAt => 15 case ConsumedAt => 16
    case _ => -1
  }

  function DevicePlace(c: Col): int {
    match c
    case AbaUserId => 0 case DeviceId => 1 case RegisteredAt => 2 case LastSeenAt => 3 case RetiredAt => 4
    case ReactivatedAt => 5
    case _ => -1
  }

  function UserRecord(u: UserRow): Row { map c: Col | UserPlace(c) >= 0 :: UserCell(u, c) }
  function IdentityRecord(i: IdentityRow): Row { map c: Col | IdentityPlace(c) >= 0 :: IdentityCell(i, c) }
  function SessionRecord(s: SessionRow): Row { map c: Col | SessionPlace(c) >= 0 :: SessionCell(s, c) }
  function ChallengeRecord(r: Challenges.Challenge): Row { map c: Col | ChallengePlace(c) >= 0 :: ChallengeCell(r, c) }
  function DeviceRecord(r: Devices.DeviceRow): Row { map c: Col | DevicePlace(c) >= 0 :: DeviceCell(r, c) }

  type Records = map<string, Row>

  function UserRecords(db: Db): Records { map id | id in db.users :: UserRecord(db.users[id]) }
  function IdentityRecords(db: Db): Records { map id | id in db.identities :: IdentityRecord(db.identities[id]) }
  function SessionRecords(db: Db): Records { map id | id in db.sessions :: SessionRecord(db.sessions[id]) }
  function ChallengeRecords(rows: Challenges.Rows): Records { map id | id in rows :: ChallengeRecord(rows[id]) }

  /** Rows under the key the engine gives them. */
  function Keyed(records: Records): Rows { map id | id in records :: [Text(id)] := records[id] }

  function PairKey(k: Devices.DeviceKey): Key { [Text(k.0), Text(k.1)] }

  function DeviceRecords(rows: Devices.Rows): Rows { map k | k in rows :: PairKey(k) := DeviceRecord(rows[k]) }

  /** All five tables. */
  datatype Whole = Whole(db: Db, challenges: Challenges.Rows, devices: Devices.Rows)

  function TableRows(w: Whole, t: Tab): Rows {
    match t
    case AbaUser => Keyed(UserRecords(w.db))
    case AuthIdentity => Keyed(IdentityRecords(w.db))
    case Session => Keyed(SessionRecords(w.db))
    case Device => DeviceRecords(w.devices)
    case LoginChallenge => Keyed(ChallengeRecords(w.challenges))
  }

  /** The database as the engine holds it. */
  function Embed(w: Whole): Tables { map t: Tab | true :: TableRows(w, t) }

  // ---- shape and types ----

  predicate FitsColumn(column: ColumnSpec, row: Row) {
    && column.name in row && TypeOk(row[column.name], column.kind)
    && (!column.nullable ==> row[column.name] != Null)
  }

  lemma UserShape(u: UserRow)
    ensures ShapeOk(UserTable(), UserRecord(u)) && Typed(UserTable(), UserRecord(u))
  {
    forall c | c in UserRecord(u) ensures 0 <= UserPlace(c) < 4 && UserTable().columns[UserPlace(c)].name == c {
    }
    forall i | 0 <= i < 4 ensures FitsColumn(UserTable().columns[i], UserRecord(u)) { }
  }

  lemma IdentityShape(r: IdentityRow)
    ensures ShapeOk(IdentityTable(), IdentityRecord(r)) && Typed(IdentityTable(), IdentityRecord(r))
  {
    forall c | c in IdentityRecord(r)
      ensures 0 <= IdentityPlace(c) < 9 && IdentityTable().columns[IdentityPlace(c)].name == c
    {
    }
    forall i | 0 <= i < 9 ensures FitsColumn(IdentityTable().columns[i], IdentityRecord(r)) { }
  }

  lemma SessionShape(s: SessionRow)
    ensures ShapeOk(SessionTable(), SessionRecord(s)) && Typed(SessionTable(), SessionRecord(s))
  {
    forall c | c in SessionRecord(s)
      ensures 0 <= SessionPlace(c) < 12 && SessionTable().columns[SessionPlace(c)].name == c
    {
    }
    forall i | 0 <= i < 12 ensures FitsColumn(SessionTable().columns[i], SessionRecord(s)) { }
  }

  lemma ChallengePlaced(c: Col)
    requires ChallengePlace(c) >= 0
    ensures ChallengePlace(c) < 17 && ChallengeColumn(ChallengePlace(c)).name == c
  {
  }

  lemma ChallengeFits(r: Challenges.Challenge, i: nat)
    requires i < 17
    ensures FitsColumn(ChallengeColumn(i), ChallengeRecord(r))
  {
  }

  lemma ChallengeShape(r: Challenges.Challenge)
    ensures ShapeOk(ChallengeTable(), ChallengeRecord(r)) && Typed(ChallengeTable(), ChallengeRecord(r))
  {
    forall c | c in ChallengeRecord(r)
      ensures 0 <= ChallengePlace(c) < 17 && ChallengeTable().columns[ChallengePlace(c)].name == c
    {
      ChallengePlaced(c);
    }
    forall i | 0 <= i < 17 ensures FitsColumn(ChallengeTable().columns[i], ChallengeRecord(r)) { ChallengeFits(r, i); }
  }

  lemma DeviceShape(r: Devices.DeviceRow)
    ensures ShapeOk(DeviceTable(), DeviceRecord(r)) && Typed(DeviceTable(), DeviceRecord(r))
  {
    forall c | c in DeviceRecord(r)
      ensures 0 <= DevicePlace(c) < 6 && DeviceTable().columns[DevicePlace(c)].name == c
    {
    }
    forall i | 0 <= i < 6 ensures FitsColumn(DeviceTable().columns[i], DeviceRecord(r)) { }
  }

  // ---- a lawful database ----

  /** The checks the engine is not told about. */
  ghost predicate UntwinnedHold(spec: TableSpec, row: Row) {
    forall i | 0 <= i < |spec.checks| && spec.checks[i].holds.None? :: Eval(spec.checks[i].expression, row) != No
  }

  predicate LawfulUser(id: string, u: UserRow) { u.id == id && (u.state.Deleted? <==> u.deletedAt.Some?) }

  predicate LawfulIdentity(db: Db, id: string, r: IdentityRow) {
    && r.id == id && r.owner in db.users && (r.subject.Some? || r.email.Some?)
    && (r.email.Some? ==> EmailAddress.DomainIsFolded(r.email.value))
  }

  predicate LawfulSession(db: Db, id: string, s: SessionRow) {
    && s.id == id && s.owner in db.users && (s.identity.Some? ==> s.identity.value in db.identities)
    && (s.revokedAt.Some? <==> s.revokedReason.Some?)
  }

  ghost predicate DistinctKeys(db: Db) {
    && (forall a, b | a in db.identities && b in db.identities && a != b && KeyOf(db.identities[a]).Some? ::
          KeyOf(db.identities[a]) != KeyOf(db.identities[b]))
    && (forall a, b | a in db.sessions && b in db.sessions && a != b ::
          db.sessions[a].digest != db.sessions[b].digest)
  }

  ghost predicate LawfulDb(db: Db) {
    && (forall id | id in db.users :: LawfulUser(id, db.users[id]))
    && (forall id | id in db.identities :: LawfulIdentity(db, id, db.identities[id]))
    && (forall id | id in db.sessions :: LawfulSession(db, id, db.sessions[id]))
    && DistinctKeys(db)
  }

  predicate LawfulChallenge(users: set<string>, r: Challenges.Challenge) {
    && (r.account.Some? ==> r.account.value in users)
    && (r.purpose.Link? ==> r.account.Some?)
  }

  ghost predicate LawfulChallenges(users: set<string>, rows: Challenges.Rows) {
    Challenges.Keyed(rows) && forall id | id in rows :: LawfulChallenge(users, rows[id])
  }

  ghost predicate LawfulDevices(users: set<string>, rows: Devices.Rows) {
    forall k | k in rows :: k == (rows[k].user, rows[k].device) && rows[k].user in users
  }

  ghost predicate Lawful(w: Whole) {
    && LawfulDb(w.db) && LawfulChallenges(w.db.users.Keys, w.challenges)
    && LawfulDevices(w.db.users.Keys, w.devices)
  }

  // ---- keys, checks and links of one record ----

  lemma UserChecksHold(u: UserRow)
    requires u.state.Deleted? <==> u.deletedAt.Some?
    ensures UntwinnedHold(UserTable(), UserRecord(u))
  {
    var row := UserRecord(u);
    assert "active"[0] != "deleted"[0];
    assert Eval(IsNull(Col.DeletedAt), row) == OfBool(u.deletedAt.None?);
    assert Eval(Not(IsNull(Col.DeletedAt)), row) == OfBool(u.deletedAt.Some?);
    assert Eval(Same(In(Col.State, ["deleted"]), Not(IsNull(Col.DeletedAt))), row) == Yes;
  }

  lemma IdentityChecksHold(r: IdentityRow)
    requires r.subject.Some? || r.email.Some?
    ensures UntwinnedHold(IdentityTable(), IdentityRecord(r))
  {
    var row := IdentityRecord(r);
    assert Eval(IsNull(Col.Subject), row) == OfBool(r.subject.None?);
    assert Eval(IsNull(Col.Email), row) == OfBool(r.email.None?);
    assert Eval(Not(IsNull(Col.Subject)), row) == OfBool(r.subject.Some?);
    assert Eval(Not(IsNull(Col.Email)), row) == OfBool(r.email.Some?);
    assert Eval(Or(Not(IsNull(Col.Subject)), Not(IsNull(Col.Email))), row) == Yes;
  }

  lemma SessionChecksHold(s: SessionRow)
    requires s.revokedAt.Some? <==> s.revokedReason.Some?
    ensures UntwinnedHold(SessionTable(), SessionRecord(s))
  {
    var row := SessionRecord(s);
    assert Eval(IsNull(Col.RevokedAt), row) == OfBool(s.revokedAt.None?);
    assert Eval(IsNull(Col.RevokedReason), row) == OfBool(s.revokedReason.None?);
    assert Eval(Same(IsNull(Col.RevokedAt), IsNull(Col.RevokedReason)), row) == Yes;
  }

  lemma ChallengeChecksHold(r: Challenges.Challenge)
    requires r.purpose.Link? ==> r.account.Some?
    ensures UntwinnedHold(ChallengeTable(), ChallengeRecord(r))
  {
    var row := ChallengeRecord(r);
    assert "sign_in"[0] != "link"[0];
    assert Eval(In(Col.Purpose, ["link"]), row) == OfBool(r.purpose.Link?);
    assert Eval(Not(In(Col.Purpose, ["link"])), row) == OfBool(!r.purpose.Link?);
    assert Eval(IsNull(Col.AbaUserId), row) == OfBool(r.account.None?);
    assert Eval(Not(IsNull(Col.AbaUserId)), row) == OfBool(r.account.Some?);
    assert Eval(Or(Not(In(Col.Purpose, ["link"])), Not(IsNull(Col.AbaUserId))), row) == Yes;
  }

  lemma IdentityTwin(r: IdentityRow)
    ensures ChecksOk(IdentityTable(), IdentityRecord(r))
        <==> (r.email.Some? ==> EmailAddress.DomainIsFolded(r.email.value))
  {
    assert IdentityTable().checks[2].holds == Some(EmailDomainHolds);
  }
}
