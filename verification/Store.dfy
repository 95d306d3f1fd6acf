/** The rows of the persistence port and the atomic writes of the in-memory adapter.

    One call of the port is one function here, because the adapter reads and writes with no
    `await` in between: nothing interleaves inside a call, everything interleaves between calls. */
module Store {
  import EmailAddress

  datatype Option<+T> = None | Some(value: T)

  datatype AccountState = Active | Deleted
  datatype Kind = Google | Email

  datatype UserRow = UserRow(id: string, createdAt: int, state: AccountState, deletedAt: Option<int>)

  datatype IdentityRow = IdentityRow(
    id: string, owner: string, kind: Kind, subject: Option<string>, email: Option<string>,
    emailVerified: bool, linkedAt: int, linkedVia: Option<string>, lastUsedAt: Option<int>)

  datatype SessionRow = SessionRow(
    id: string, owner: string, identity: Option<string>, family: string, digest: string,
    digestVersion: int, issuedAt: int, expiresAt: int, rotatedAt: Option<int>,
    revokedAt: Option<int>, revokedReason: Option<string>, lastSeenAt: int)

  /** How long an unused refresh token works. */
  const REFRESH_TTL := 30 * 24 * 60 * 60 * 1000

  /** The three tables the services share. */
  datatype Db = Db(
    users: map<string, UserRow>,
    identities: map<string, IdentityRow>,
    sessions: map<string, SessionRow>)

  /** Which rows a revocation selects. */
  datatype Scope = OneSession(id: string) | Family(id: string) | User(id: string) | Identity(id: string)

  predicate Selects(scope: Scope, row: SessionRow) {
    match scope
    case OneSession(id) => row.id == id
    case Family(f) => row.family == f
    case User(u) => row.owner == u
    case Identity(i) => row.identity == Some(i)
  }

  // ---- session ----

  /** The constraints of the session table a new row has to meet: primary key, the unique
      digest, and the two foreign keys. */
  predicate AdmitsSession(db: Db, row: SessionRow) {
    && row.id !in db.sessions
    && (forall id | id in db.sessions :: db.sessions[id].digest != row.digest)
    && row.owner in db.users
    && (row.identity.Some? ==> row.identity.value in db.identities)
  }

  function InsertSession(db: Db, row: SessionRow): Option<Db> {
    if AdmitsSession(db, row) then Some(db.(sessions := db.sessions[row.id := row])) else None
  }

  /** Only the caller that finds the row unrotated is told `true`. */
  function ClaimRotation(db: Db, id: string, at: int): (Db, bool) {
    if id in db.sessions && db.sessions[id].rotatedAt.None? then
      (db.(sessions := db.sessions[id := db.sessions[id].(rotatedAt := Some(at))]), true)
    else
      (db, false)
  }

  function RevokedRow(row: SessionRow, scope: Scope, at: int, reason: string): SessionRow {
    if Selects(scope, row) && row.revokedAt.None? then
      row.(revokedAt := Some(at), revokedReason := Some(reason))
    else row
  }

  function Revoke(db: Db, scope: Scope, at: int, reason: string): Db {
    db.(sessions := map id | id in db.sessions :: RevokedRow(db.sessions[id], scope, at, reason))
  }

  // ---- auth_identity ----

  /** Which identifier decides who owns an identity: the subject where there is one, otherwise
      the verified address. A row with neither is a claim and has no key. */
  datatype IdentityKey = BySubject(kind: Kind, subject: string) | ByEmail(kind: Kind, email: string)

  function KeyOf(row: IdentityRow): Option<IdentityKey> {
    if row.subject.Some? then Some(BySubject(row.kind, row.subject.value))
    else if row.email.Some? && row.emailVerified then Some(ByEmail(row.kind, row.email.value))
    else None
  }

  /** What a lookup by subject, or by verified address where there is no subject, takes. */
  predicate Answers(row: IdentityRow, kind: Kind, subject: Option<string>, email: Option<string>) {
    row.kind == kind
    && if subject.Some? then row.subject == subject else email.Some? && row.email == email && row.emailVerified
  }

  /** Primary key, the restated check, the two partial unique indexes and the owner's foreign key. */
  predicate AdmitsIdentity(db: Db, row: IdentityRow) {
    && row.id !in db.identities
    && (row.email.Some? ==> EmailAddress.DomainIsFolded(row.email.value))
    && (KeyOf(row).Some? ==> forall id | id in db.identities :: KeyOf(db.identities[id]) != KeyOf(row))
    && row.owner in db.users
  }

  function InsertIdentity(db: Db, row: IdentityRow): Option<Db> {
    if AdmitsIdentity(db, row) then Some(db.(identities := db.identities[row.id := row])) else None
  }

  function TouchIdentity(db: Db, id: string, at: int): Db {
    if id in db.identities then
      db.(identities := db.identities[id := db.identities[id].(lastUsedAt := Some(at))])
    else db
  }

  /** The referential action of deleting an identity: its sessions lose their provenance. */
  function Orphaned(row: SessionRow, identity: string): SessionRow {
    if row.identity == Some(identity) then row.(identity := None) else row
  }

  function DeleteIdentity(db: Db, id: string): Db {
    db.(identities := db.identities - {id},
        sessions := map s | s in db.sessions :: Orphaned(db.sessions[s], id))
  }

  // ---- aba_user ----

  function InsertUser(db: Db, row: UserRow): Option<Db> {
    if row.id !in db.users then Some(db.(users := db.users[row.id := row])) else None
  }

  function MarkUserDeleted(db: Db, id: string, at: int): Db {
    if id in db.users then
      db.(users := db.users[id := db.users[id].(state := Deleted, deletedAt := Some(at))])
    else db
  }
}
