/** Signing in and linking, as programs that interleave: finding who an assertion belongs to,
    making an account for it, attaching it.

    Between two store calls of one caller any other caller, a new session, an unlinking, a closing of
    an account or a revocation may happen. */
module Identity {
  import opened Store
  import EmailAddress

  /** What a completed proof of control says: never an unverified address on its own. */
  datatype Assertion = Assertion(kind: Kind, subject: Option<string>, email: Option<string>, verified: bool)

  datatype Code = InvalidArgument | NotFound | AccountDeleted | InUse | Unauthorised

  /** `Unverified` names a bootstrap session that its own flow could not verify. */
  datatype Outcome = Resolved(owner: string, identity: string) | Refused(code: Code) | Unverified(session: string)

  /** The account and session an attach acts for; `boot` when the flow made them itself. */
  datatype Agent = Agent(user: string, session: string, boot: bool)

  /** The constructor names the store call a caller makes next. */
  datatype Pc =
    // resolveAccount
    | Find(v: Assertion)
    | ReadOwner(v: Assertion, owner: string, identity: string)
    | MakeUser(v: Assertion)
    | BootRead(v: Assertion, user: string)
    | BootInsert(v: Assertion, user: string)
    | BootSession(v: Assertion, agent: Agent)
    | BootUser(v: Assertion, agent: Agent)
    // attachIdentity
    | AttachUser(v: Assertion, agent: Agent)
    | AttachFind(v: Assertion, agent: Agent)
    | AttachInsert(v: Assertion, agent: Agent)
    | BootRevoke(v: Assertion, agent: Agent, result: Outcome)
    | Done(v: Assertion, result: Outcome)

  datatype Draw = Draw(now: int, id: string, family: string, digest: string)

  /** Which identity row a caller has inserted. */
  datatype Write = Write(caller: nat, identity: string)

  /** `boots` names the bootstrap sessions and the callers that made them. */
  datatype State = State(
    db: Db, callers: map<nat, Pc>, minted: set<string>, boots: map<string, nat>, wrote: set<Write>)

  datatype Event =
    | Run(caller: nat, draw: Draw)
    | Begin(row: SessionRow)
    | Unlink(identity: string)
    | Close(user: string, at: int)
    | Withdraw(scope: Scope, at: int, reason: string)
    | Touch(touched: string, at: int)

  // ---- assertions ----

  /** What the two sign-in methods produce. */
  predicate Proves(v: Assertion) {
    if v.kind.Google? then v.subject.Some? else v.subject.None? && v.email.Some? && v.verified
  }

  predicate Usable(v: Assertion) {
    && (v.subject.Some? || v.email.Some?)
    && (v.email.Some? ==> v.verified && EmailAddress.IsUsableAddress(v.email.value))
    && (v.subject.Some? ==> v.subject.value != "")
  }

  /** The one identifier a proof is resolved by. */
  function KeyFor(v: Assertion): IdentityKey
    requires Proves(v)
  {
    if v.subject.Some? then BySubject(v.kind, v.subject.value) else ByEmail(v.kind, v.email.value)
  }

  /** `findIdentityBySubject`, or `findIdentityByVerifiedEmail` where there is no subject. */
  predicate Matches(row: IdentityRow, v: Assertion) { Answers(row, v.kind, v.subject, v.email) }

  ghost function FindIdentity(db: Db, v: Assertion): Option<IdentityRow> {
    if exists i :: i in db.identities && Matches(db.identities[i], v) then
      var i :| i in db.identities && Matches(db.identities[i], v);
      Some(db.identities[i])
    else None
  }

  // ---- the programs ----

  function NewRow(v: Assertion, agent: Agent, d: Draw): IdentityRow {
    IdentityRow(d.id, agent.user, v.kind, v.subject, v.email, v.verified, d.now, Some(agent.session), None)
  }

  function BootRow(user: string, d: Draw): SessionRow {
    SessionRow(d.id, user, None, d.family, d.digest, 1, d.now, d.now + REFRESH_TTL, None, None, None, d.now)
  }

  /** The end of an attach: a bootstrap session is revoked whatever happened. */
  function Finish(v: Assertion, agent: Agent, result: Outcome): Pc {
    if agent.boot then BootRevoke(v, agent, result) else Done(v, result)
  }

  /** The first branch of `attachIdentity`, before any store call. */
  function StartAttach(v: Assertion, agent: Agent): Pc {
    if Usable(v) then AttachUser(v, agent) else Finish(v, agent, Refused(InvalidArgument))
  }

  function SessionGate(db: Db, v: Assertion, agent: Agent, now: int): Pc {
    if agent.session !in db.sessions || db.sessions[agent.session].revokedAt.Some?
       || now >= db.sessions[agent.session].expiresAt
    then Done(v, Unverified(agent.session))
    else BootUser(v, agent)
  }

  function UserGate(db: Db, user: string, absent: Pc, closed: Pc, onward: Pc): Pc {
    if user !in db.users then absent else if db.users[user].state.Deleted? then closed else onward
  }

  ghost function Advance(db: Db, pc: Pc, d: Draw): (Db, Pc) {
    match pc
    case Find(v) =>
      (db, match FindIdentity(db, v)
           case Some(row) => ReadOwner(v, row.owner, row.id)
           case None => MakeUser(v))
    case ReadOwner(v, owner, identity) =>
      (db, UserGate(db, owner, Done(v, Refused(NotFound)), Done(v, Refused(AccountDeleted)),
                    Done(v, Resolved(owner, identity))))
    case MakeUser(v) =>
      (db.(users := db.users[d.id := UserRow(d.id, d.now, Active, None)]), BootRead(v, d.id))
    case BootRead(v, user) =>
      (db, UserGate(db, user, Done(v, Refused(NotFound)), Done(v, Refused(AccountDeleted)), BootInsert(v, user)))
    case BootInsert(v, user) =>
      (match InsertSession(db, BootRow(user, d))
       case Some(db') => (db', BootSession(v, Agent(user, d.id, true)))
       case None => (db, Done(v, Refused(Unauthorised))))
    case BootSession(v, agent) => (db, SessionGate(db, v, agent, d.now))
    case BootUser(v, agent) =>
      (db, UserGate(db, agent.user, Done(v, Unverified(agent.session)), Done(v, Unverified(agent.session)),
                    StartAttach(v, agent)))
    case AttachUser(v, agent) =>
      (db, UserGate(db, agent.user, Finish(v, agent, Refused(NotFound)), Finish(v, agent, Refused(AccountDeleted)),
                    AttachFind(v, agent)))
    case AttachFind(v, agent) =>
      (db, match FindIdentity(db, v)
           case Some(row) =>
             Finish(v, agent, if row.owner == agent.user then Resolved(row.owner, row.id) else Refused(InUse))
           case None => AttachInsert(v, agent))
    case AttachInsert(v, agent) =>
      (match InsertIdentity(db, NewRow(v, agent, d))
       case Some(db') => (db', Finish(v, agent, Resolved(agent.user, d.id)))
       case None => (db, Finish(v, agent, Refused(InUse))))
    case BootRevoke(v, agent, result) =>
      (Revoke(db, OneSession(agent.session), d.now, "bootstrap"), Done(v, result))
    case Done(_, _) => (db, pc)
  }

  predicate FreshDraw(s: State, d: Draw) {
    && d.id !in s.minted && d.family !in s.minted && d.digest !in s.minted
    && d.id != d.family && d.family != d.digest && d.digest != d.id
  }

  /** A session as `createSession` or `rotateSession` makes it. */
  predicate NewSession(s: State, row: SessionRow) {
    && row.id !in s.minted && row.digest !in s.minted && row.id != row.digest
    && row.rotatedAt.None? && row.revokedAt.None? && row.revokedReason.None?
  }

  predicate Enabled(s: State, e: Event) {
    match e
    case Run(c, d) => c in s.callers && FreshDraw(s, d)
    case Begin(row) => NewSession(s, row)
    case _ => true
  }

  ghost function After(s: State, e: Event): State
    requires Enabled(s, e)
  {
    match e
    case Run(c, d) =>
      var pc := s.callers[c];
      var (db, pc') := Advance(s.db, pc, d);
      State(db, s.callers[c := pc'], s.minted + {d.id, d.family, d.digest},
            if pc.BootInsert? && pc'.BootSession? then s.boots[d.id := c] else s.boots,
            if pc.AttachInsert? && d.id in db.identities then s.wrote + {Write(c, d.id)} else s.wrote)
    case Begin(row) =>
      var db := InsertSession(s.db, row);
      s.(db := if db.Some? then db.value else s.db, minted := s.minted + {row.id, row.family, row.digest})
    case Unlink(i) => s.(db := DeleteIdentity(s.db, i))
    case Close(u, at) => s.(db := MarkUserDeleted(s.db, u, at))
    case Withdraw(scope, at, reason) => s.(db := Revoke(s.db, scope, at, reason))
    case Touch(i, at) => s.(db := TouchIdentity(s.db, i, at))
  }

  /** A sign-in that has not begun, or a link by an authenticated principal about to attach. */
  predicate Entry(pc: Pc) {
    && (pc.Find? || (pc.AttachUser? && Usable(pc.v) && !pc.agent.boot))
    && Proves(pc.v)
  }

  // ---- what every state keeps ----

  ghost predicate KeyedRows(s: State) {
    && (forall i | i in s.db.identities :: i in s.minted && s.db.identities[i].id == i
          && (if s.db.identities[i].kind.Google? then s.db.identities[i].subject.Some?
              else s.db.identities[i].subject.None? && s.db.identities[i].email.Some? && s.db.identities[i].emailVerified))
    && (forall i | i in s.db.sessions :: i in s.minted && s.db.sessions[i].id == i && s.db.sessions[i].digest in s.minted)
    && (forall u | u in s.db.users :: u in s.minted)
  }

  /** Every key has at most one row. */
  ghost predicate OneRowPerKey(db: Db) {
    forall a, b | a in db.identities && b in db.identities && KeyOf(db.identities[a]) == KeyOf(db.identities[b])
      && KeyOf(db.identities[a]).Some? :: a == b
  }

  /** The row, while it is there, is that owner's and has that key. */
  ghost predicate Stands(s: State, v: Assertion, owner: string, identity: string)
    requires Proves(v)
  {
    && identity in s.minted
    && (identity in s.db.identities ==>
          s.db.identities[identity].owner == owner && KeyOf(s.db.identities[identity]) == Some(KeyFor(v)))
  }

  ghost predicate AgentOk(s: State, agent: Agent) {
    agent.user in s.db.users && (agent.boot ==> agent.session in s.db.sessions)
  }

  ghost predicate ResultOk(s: State, v: Assertion, result: Outcome)
    requires Proves(v)
  {
    result.Resolved? ==> Stands(s, v, result.owner, result.identity)
  }

  ghost predicate CallerOk(s: State, pc: Pc) {
    && Proves(pc.v)
    && match pc
       case Find(_) => true
       case ReadOwner(v, owner, identity) => Stands(s, v, owner, identity)
       case MakeUser(_) => true
       case BootRead(_, user) => user in s.db.users
       case BootInsert(_, user) => user in s.db.users
       case BootSession(_, agent) => AgentOk(s, agent) && agent.boot
       case BootUser(_, agent) => AgentOk(s, agent) && agent.boot
       case AttachUser(_, agent) => (agent.boot ==> AgentOk(s, agent)) && Usable(pc.v)
       case AttachFind(_, agent) => AgentOk(s, agent) && Usable(pc.v)
       case AttachInsert(_, agent) => AgentOk(s, agent) && Usable(pc.v)
       case BootRevoke(v, agent, result) => AgentOk(s, agent) && agent.boot && ResultOk(s, v, result)
       case Done(v, result) => ResultOk(s, v, result)
  }

  /** The caller still has the bootstrap session in hand. */
  predicate Carries(pc: Pc, session: string) {
    match pc
    case BootSession(_, agent) => agent.session == session
    case BootUser(_, agent) => agent.session == session
    case AttachUser(_, agent) => agent.boot && agent.session == session
    case AttachFind(_, agent) => agent.boot && agent.session == session
    case AttachInsert(_, agent) => agent.boot && agent.session == session
    case BootRevoke(_, agent, _) => agent.session == session
    case _ => false
  }

  ghost predicate BootOk(s: State, session: string, c: nat) {
    && session in s.db.sessions && c in s.callers
    && (s.db.sessions[session].revokedAt.Some? || Carries(s.callers[c], session)
        || (s.callers[c].Done? && s.callers[c].result == Unverified(session)))
  }

  /** A caller that has written ends with what it wrote. */
  predicate EndsWith(pc: Pc, identity: string) {
    (pc.BootRevoke? || pc.Done?) && pc.result.Resolved? && pc.result.identity == identity
  }

  ghost predicate Inv(s: State) {
    && KeyedRows(s) && OneRowPerKey(s.db)
    && (forall c | c in s.callers :: CallerOk(s, s.callers[c]))
    && (forall b | b in s.boots :: BootOk(s, b, s.boots[b]))
    && (forall w | w in s.wrote :: w.caller in s.callers && EndsWith(s.callers[w.caller], w.identity))
  }

  // ---- one lemma per kind of change ----

  /** What a step may do to the tables: users and sessions stay, revocations stay, an identity row
      that is there afterwards was there before, or is new under a new name. */
  ghost predicate Extends(s: State, db: Db) {
    && s.db.users.Keys <= db.users.Keys && s.db.sessions.Keys <= db.sessions.Keys
    && (forall i | i in s.db.sessions && s.db.sessions[i].revokedAt.Some? :: db.sessions[i].revokedAt.Some?)
    && (forall i | i in db.identities && i in s.db.identities ::
          db.identities[i] == s.db.identities[i].(lastUsedAt := db.identities[i].lastUsedAt))
    && (forall i | i in db.identities && i !in s.db.identities :: i !in s.minted)
  }

  lemma ExtendKeepsCaller(s: State, s': State, pc: Pc)
    requires CallerOk(s, pc) && Extends(s, s'.db) && s.minted <= s'.minted
    ensures CallerOk(s', pc)
  {
  }

  lemma NewRowHasKey(v: Assertion, agent: Agent, d: Draw)
    requires Proves(v)
    ensures KeyOf(NewRow(v, agent, d)) == Some(KeyFor(v))
  {
  }
}
