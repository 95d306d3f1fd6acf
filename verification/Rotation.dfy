/** `rotateSession` and the writers it races with, as programs that interleave.

    Every caller is a program counter with the values it has read so far; between two of its
    store calls any other caller may run. Nothing is assumed about who presents which token. */
module Rotation {
  import opened Store

  datatype Code = AuthRequired | SessionRevoked | NotFound | AccountDeleted | LastIdentity
  datatype Outcome = Issued(id: string) | Accepted | Refused(code: Code) | Threw

  /** Where a caller stands: the constructor names the store call it makes next. */
  datatype Pc =
    // rotateSession
    | FindByDigest(digest: string)
    | ReadAccount(cur: SessionRow, now: int)
    | ClaimRow(cur: SessionRow, now: int)
    | InsertNext(cur: SessionRow, now: int)
    | Reread(cur: SessionRow, now: int, next: string)
    | RevokeOnReuse(family: string, now: int)
    | RevokeLate(family: string, now: int)
    // createSession
    | NewReadAccount(owner: string, via: Option<string>)
    | NewReadIdentity(owner: string, identity: string)
    | NewInsert(owner: string, via: Option<string>)
    // detachIdentity
    | UnlinkGet(owner: string, identity: string)
    | UnlinkList(owner: string, identity: string)
    | UnlinkRevoke(identity: string)
    | UnlinkDelete(identity: string)
    // revokeSession, revokeAllSessions, markAccountDeleted
    | SignOut(session: string)
    | SignOutEverywhere(owner: string)
    | CloseRead(owner: string)
    | CloseMark(owner: string)
    | CloseRevoke(owner: string, now: int)
    | Done(outcome: Outcome)
    | Crashed

  /** `minted` holds every identifier and digest ever drawn; a fresh one is outside it. */
  datatype State = State(db: Db, callers: map<nat, Pc>, minted: set<string>)

  /** What one step draws from outside: the clock and the random values it might need. */
  datatype Draw = Draw(now: int, id: string, family: string, digest: string)

  datatype Event =
    | Run(caller: nat, draw: Draw)
    | Crash(caller: nat)
    | AddUser(user: UserRow)
    | AddIdentity(identity: IdentityRow)
    | Touch(touched: string, at: int)

  // ---- the programs ----

  /** The branches of `rotateSession` on the row its first read returned. */
  function AfterFind(cur: SessionRow, now: int): Pc {
    if cur.rotatedAt.Some? then RevokeOnReuse(cur.family, now)
    else if cur.revokedAt.Some? then Done(Refused(SessionRevoked))
    else if now >= cur.expiresAt then Done(Refused(AuthRequired))
    else ReadAccount(cur, now)
  }

  function AccountGate(db: Db, owner: string, onward: Pc): Pc {
    if owner !in db.users then Done(Refused(NotFound))
    else if db.users[owner].state.Deleted? then Done(Refused(AccountDeleted))
    else onward
  }

  function Successor(cur: SessionRow, now: int, draw: Draw): SessionRow {
    SessionRow(draw.id, cur.owner, cur.identity, cur.family, draw.digest, 1, now,
               now + REFRESH_TTL, None, None, None, now)
  }

  function FirstSession(owner: string, via: Option<string>, draw: Draw): SessionRow {
    SessionRow(draw.id, owner, via, draw.family, draw.digest, 1, draw.now,
               draw.now + REFRESH_TTL, None, None, None, draw.now)
  }

  /** The row a digest finds. The digest is unique, so there is never a choice of row. */
  ghost function RowWithDigest(db: Db, digest: string): Option<SessionRow> {
    if exists id :: id in db.sessions && db.sessions[id].digest == digest then
      var id :| id in db.sessions && db.sessions[id].digest == digest;
      Some(db.sessions[id])
    else None
  }

  predicate Verified(row: IdentityRow) { KeyOf(row).Some? }

  predicate HasOtherIdentity(db: Db, owner: string, identity: string) {
    exists i | i in db.identities ::
      i != identity && db.identities[i].owner == owner && Verified(db.identities[i])
  }

  /** One store call of one caller, and the branches up to its next one. */
  ghost function Advance(db: Db, pc: Pc, d: Draw): (Db, Pc) {
    match pc
    case FindByDigest(digest) =>
      (match RowWithDigest(db, digest)
       case None => (db, Done(Refused(AuthRequired)))
       case Some(cur) => (db, AfterFind(cur, d.now)))
    case ReadAccount(cur, now) => (db, AccountGate(db, cur.owner, ClaimRow(cur, now)))
    case ClaimRow(cur, now) =>
      var (db', won) := ClaimRotation(db, cur.id, now);
      (db', if won then InsertNext(cur, now) else RevokeOnReuse(cur.family, now))
    case InsertNext(cur, now) =>
      (match InsertSession(db, Successor(cur, now, d))
       case Some(db') => (db', Reread(cur, now, d.id))
       case None => (db, Done(Threw)))
    case Reread(cur, now, next) =>
      (db, if cur.id in db.sessions && db.sessions[cur.id].revokedAt.Some?
           then RevokeLate(cur.family, now) else Done(Issued(next)))
    case RevokeOnReuse(family, now) =>
      (Revoke(db, Family(family), now, "refresh_reuse"), Done(Refused(SessionRevoked)))
    case RevokeLate(family, now) =>
      (Revoke(db, Family(family), now, "refresh_reuse"), Done(Refused(SessionRevoked)))

    case NewReadAccount(owner, via) =>
      (db, AccountGate(db, owner,
        if via.Some? then NewReadIdentity(owner, via.value) else NewInsert(owner, None)))
    case NewReadIdentity(owner, i) =>
      (db, if i in db.identities && db.identities[i].owner == owner
           then NewInsert(owner, Some(i)) else Done(Refused(NotFound)))
    case NewInsert(owner, via) =>
      (match InsertSession(db, FirstSession(owner, via, d))
       case Some(db') => (db', Done(Issued(d.id)))
       case None => (db, Done(Threw)))

    case UnlinkGet(owner, i) =>
      (db, if i in db.identities && db.identities[i].owner == owner
           then UnlinkList(owner, i) else Done(Refused(NotFound)))
    case UnlinkList(owner, i) =>
      (db, if HasOtherIdentity(db, owner, i) then UnlinkRevoke(i) else Done(Refused(LastIdentity)))
    case UnlinkRevoke(i) => (Revoke(db, Identity(i), d.now, "identity_unlinked"), UnlinkDelete(i))
    case UnlinkDelete(i) => (DeleteIdentity(db, i), Done(Accepted))

    case SignOut(session) => (Revoke(db, OneSession(session), d.now, "logout"), Done(Accepted))
    case SignOutEverywhere(owner) =>
      (Revoke(db, User(owner), d.now, "logout_all"), Done(Accepted))
    case CloseRead(owner) => (db, AccountGate(db, owner, CloseMark(owner)))
    case CloseMark(owner) => (MarkUserDeleted(db, owner, d.now), CloseRevoke(owner, d.now))
    case CloseRevoke(owner, now) => (Revoke(db, User(owner), now, "account_deleted"), Done(Accepted))
    case Done(_) => (db, pc)
    case Crashed => (db, pc)
  }

  /** A caller that has inserted its successor runs on until its re-read has been acted on. */
  predicate MayCrash(pc: Pc) { !pc.Reread? && !pc.RevokeLate? }

  predicate FreshDraw(s: State, d: Draw) {
    && d.id !in s.minted && d.family !in s.minted && d.digest !in s.minted
    && d.id != d.family && d.family != d.digest && d.digest != d.id
  }

  predicate Enabled(s: State, e: Event) {
    match e
    case Run(c, d) => c in s.callers && FreshDraw(s, d)
    case Crash(c) => c in s.callers && MayCrash(s.callers[c])
    case AddUser(u) => u.id !in s.minted && u.id !in s.db.users && u.state.Active? && u.deletedAt.None?
    case AddIdentity(i) => i.id !in s.minted && AdmitsIdentity(s.db, i) && (i.subject.Some? || i.email.Some?)
    case Touch(_, _) => true
  }

  ghost function After(s: State, e: Event): State
    requires Enabled(s, e)
  {
    match e
    case Run(c, d) =>
      var (db, pc) := Advance(s.db, s.callers[c], d);
      State(db, s.callers[c := pc], s.minted + {d.id, d.family, d.digest})
    case Crash(c) => s.(callers := s.callers[c := Crashed])
    case AddUser(u) => State(s.db.(users := s.db.users[u.id := u]), s.callers, s.minted + {u.id})
    case AddIdentity(i) =>
      State(s.db.(identities := s.db.identities[i.id := i]), s.callers, s.minted + {i.id})
    case Touch(i, at) => s.(db := TouchIdentity(s.db, i, at))
  }

  /** An entry point: the caller has not made a store call yet. */
  predicate NotStarted(pc: Pc) {
    pc.FindByDigest? || pc.NewReadAccount? || pc.UnlinkGet? || pc.SignOut? || pc.SignOutEverywhere?
    || pc.CloseRead?
  }

  // ---- what every state keeps ----

  predicate InFamily(db: Db, id: string, family: string) {
    id in db.sessions && db.sessions[id].family == family
  }

  /** Rows sit under their own ids and use minted names only. */
  ghost predicate Keyed(s: State) {
    && (forall id | id in s.db.sessions :: var r := s.db.sessions[id];
         r.id == id && id in s.minted && r.family in s.minted && r.digest in s.minted)
    && (forall id | id in s.db.identities :: s.db.identities[id].id == id && id in s.minted)
    && (forall a, b | a in s.db.sessions && b in s.db.sessions && a != b ::
         s.db.sessions[a].digest != s.db.sessions[b].digest)
  }

  /** One family has one owner and one provenance, and at most one unrotated row. */
  ghost predicate Families(db: Db) {
    && (forall a, b | a in db.sessions && b in db.sessions
          && db.sessions[a].family == db.sessions[b].family ::
          && db.sessions[a].owner == db.sessions[b].owner
          && db.sessions[a].identity == db.sessions[b].identity)
    && (forall a, b | a in db.sessions && b in db.sessions
          && db.sessions[a].family == db.sessions[b].family
          && db.sessions[a].rotatedAt.None? && db.sessions[b].rotatedAt.None? :: a == b)
    && (forall a | a in db.sessions && db.sessions[a].identity.Some? ::
          db.sessions[a].identity.value in db.identities)
  }

  predicate Holds(pc: Pc) { pc.ReadAccount? || pc.ClaimRow? || pc.InsertNext? || pc.Reread? }

  /** A stale snapshot is stale only in ways that cannot do harm: the row is still there, and
      its provenance is either unchanged or gone together with the identity. */
  predicate SnapshotOk(s: State, cur: SessionRow) {
    && cur.id in s.db.sessions
    && (var r := s.db.sessions[cur.id];
        && r.owner == cur.owner && r.family == cur.family
        && (r.identity == cur.identity
            || (cur.identity.Some? && cur.identity.value !in s.db.identities
                && cur.identity.value in s.minted)))
  }

  /** A caller between its claim and its insert stands for the one row its family may still get. */
  predicate PendingOk(s: State, pc: Pc)
    requires pc.InsertNext?
  {
    && pc.cur.id in s.db.sessions
    && (forall a | a in s.db.sessions && s.db.sessions[a].family == pc.cur.family ::
          s.db.sessions[a].rotatedAt.Some?)
  }

  ghost predicate CallersOk(s: State) {
    && (forall c | c in s.callers :: Holds(s.callers[c]) ==> SnapshotOk(s, s.callers[c].cur))
    && (forall c | c in s.callers :: s.callers[c].InsertNext? ==> PendingOk(s, s.callers[c]))
    && (forall c, d | c in s.callers && d in s.callers && c != d ::
          s.callers[c].InsertNext? && s.callers[d].InsertNext? ==>
          s.callers[c].cur.family != s.callers[d].cur.family)
  }

  ghost predicate Inv(s: State) { Keyed(s) && Families(s.db) && CallersOk(s) }

  // ---- one lemma per kind of write ----

  /** Everything but revocation marks and the use stamps of identities is as it was. */
  ghost predicate OnlyMarks(db: Db, db': Db) {
    && db'.identities.Keys == db.identities.Keys
    && (forall i | i in db.identities :: db'.identities[i].id == db.identities[i].id)
    && db'.sessions.Keys == db.sessions.Keys
    && (forall id | id in db.sessions ::
          db'.sessions[id] == db.sessions[id].(revokedAt := db'.sessions[id].revokedAt,
                                               revokedReason := db'.sessions[id].revokedReason))
  }

  lemma MarksKeepInv(s: State, db': Db, minted': set<string>)
    requires Inv(s) && OnlyMarks(s.db, db') && s.minted <= minted'
    ensures Inv(State(db', s.callers, minted'))
  {
  }

  lemma RevokeOnlyMarks(db: Db, scope: Scope, at: int, reason: string)
    ensures OnlyMarks(db, Revoke(db, scope, at, reason))
  {
  }

  /** Moving one counter is harmless when its new snapshot and its new claim are. */
  lemma MoveKeepsInv(s: State, c: nat, pc: Pc)
    requires Inv(s) && c in s.callers
    requires Holds(pc) ==> SnapshotOk(s, pc.cur)
    requires pc.InsertNext? ==> PendingOk(s, pc) && NoRival(s, c, pc.cur.family)
    ensures Inv(s.(callers := s.callers[c := pc]))
  {
  }

  /** No other caller is about to insert into the family. */
  ghost predicate NoRival(s: State, c: nat, family: string) {
    forall d | d in s.callers && d != c :: s.callers[d].InsertNext? ==> s.callers[d].cur.family != family
  }

  lemma StampKeepsCallers(s: State, id: string, now: int)
    requires CallersOk(s) && id in s.db.sessions && s.db.sessions[id].rotatedAt.None?
    ensures CallersOk(s.(db := ClaimRotation(s.db, id, now).0))
  {
  }

  /** Stamping the one unrotated row of a family leaves no unrotated row in it. */
  lemma StampKeepsInv(s: State, id: string, now: int)
    requires Inv(s) && id in s.db.sessions && s.db.sessions[id].rotatedAt.None?
    ensures Inv(s.(db := ClaimRotation(s.db, id, now).0))
    ensures forall a | InFamily(s.db, a, s.db.sessions[id].family) ::
              ClaimRotation(s.db, id, now).0.sessions[a].rotatedAt.Some?
  {
    StampKeepsCallers(s, id, now);
  }

  lemma ClaimKeepsInv(s: State, c: nat, cur: SessionRow, now: int)
    requires Inv(s) && c in s.callers && s.callers[c] == ClaimRow(cur, now)
    requires ClaimRotation(s.db, cur.id, now).1
    ensures Inv(State(ClaimRotation(s.db, cur.id, now).0, s.callers[c := InsertNext(cur, now)], s.minted))
  {
    assert SnapshotOk(s, s.callers[c].cur);
    StampKeepsInv(s, cur.id, now);
    var s' := s.(db := ClaimRotation(s.db, cur.id, now).0);
    assert forall a | a in s'.db.sessions && s'.db.sessions[a].family == cur.family :: InFamily(s.db, a, cur.family);
    // A rival about to insert would mean that no row of the family was unrotated.
    assert NoRival(s, c, cur.family);
    MoveKeepsInv(s', c, InsertNext(cur, now));
  }

  lemma JoinKeepsFamilies(db: Db, row: SessionRow, kin: string)
    requires Families(db) && AdmitsSession(db, row)
    requires kin in db.sessions && db.sessions[kin].family == row.family
    requires db.sessions[kin].owner == row.owner && db.sessions[kin].identity == row.identity
    requires forall a | a in db.sessions && db.sessions[a].family == row.family :: db.sessions[a].rotatedAt.Some?
    ensures Families(db.(sessions := db.sessions[row.id := row]))
  {
  }

  lemma AddedRowKeepsCallers(s: State, row: SessionRow)
    requires CallersOk(s) && row.id !in s.db.sessions
    requires forall c | c in s.callers && s.callers[c].InsertNext? :: s.callers[c].cur.family != row.family
    ensures CallersOk(s.(db := s.db.(sessions := s.db.sessions[row.id := row])))
  {
  }

  /** A row may join a family that has no unrotated row and no other claim open. */
  lemma JoinKeepsInv(s: State, row: SessionRow, kin: string, minted': set<string>)
    requires Inv(s) && AdmitsSession(s.db, row) && s.minted <= minted'
    requires row.id !in s.minted && {row.id, row.family, row.digest} <= minted'
    requires kin in s.db.sessions && s.db.sessions[kin].family == row.family
    requires s.db.sessions[kin].owner == row.owner && s.db.sessions[kin].identity == row.identity
    requires forall a | a in s.db.sessions && s.db.sessions[a].family == row.family ::
               s.db.sessions[a].rotatedAt.Some?
    requires forall c | c in s.callers && s.callers[c].InsertNext? :: s.callers[c].cur.family != row.family
    ensures Inv(State(s.db.(sessions := s.db.sessions[row.id := row]), s.callers, minted'))
  {
    MintKeepsInv(s, minted');
    var s1 := s.(minted := minted');
    JoinKeepsFamilies(s1.db, row, kin);
    AddedRowKeepsCallers(s1, row);
  }

  lemma InsertNextKeepsInv(s: State, c: nat, cur: SessionRow, now: int, d: Draw)
    requires Inv(s) && c in s.callers && s.callers[c] == InsertNext(cur, now) && FreshDraw(s, d)
    requires AdmitsSession(s.db, Successor(cur, now, d))
    ensures Inv(State(s.db.(sessions := s.db.sessions[d.id := Successor(cur, now, d)]),
                      s.callers[c := Reread(cur, now, d.id)], s.minted + {d.id, d.family, d.digest}))
  {
    // The claim leaves the callers before the row appears, so the family still has one place.
    assert SnapshotOk(s, s.callers[c].cur) && PendingOk(s, s.callers[c]);
    MoveKeepsInv(s, c, Reread(cur, now, d.id));
    var s0 := s.(callers := s.callers[c := Reread(cur, now, d.id)]);
    assert s.db.sessions[cur.id].family in s.minted;
    JoinKeepsInv(s0, Successor(cur, now, d), cur.id, s.minted + {d.id, d.family, d.digest});
  }

  lemma NewFamilyKeepsFamilies(db: Db, row: SessionRow)
    requires Families(db) && AdmitsSession(db, row)
    requires forall a | a in db.sessions :: db.sessions[a].family != row.family
    ensures Families(db.(sessions := db.sessions[row.id := row]))
  {
  }

  lemma NewInsertKeepsInv(s: State, row: SessionRow, minted': set<string>)
    requires Inv(s) && AdmitsSession(s.db, row) && s.minted <= minted'
    requires row.family !in s.minted && {row.id, row.family, row.digest} <= minted'
    ensures Inv(State(s.db.(sessions := s.db.sessions[row.id := row]), s.callers, minted'))
  {
    MintKeepsInv(s, minted');
    NewFamilyKeepsFamilies(s.db, row);
    forall c | c in s.callers && s.callers[c].InsertNext? ensures s.callers[c].cur.family != row.family {
      assert SnapshotOk(s, s.callers[c].cur);
    }
    AddedRowKeepsCallers(s.(minted := minted'), row);
  }

  lemma OrphanedPair(db: Db, i: string, a: string, b: string)
    requires Families(db) && a in db.sessions && b in db.sessions
    requires Orphaned(db.sessions[a], i).family == Orphaned(db.sessions[b], i).family
    ensures Orphaned(db.sessions[a], i).owner == Orphaned(db.sessions[b], i).owner
    ensures Orphaned(db.sessions[a], i).identity == Orphaned(db.sessions[b], i).identity
    ensures db.sessions[a].rotatedAt.None? && db.sessions[b].rotatedAt.None? ==> a == b
  {
  }

  lemma DeleteKeepsFamilies(db: Db, i: string)
    requires Families(db)
    ensures Families(DeleteIdentity(db, i))
  {
    var db' := DeleteIdentity(db, i);
    forall a, b | a in db'.sessions && b in db'.sessions && db'.sessions[a].family == db'.sessions[b].family
      ensures db'.sessions[a].owner == db'.sessions[b].owner
      ensures db'.sessions[a].identity == db'.sessions[b].identity
      ensures db'.sessions[a].rotatedAt.None? && db'.sessions[b].rotatedAt.None? ==> a == b
    {
      OrphanedPair(db, i, a, b);
    }
  }

  lemma DeleteKeepsKeyed(s: State, i: string)
    requires Keyed(s)
    ensures Keyed(s.(db := DeleteIdentity(s.db, i)))
  {
  }

  lemma DeleteKeepsPending(s: State, i: string, pc: Pc)
    requires pc.InsertNext? && PendingOk(s, pc)
    ensures PendingOk(s.(db := DeleteIdentity(s.db, i)), pc)
  {
  }

  lemma DeleteKeepsInv(s: State, i: string)
    requires Inv(s)
    ensures Inv(s.(db := DeleteIdentity(s.db, i)))
  {
    var s' := s.(db := DeleteIdentity(s.db, i));
    DeleteKeepsKeyed(s, i);
    DeleteKeepsFamilies(s.db, i);
    forall c | c in s.callers && Holds(s.callers[c]) ensures SnapshotOk(s', s.callers[c].cur) {
    }
    forall c | c in s.callers && s.callers[c].InsertNext? ensures PendingOk(s', s.callers[c]) {
      DeleteKeepsPending(s, i, s.callers[c]);
    }
  }

  lemma MintKeepsInv(s: State, minted': set<string>)
    requires Inv(s) && s.minted <= minted'
    ensures Inv(s.(minted := minted'))
  {
  }

  lemma RunKeepsInv(s: State, c: nat, d: Draw)
    requires Inv(s) && Enabled(s, Run(c, d))
    ensures Inv(After(s, Run(c, d)))
  {
    var pc := s.callers[c];
    var (db', pc') := Advance(s.db, pc, d);
    var minted' := s.minted + {d.id, d.family, d.digest};
    if pc.ClaimRow? && pc'.InsertNext? {
      ClaimKeepsInv(s, c, pc.cur, pc.now);
      MintKeepsInv(State(db', s.callers[c := pc'], s.minted), minted');
    } else if pc.InsertNext? && pc'.Reread? {
      InsertNextKeepsInv(s, c, pc.cur, pc.now, d);
    } else if pc.NewInsert? && pc'.Done? && pc'.outcome.Issued? {
      NewInsertKeepsInv(s, FirstSession(pc.owner, pc.via, d), minted');
      MoveKeepsInv(State(db', s.callers, minted'), c, pc');
    } else if pc.UnlinkDelete? {
      DeleteKeepsInv(s, pc.identity);
      MintKeepsInv(s.(db := db'), minted');
      MoveKeepsInv(State(db', s.callers, minted'), c, pc');
    } else {
      QuietStep(s, c, d);
      MarksKeepInv(s, db', minted');
      MoveKeepsInv(State(db', s.callers, minted'), c, pc');
    }
  }

  /** All remaining steps read, or write marks only, and what they remember is sound. */
  ghost predicate QuietOk(s: State, c: nat, d: Draw)
    requires c in s.callers
  {
    var (db', pc') := Advance(s.db, s.callers[c], d);
    && OnlyMarks(s.db, db')
    && !pc'.InsertNext?
    && (Holds(pc') ==> SnapshotOk(State(db', s.callers, s.minted + {d.id, d.family, d.digest}), pc'.cur))
  }

  predicate Writes(pc: Pc) {
    pc.ClaimRow? || pc.InsertNext? || pc.NewInsert? || pc.UnlinkDelete?
  }

  predicate Revokes(pc: Pc) {
    pc.RevokeOnReuse? || pc.RevokeLate? || pc.UnlinkRevoke? || pc.SignOut? || pc.SignOutEverywhere?
    || pc.CloseRevoke?
  }

  lemma QuietStep(s: State, c: nat, d: Draw)
    requires Inv(s) && Enabled(s, Run(c, d))
    requires var pc := s.callers[c]; var (db', pc') := Advance(s.db, pc, d);
      !Writes(pc) || (db' == s.db && !pc'.InsertNext? && !Holds(pc'))
    ensures QuietOk(s, c, d)
  {
    var pc := s.callers[c];
    if Revokes(pc) {
      QuietRevocation(s, c, d);
    } else if pc.FindByDigest? {
      QuietFind(s, c, d);
    } else if Writes(pc) {
    } else {
      QuietRead(s, c, d);
    }
  }

  lemma QuietRead(s: State, c: nat, d: Draw)
    requires Inv(s) && c in s.callers
    requires var pc := s.callers[c]; !Writes(pc) && !Revokes(pc) && !pc.FindByDigest?
    ensures QuietOk(s, c, d)
  {
    if Holds(s.callers[c]) {
      assert SnapshotOk(s, s.callers[c].cur);
    }
  }

  lemma QuietRevocation(s: State, c: nat, d: Draw)
    requires c in s.callers && Revokes(s.callers[c])
    ensures QuietOk(s, c, d)
  {
    match s.callers[c] {
      case RevokeOnReuse(f, now) => RevokeOnlyMarks(s.db, Family(f), now, "refresh_reuse");
      case RevokeLate(f, now) => RevokeOnlyMarks(s.db, Family(f), now, "refresh_reuse");
      case UnlinkRevoke(i) => RevokeOnlyMarks(s.db, Identity(i), d.now, "identity_unlinked");
      case SignOut(i) => RevokeOnlyMarks(s.db, OneSession(i), d.now, "logout");
      case SignOutEverywhere(u) => RevokeOnlyMarks(s.db, User(u), d.now, "logout_all");
      case CloseRevoke(u, now) => RevokeOnlyMarks(s.db, User(u), now, "account_deleted");
    }
  }

  lemma QuietFind(s: State, c: nat, d: Draw)
    requires Inv(s) && c in s.callers && s.callers[c].FindByDigest?
    ensures QuietOk(s, c, d)
  {
    var found := RowWithDigest(s.db, s.callers[c].digest);
    if found.Some? {
      assert found.value.id in s.db.sessions && s.db.sessions[found.value.id] == found.value;
    }
  }

  lemma StepKeepsInv(s: State, e: Event)
    requires Inv(s) && Enabled(s, e)
    ensures Inv(After(s, e))
  {
    match e {
      case Run(c, d) => RunKeepsInv(s, c, d);
      case Crash(c) => MoveKeepsInv(s, c, Crashed);
      case AddUser(u) => MarksKeepInv(s, s.db.(users := s.db.users[u.id := u]), s.minted + {u.id});
      case AddIdentity(i) =>
      case Touch(i, at) => MarksKeepInv(s, TouchIdentity(s.db, i, at), s.minted);
    }
  }
}
