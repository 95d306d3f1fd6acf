/** What refresh-token rotation guarantees over every run, whoever interleaves with whom. */
module RotationSafety {
  import opened Store
  import opened Rotation

  datatype History = History(states: seq<State>, events: seq<Event>)

  /** Any tables the services could have written, and callers that have not started. */
  ghost predicate Initial(s: State) {
    && Keyed(s) && Families(s.db)
    && (forall c | c in s.callers :: NotStarted(s.callers[c]))
  }

  ghost predicate IsRun(h: History) {
    && |h.states| == |h.events| + 1
    && Initial(h.states[0])
    && forall i | 0 <= i < |h.events| :: Follows(h, i)
  }

  /** Event `i` leads from state `i` to the next. */
  ghost predicate Follows(h: History, i: nat)
    requires |h.states| == |h.events| + 1 && i < |h.events|
  {
    Enabled(h.states[i], h.events[i]) && h.states[i + 1] == After(h.states[i], h.events[i])
  }

  lemma {:induction false} RunKeepsInv(h: History, i: nat)
    requires IsRun(h) && i < |h.states|
    ensures Inv(h.states[i])
  {
    if i > 0 {
      RunKeepsInv(h, i - 1);
      assert Follows(h, i - 1);
      StepKeepsInv(h.states[i - 1], h.events[i - 1]);
    }
  }

  // ---- families never fork ----

  /** A place in a family: a row whose token still works, or a claim whose row is on its way. */
  datatype Place = Live(session: string) | Claimed(caller: nat)

  ghost function Places(s: State, family: string): set<Place> {
    (set id | id in s.db.sessions && s.db.sessions[id].family == family
              && s.db.sessions[id].rotatedAt.None? :: Live(id))
    + (set c | c in s.callers && s.callers[c].InsertNext?
               && s.callers[c].cur.family == family :: Claimed(c))
  }

  lemma AtMostOne<T>(xs: set<T>)
    requires forall x, y | x in xs && y in xs :: x == y
    ensures |xs| <= 1
  {
    if x :| x in xs {
      assert xs == {x};
    }
  }

  /** At every moment of every run a family has at most one place. */
  lemma NeverForks(h: History, i: nat, family: string)
    requires IsRun(h) && i < |h.states|
    ensures |Places(h.states[i], family)| <= 1
  {
    RunKeepsInv(h, i);
    AtMostOne(Places(h.states[i], family));
  }

  /** Step `e` inserts the successor of row `id`. */
  ghost predicate InsertsSuccessor(s: State, e: Event, id: string) {
    && e.Run? && e.caller in s.callers && s.callers[e.caller].InsertNext?
    && s.callers[e.caller].cur.id == id
    && AdmitsSession(s.db, Successor(s.callers[e.caller].cur, s.callers[e.caller].now, e.draw))
  }

  /** The row has been claimed and the claim has been used. */
  ghost predicate Spent(s: State, id: string) {
    && id in s.db.sessions && s.db.sessions[id].rotatedAt.Some?
    && forall c | c in s.callers && s.callers[c].InsertNext? :: s.callers[c].cur.id != id
  }

  lemma SpentStays(s: State, e: Event, id: string)
    requires Inv(s) && Enabled(s, e) && Spent(s, id)
    ensures Spent(After(s, e), id)
  {
    StepIsForward(s, e);
    var s' := After(s, e);
    forall c | c in s'.callers && s'.callers[c].InsertNext? ensures s'.callers[c].cur.id != id {
      OnlyClaimsReachInsert(s, e, c);
    }
  }

  /** A caller stands before its insert because it stood there already or has just won a claim. */
  lemma OnlyClaimsReachInsert(s: State, e: Event, c: nat)
    requires Enabled(s, e) && c in After(s, e).callers && After(s, e).callers[c].InsertNext?
    ensures c in s.callers
    ensures s.callers[c] == After(s, e).callers[c]
         || (s.callers[c].ClaimRow? && s.callers[c].cur == After(s, e).callers[c].cur
             && s.callers[c].cur.id in s.db.sessions
             && s.db.sessions[s.callers[c].cur.id].rotatedAt.None?)
  {
  }

  lemma InsertSpends(s: State, e: Event, id: string)
    requires Inv(s) && Enabled(s, e) && InsertsSuccessor(s, e, id)
    ensures Spent(After(s, e), id)
  {
    assert SnapshotOk(s, s.callers[e.caller].cur) && PendingOk(s, s.callers[e.caller]);
    forall c | c in s.callers && c != e.caller && s.callers[c].InsertNext?
      ensures s.callers[c].cur.id != id
    {
      assert SnapshotOk(s, s.callers[c].cur);
    }
    StepIsForward(s, e);
  }

  lemma {:induction false} SpentPersists(h: History, i: nat, j: nat, id: string)
    requires IsRun(h) && i <= j < |h.states| && Spent(h.states[i], id)
    ensures Spent(h.states[j], id)
  {
    if i < j {
      SpentPersists(h, i, j - 1, id);
      RunKeepsInv(h, j - 1);
      assert Follows(h, j - 1);
      SpentStays(h.states[j - 1], h.events[j - 1], id);
    }
  }

  /** One refresh token is exchanged at most once: no row is ever given two successors. */
  lemma OneSuccessor(h: History, i: nat, j: nat, id: string)
    requires IsRun(h) && i < |h.events| && j < |h.events|
    requires InsertsSuccessor(h.states[i], h.events[i], id)
    requires InsertsSuccessor(h.states[j], h.events[j], id)
    ensures i == j
  {
    var a, b := if i <= j then i else j, if i <= j then j else i;
    if a < b {
      RunKeepsInv(h, a);
      assert Follows(h, a);
      InsertSpends(h.states[a], h.events[a], id);
      SpentPersists(h, a + 1, b, id);
    }
  }

  // ---- nothing is undone ----

  predicate RowForward(r: SessionRow, r': SessionRow) {
    && r'.id == r.id && r'.owner == r.owner && r'.family == r.family && r'.digest == r.digest
    && r'.digestVersion == r.digestVersion && r'.issuedAt == r.issuedAt && r'.expiresAt == r.expiresAt
    && (r.rotatedAt.Some? ==> r'.rotatedAt == r.rotatedAt)
    && (r.revokedAt.Some? ==> r'.revokedAt == r.revokedAt && r'.revokedReason == r.revokedReason)
    && (r'.identity == r.identity || r'.identity == None)
  }

  predicate IdentityForward(r: IdentityRow, r': IdentityRow) { r' == r.(lastUsedAt := r'.lastUsedAt) }

  predicate UserForward(r: UserRow, r': UserRow) {
    && r'.id == r.id && r'.createdAt == r.createdAt
    && (r.state.Deleted? ==> r'.state.Deleted?)
  }

  /** No session or account row disappears, write-once columns keep their values, and a
      rotation, a revocation and a deleted state stay. */
  ghost predicate Forward(db: Db, db': Db) {
    && (forall id | id in db.sessions :: id in db'.sessions && RowForward(db.sessions[id], db'.sessions[id]))
    && (forall id | id in db.users :: id in db'.users && UserForward(db.users[id], db'.users[id]))
    && (forall id | id in db.identities && id in db'.identities ::
          IdentityForward(db.identities[id], db'.identities[id]))
  }

  lemma MarksAreForward(db: Db, scope: Scope, at: int, reason: string)
    ensures Forward(db, Revoke(db, scope, at, reason))
  {
  }

  /** What a revoking step marks, and how. */
  lemma RevokingMarks(db: Db, pc: Pc, d: Draw) returns (scope: Scope, at: int, reason: string)
    requires Revokes(pc)
    ensures Advance(db, pc, d).0 == Revoke(db, scope, at, reason)
  {
    match pc {
      case RevokeOnReuse(f, now) => scope, at, reason := Family(f), now, "refresh_reuse";
      case RevokeLate(f, now) => scope, at, reason := Family(f), now, "refresh_reuse";
      case UnlinkRevoke(i) => scope, at, reason := Identity(i), d.now, "identity_unlinked";
      case SignOut(i) => scope, at, reason := OneSession(i), d.now, "logout";
      case SignOutEverywhere(u) => scope, at, reason := User(u), d.now, "logout_all";
      case CloseRevoke(u, now) => scope, at, reason := User(u), now, "account_deleted";
    }
  }

  lemma RevokingIsForward(db: Db, pc: Pc, d: Draw)
    requires Revokes(pc)
    ensures Forward(db, Advance(db, pc, d).0)
  {
    var scope, at, reason := RevokingMarks(db, pc, d);
    MarksAreForward(db, scope, at, reason);
  }

  lemma InsertingIsForward(db: Db, pc: Pc, d: Draw)
    requires pc.InsertNext? || pc.NewInsert?
    ensures Forward(db, Advance(db, pc, d).0)
  {
  }

  lemma AdvanceIsForward(db: Db, pc: Pc, d: Draw)
    ensures Forward(db, Advance(db, pc, d).0)
  {
    if Revokes(pc) {
      RevokingIsForward(db, pc, d);
    } else if pc.InsertNext? || pc.NewInsert? {
      InsertingIsForward(db, pc, d);
    } else if pc.UnlinkDelete? {
    } else {
      QuietIsForward(db, pc, d);
    }
  }

  lemma QuietIsForward(db: Db, pc: Pc, d: Draw)
    requires !Revokes(pc) && !pc.InsertNext? && !pc.NewInsert? && !pc.UnlinkDelete?
    ensures Forward(db, Advance(db, pc, d).0)
  {
    if !pc.ClaimRow? && !pc.CloseMark? { ReadsChangeNothing(db, pc, d); }
  }

  lemma ReadsChangeNothing(db: Db, pc: Pc, d: Draw)
    requires !Revokes(pc) && !pc.InsertNext? && !pc.NewInsert? && !pc.UnlinkDelete? && !pc.ClaimRow? && !pc.CloseMark?
    ensures Advance(db, pc, d).0 == db
  {
  }

  lemma StepIsForward(s: State, e: Event)
    requires Enabled(s, e)
    ensures Forward(s.db, After(s, e).db)
  {
    if e.Run? {
      AdvanceIsForward(s.db, s.callers[e.caller], e.draw);
    }
  }

  lemma StepMints(s: State, e: Event)
    requires Enabled(s, e)
    ensures s.minted <= After(s, e).minted
    ensures forall id | id in After(s, e).db.identities && id !in s.db.identities :: id !in s.minted
  {
    if e.Run? {
      AdvanceIsForward(s.db, s.callers[e.caller], e.draw);
    }
  }

  lemma ForwardChains(a: Db, b: Db, c: Db)
    requires Forward(a, b) && Forward(b, c)
    requires forall i | i in a.identities && i in c.identities :: i in b.identities
    ensures Forward(a, c)
  {
  }

  ghost predicate NewAreUnminted(s: State, s': State) {
    && s.minted <= s'.minted
    && (forall id | id in s'.db.identities && id !in s.db.identities :: id !in s.minted)
  }

  lemma StepAt(h: History, i: nat)
    requires IsRun(h) && i < |h.events|
    ensures Forward(h.states[i].db, h.states[i + 1].db) && NewAreUnminted(h.states[i], h.states[i + 1])
  {
    assert Follows(h, i);
    StepIsForward(h.states[i], h.events[i]);
    StepMints(h.states[i], h.events[i]);
  }

  ghost predicate Onward(a: State, b: State) { Forward(a.db, b.db) && a.minted <= b.minted }

  lemma StaysOnward(s: State)
    ensures Onward(s, s)
  {
  }

  lemma StatesChain(a: State, b: State, c: State)
    requires Keyed(a) && Onward(a, b) && Forward(b.db, c.db) && NewAreUnminted(b, c)
    ensures Onward(a, c)
  {
    ForwardChains(a.db, b.db, c.db);
  }

  lemma RunKeepsKeyed(h: History, i: nat)
    requires IsRun(h) && i < |h.states|
    ensures Keyed(h.states[i])
  {
    RunKeepsInv(h, i);
  }

  /** Over any stretch of a run nothing of the above is undone, and an identity row that is
      still there has the owner, kind and subject it always had. */
  lemma {:induction false} NothingUndone(h: History, i: nat, j: nat)
    requires IsRun(h) && i <= j < |h.states|
    ensures Onward(h.states[i], h.states[j])
  {
    if i == j {
      StaysOnward(h.states[i]);
    } else {
      NothingUndone(h, i, j - 1);
      RunKeepsKeyed(h, i);
      StepAt(h, j - 1);
      StatesChain(h.states[i], h.states[j - 1], h.states[j]);
    }
  }

  // ---- revocation is complete ----

  ghost predicate AllRevoked(db: Db, family: string) {
    forall id | id in db.sessions && db.sessions[id].family == family :: db.sessions[id].revokedAt.Some?
  }

  /** A caller that has inserted into the family and is bound to revoke it when it looks back. */
  predicate Owes(s: State, pc: Pc, family: string) {
    || (pc.RevokeLate? && pc.family == family)
    || (pc.Reread? && pc.cur.family == family && pc.cur.id in s.db.sessions
        && s.db.sessions[pc.cur.id].revokedAt.Some?)
  }

  /** Every row of the family is revoked, or some caller is bound to revoke them all. */
  ghost predicate Doomed(s: State, family: string) {
    && family in s.minted
    && (AllRevoked(s.db, family) || exists c | c in s.callers :: Owes(s, s.callers[c], family))
  }

  /** The store call of step `e` is a revocation that reaches the family. */
  ghost predicate CondemnsFamily(s: State, e: Event, family: string) {
    && family in s.minted
    && e.Run? && e.caller in s.callers
    && match s.callers[e.caller]
       case RevokeOnReuse(f, _) => f == family
       case RevokeLate(f, _) => f == family
       case SignOutEverywhere(u) => exists id :: InFamily(s.db, id, family) && s.db.sessions[id].owner == u
       case CloseRevoke(u, _) => exists id :: InFamily(s.db, id, family) && s.db.sessions[id].owner == u
       case UnlinkRevoke(i) => exists id :: InFamily(s.db, id, family) && s.db.sessions[id].identity == Some(i)
       case _ => false
  }

  lemma RevokeReaches(db: Db, scope: Scope, at: int, reason: string, family: string)
    requires forall id | InFamily(db, id, family) :: Selects(scope, db.sessions[id])
    ensures AllRevoked(Revoke(db, scope, at, reason), family)
  {
  }

  lemma CondemnedIsDoomed(s: State, e: Event, family: string)
    requires Inv(s) && Enabled(s, e) && CondemnsFamily(s, e, family)
    ensures Doomed(After(s, e), family)
  {
    match s.callers[e.caller] {
      case RevokeOnReuse(f, now) => RevokeReaches(s.db, Family(f), now, "refresh_reuse", family);
      case RevokeLate(f, now) => RevokeReaches(s.db, Family(f), now, "refresh_reuse", family);
      case SignOutEverywhere(u) => RevokeReaches(s.db, User(u), e.draw.now, "logout_all", family);
      case CloseRevoke(u, now) => RevokeReaches(s.db, User(u), now, "account_deleted", family);
      case UnlinkRevoke(i) => RevokeReaches(s.db, Identity(i), e.draw.now, "identity_unlinked", family);
    }
  }

  lemma DoomedStays(s: State, e: Event, family: string)
    requires Inv(s) && Enabled(s, e) && Doomed(s, family)
    ensures Doomed(After(s, e), family)
  {
    var s' := After(s, e);
    StepIsForward(s, e);
    StepMints(s, e);
    if c :| c in s.callers && Owes(s, s.callers[c], family) {
      if e.Run? && e.caller == c && s.callers[c].RevokeLate? {
        CondemnedIsDoomed(s, e, family);
      } else {
        assert c in s'.callers && Owes(s', s'.callers[c], family);
      }
    } else {
      AllRevokedStays(s, e, family);
    }
  }

  lemma AllRevokedStays(s: State, e: Event, family: string)
    requires Inv(s) && Enabled(s, e) && AllRevoked(s.db, family) && family in s.minted
    ensures Doomed(After(s, e), family)
  {
    var s' := After(s, e);
    StepIsForward(s, e);
    StepMints(s, e);
    if e.Run? && s.callers[e.caller].InsertNext? {
      var pc := s.callers[e.caller];
      assert SnapshotOk(s, pc.cur);
      if pc.cur.family == family && s'.callers[e.caller].Reread? {
        assert Owes(s', s'.callers[e.caller], family);
      }
    } else {
      NoOtherJoins(s, e, family);
    }
  }

  /** Only a rotation inserts into a family that already exists. */
  lemma NoOtherJoins(s: State, e: Event, family: string)
    requires Enabled(s, e) && family in s.minted
    requires !(e.Run? && s.callers[e.caller].InsertNext?)
    ensures forall id | id in After(s, e).db.sessions && After(s, e).db.sessions[id].family == family ::
              id in s.db.sessions
  {
  }

  lemma {:induction false} DoomPersists(h: History, i: nat, j: nat, family: string)
    requires IsRun(h) && i <= j < |h.states| && Doomed(h.states[i], family)
    ensures Doomed(h.states[j], family)
  {
    if i < j {
      DoomPersists(h, i, j - 1, family);
      RunKeepsInv(h, j - 1);
      assert Follows(h, j - 1);
      DoomedStays(h.states[j - 1], h.events[j - 1], family);
    }
  }

  /** No rotation of the family stands between its insert and the end of its re-read. */
  predicate Settled(s: State, family: string) {
    forall c | c in s.callers ::
      && (s.callers[c].Reread? ==> s.callers[c].cur.family != family)
      && (s.callers[c].RevokeLate? ==> s.callers[c].family != family)
  }

  /** Once a revocation has reached a family, every later settled state has every row of it
      revoked, successors inserted after the revocation included. */
  lemma RevocationIsComplete(h: History, k: nat, m: nat, family: string)
    requires IsRun(h) && k < m < |h.states|
    requires CondemnsFamily(h.states[k], h.events[k], family)
    requires Settled(h.states[m], family)
    ensures AllRevoked(h.states[m].db, family)
  {
    RunKeepsInv(h, k);
    assert Follows(h, k);
    CondemnedIsDoomed(h.states[k], h.events[k], family);
    DoomPersists(h, k + 1, m, family);
  }

  // ---- unlinking wins ----

  /** Unlinking an identity reaches every family it has established so far, so no descendant of
      those sessions survives, whatever rotations were in flight. */
  lemma UnlinkingWins(h: History, k: nat, m: nat, identity: string, id: string)
    requires IsRun(h) && k < m < |h.states|
    requires h.events[k].Run? && h.events[k].caller in h.states[k].callers
    requires h.states[k].callers[h.events[k].caller] == UnlinkRevoke(identity)
    requires id in h.states[k].db.sessions && h.states[k].db.sessions[id].identity == Some(identity)
    requires Settled(h.states[m], h.states[k].db.sessions[id].family)
    ensures AllRevoked(h.states[m].db, h.states[k].db.sessions[id].family)
  {
    RunKeepsInv(h, k);
    var family := h.states[k].db.sessions[id].family;
    assert InFamily(h.states[k].db, id, family);
    RevocationIsComplete(h, k, m, family);
  }

  /** The order matters: once the identity is gone its revocation selects nothing. */
  lemma DeletingFirstRevokesNothing(db: Db, identity: string, at: int, reason: string)
    ensures Revoke(DeleteIdentity(db, identity), Identity(identity), at, reason) == DeleteIdentity(db, identity)
  {
    var db' := DeleteIdentity(db, identity);
    assert Revoke(db', Identity(identity), at, reason).sessions == db'.sessions;
  }

  // ---- presenting a token twice ----

  /** A caller that has seen a rotated row, or lost the claim, and what has become of it. */
  predicate Accusing(s: State, c: nat, family: string) {
    c in s.callers
    && (s.callers[c].Crashed? || (s.callers[c].RevokeOnReuse? && s.callers[c].family == family))
  }

  lemma AccusationStep(s: State, e: Event, c: nat, family: string)
    requires Inv(s) && Enabled(s, e) && family in s.minted && Accusing(s, c, family)
    ensures Accusing(After(s, e), c, family) || Doomed(After(s, e), family)
  {
    if e.Run? && e.caller == c && s.callers[c].RevokeOnReuse? {
      CondemnedIsDoomed(s, e, family);
    }
  }

  lemma {:induction false} AccusationStands(h: History, i: nat, j: nat, c: nat, family: string)
    requires IsRun(h) && i <= j < |h.states| && family in h.states[i].minted
    requires Accusing(h.states[i], c, family)
    ensures Accusing(h.states[j], c, family) || Doomed(h.states[j], family)
  {
    if i < j {
      AccusationStands(h, i, j - 1, c, family);
      NothingUndone(h, i, j - 1);
      RunKeepsInv(h, j - 1);
      assert Follows(h, j - 1);
      if Doomed(h.states[j - 1], family) {
        DoomedStays(h.states[j - 1], h.events[j - 1], family);
      } else {
        AccusationStep(h.states[j - 1], h.events[j - 1], c, family);
      }
    }
  }

  /** Reuse is fatal. A caller that is shown an already rotated row, or that loses the claim, and
      is not cut off before its next call, ends with the whole family revoked. */
  lemma ReuseRevokesTheFamily(h: History, k: nat, m: nat, c: nat, id: string)
    requires IsRun(h) && k < m < |h.states| && h.events[k].Run? && h.events[k].caller == c
    requires c in h.states[k].callers
    requires id in h.states[k].db.sessions && h.states[k].db.sessions[id].rotatedAt.Some?
    requires
      var pc := h.states[k].callers[c];
      || (pc.FindByDigest? && pc.digest == h.states[k].db.sessions[id].digest)
      || (pc.ClaimRow? && pc.cur.id == id)
    requires c in h.states[m].callers && h.states[m].callers[c].Done?
    requires Settled(h.states[m], h.states[k].db.sessions[id].family)
    ensures AllRevoked(h.states[m].db, h.states[k].db.sessions[id].family)
  {
    var s := h.states[k];
    RunKeepsInv(h, k);
    assert Follows(h, k);
    var family := s.db.sessions[id].family;
    if s.callers[c].FindByDigest? {
      assert RowWithDigest(s.db, s.callers[c].digest) == Some(s.db.sessions[id]);
    } else {
      assert SnapshotOk(s, s.callers[c].cur);
    }
    assert Accusing(h.states[k + 1], c, family);
    StepMints(s, h.events[k]);
    AccusationStands(h, k + 1, m, c, family);
    DoomPersists(h, m, m, family);
  }
}
