/** Every state the services reach meets the whole declared schema. */
module StoreSafety {
  import opened Store
  import opened Schema
  import opened Engine
  import opened StoreSchema
  import opened StoreEmbedding
  import opened ChallengeEmbedding
  import E = EngineSafety
  import R = Rotation
  import I = Identity
  import G = GoogleAuth
  import S = Server
  import Challenges
  import Devices
  import EmailAddress

  // ---- lawful databases are sound ----

  lemma UserRowOk(w: Whole, id: string)
    requires id in w.db.users && w.db.users[id].id == id
    ensures E.RowOk(UserTable(), Embed(w), [Text(id)], UserRecord(w.db.users[id]))
  {
    UserShape(w.db.users[id]);
    UserKey(w.db.users[id]);
    UserIsFree(Embed(w), map[], UserRecord(w.db.users[id]), None);
  }

  lemma IdentityRowOk(w: Whole, id: string)
    requires OwnIds(w.db) && id in w.db.identities && LawfulIdentity(w.db, id, w.db.identities[id])
    ensures E.RowOk(IdentityTable(), Embed(w), [Text(id)], IdentityRecord(w.db.identities[id]))
  {
    IdentityShape(w.db.identities[id]);
    IdentityFreeKey(w.db, w.db.identities[id]);
    IdentityTwin(w.db.identities[id]);
    IdentityLinks(w, w.db.identities[id]);
  }

  lemma SessionRowOk(w: Whole, id: string)
    requires OwnIds(w.db) && id in w.db.sessions && LawfulSession(w.db, id, w.db.sessions[id])
    ensures E.RowOk(SessionTable(), Embed(w), [Text(id)], SessionRecord(w.db.sessions[id]))
  {
    SessionShape(w.db.sessions[id]);
    SessionFreeKey(w.db, w.db.sessions[id]);
    SessionLinks(w, w.db.sessions[id]);
  }

  lemma ChallengeRowOk(w: Whole, id: string)
    requires OwnIds(w.db) && id in w.challenges && w.challenges[id].id == id
    requires LawfulChallenge(w.db.users.Keys, w.challenges[id])
    ensures E.RowOk(ChallengeTable(), Embed(w), [Text(id)], ChallengeRecord(w.challenges[id]))
  {
    ChallengeShape(w.challenges[id]);
    ChallengeKey(w.challenges[id]);
    ChallengeLinks(w, w.challenges[id]);
  }

  lemma DeviceRowOk(w: Whole, k: Devices.DeviceKey)
    requires OwnIds(w.db) && k in w.devices && k == (w.devices[k].user, w.devices[k].device)
    requires w.devices[k].user in w.db.users
    ensures E.RowOk(DeviceTable(), Embed(w), PairKey(k), DeviceRecord(w.devices[k]))
  {
    DeviceShape(w.devices[k]);
    DeviceIsFree(map[], w.devices[k], None);
    DeviceLinks(w, w.devices[k]);
  }

  lemma RowIsOk(w: Whole, t: Tab, k: Key)
    requires Lawful(w) && k in TableRows(w, t)
    ensures E.RowOk(Declared(t), Embed(w), k, TableRows(w, t)[k])
  {
    match t {
      case AbaUser =>
        KeyedExactly(UserRecords(w.db), k);
        UserRowOk(w, k[0].text);
      case AuthIdentity =>
        KeyedExactly(IdentityRecords(w.db), k);
        IdentityRowOk(w, k[0].text);
      case Session =>
        KeyedExactly(SessionRecords(w.db), k);
        SessionRowOk(w, k[0].text);
      case Device =>
        var pair :| pair in w.devices && PairKey(pair) == k;
        DeviceHas(w.devices, pair);
        DeviceRowOk(w, pair);
      case LoginChallenge =>
        KeyedExactly(ChallengeRecords(w.challenges), k);
        ChallengeRowOk(w, k[0].text);
    }
  }

  lemma SessionsUnique(db: Db)
    requires DistinctKeys(db)
    ensures E.UniquesOk(SessionTable(), Keyed(SessionRecords(db)))
  {
    forall k: Key | k in Keyed(SessionRecords(db))
      ensures UniqueOk(SessionTable(), Keyed(SessionRecords(db)), Keyed(SessionRecords(db))[k], Some(k))
    {
      KeyedExactly(SessionRecords(db), k);
      var id := k[0].text;
      SessionUnique(db, db.sessions[id], Some(id));
      assert SkipKey(Some(id)) == Some(k);
    }
  }

  lemma IdentitiesUnique(db: Db)
    requires DistinctKeys(db)
    ensures E.UniquesOk(IdentityTable(), Keyed(IdentityRecords(db)))
  {
    forall k: Key | k in Keyed(IdentityRecords(db))
      ensures UniqueOk(IdentityTable(), Keyed(IdentityRecords(db)), Keyed(IdentityRecords(db))[k], Some(k))
    {
      KeyedExactly(IdentityRecords(db), k);
      var id := k[0].text;
      IdentityUnique(db, db.identities[id], Some(id));
      assert SkipKey(Some(id)) == Some(k);
    }
  }

  lemma ChallengesUnique(rows: Challenges.Rows)
    requires Challenges.Keyed(rows)
    ensures E.UniquesOk(ChallengeTable(), Keyed(ChallengeRecords(rows)))
  {
    forall k: Key | k in Keyed(ChallengeRecords(rows))
      ensures UniqueOk(ChallengeTable(), Keyed(ChallengeRecords(rows)), Keyed(ChallengeRecords(rows))[k], Some(k))
    {
      KeyedExactly(ChallengeRecords(rows), k);
      var id := k[0].text;
      ChallengeUnique(rows, rows[id], Some(id));
      assert SkipKey(Some(id)) == Some(k);
    }
  }

  lemma TableUnique(w: Whole, t: Tab)
    requires Lawful(w)
    ensures E.UniquesOk(Declared(t), TableRows(w, t))
  {
    match t {
      case AbaUser =>
      case AuthIdentity => IdentitiesUnique(w.db);
      case Session => SessionsUnique(w.db);
      case Device =>
      case LoginChallenge => ChallengesUnique(w.challenges);
    }
  }

  /** A lawful database meets every rule of the descriptor the engine knows. */
  lemma LawfulIsSound(w: Whole)
    requires Lawful(w)
    ensures E.Sound(Declared, Embed(w))
  {
    forall t, k | t in Embed(w) && k in Embed(w)[t] ensures E.RowOk(Declared(t), Embed(w), k, Embed(w)[t][k]) {
      RowIsOk(w, t, k);
    }
    forall t | t in Embed(w) ensures E.UniquesOk(Declared(t), Embed(w)[t]) { TableUnique(w, t); }
  }

  /** And the checks it does not know. */
  lemma LawfulMeetsTheOtherChecks(w: Whole, t: Tab, k: Key)
    requires Lawful(w) && k in TableRows(w, t)
    ensures UntwinnedHold(Declared(t), TableRows(w, t)[k])
  {
    match t {
      case AbaUser =>
        KeyedExactly(UserRecords(w.db), k);
        UserChecksHold(w.db.users[k[0].text]);
      case AuthIdentity =>
        KeyedExactly(IdentityRecords(w.db), k);
        IdentityChecksHold(w.db.identities[k[0].text]);
      case Session =>
        KeyedExactly(SessionRecords(w.db), k);
        SessionChecksHold(w.db.sessions[k[0].text]);
      case Device =>
      case LoginChallenge =>
        KeyedExactly(ChallengeRecords(w.challenges), k);
        ChallengeChecksHold(w.challenges[k[0].text]);
    }
  }

  // ---- the services keep databases lawful ----

  /** Rewriting sessions under the same ids and digests, and dropping identities nobody needs. */
  ghost predicate Rewrites(db: Db, db': Db) {
    && db'.users == db.users && db'.sessions.Keys == db.sessions.Keys
    && (forall id | id in db'.identities :: id in db.identities && db'.identities[id] == db.identities[id])
    && (forall id | id in db.sessions :: db'.sessions[id].digest == db.sessions[id].digest)
    && (forall id | id in db.sessions :: LawfulSession(db', id, db'.sessions[id]))
  }

  lemma RewritingIsLawful(db: Db, db': Db)
    requires LawfulDb(db) && Rewrites(db, db')
    ensures LawfulDb(db')
  {
    assert DistinctKeys(db');
  }

  lemma RevokeIsLawful(db: Db, scope: Scope, at: int, reason: string)
    requires LawfulDb(db)
    ensures LawfulDb(Revoke(db, scope, at, reason))
  {
    RewritingIsLawful(db, Revoke(db, scope, at, reason));
  }

  lemma DeleteIsLawful(db: Db, i: string)
    requires LawfulDb(db)
    ensures LawfulDb(DeleteIdentity(db, i))
  {
    RewritingIsLawful(db, DeleteIdentity(db, i));
  }

  lemma TouchIsLawful(db: Db, i: string, at: int)
    requires LawfulDb(db)
    ensures LawfulDb(TouchIdentity(db, i, at))
  {
  }

  lemma RevokingIsLawful(db: Db, pc: R.Pc, d: R.Draw)
    requires LawfulDb(db) && R.Revokes(pc)
    ensures LawfulDb(R.Advance(db, pc, d).0)
  {
    match pc {
      case RevokeOnReuse(f, now) => RevokeIsLawful(db, Family(f), now, "refresh_reuse");
      case RevokeLate(f, now) => RevokeIsLawful(db, Family(f), now, "refresh_reuse");
      case UnlinkRevoke(i) => RevokeIsLawful(db, Scope.Identity(i), d.now, "identity_unlinked");
      case SignOut(i) => RevokeIsLawful(db, OneSession(i), d.now, "logout");
      case SignOutEverywhere(u) => RevokeIsLawful(db, User(u), d.now, "logout_all");
      case CloseRevoke(u, now) => RevokeIsLawful(db, User(u), now, "account_deleted");
    }
  }

  lemma InsertingIsLawful(db: Db, pc: R.Pc, d: R.Draw)
    requires LawfulDb(db) && (pc.InsertNext? || pc.NewInsert?)
    ensures LawfulDb(R.Advance(db, pc, d).0)
  {
  }

  lemma AdvanceIsLawful(db: Db, pc: R.Pc, d: R.Draw)
    requires LawfulDb(db)
    ensures LawfulDb(R.Advance(db, pc, d).0)
  {
    if R.Revokes(pc) {
      RevokingIsLawful(db, pc, d);
    } else if pc.InsertNext? || pc.NewInsert? {
      InsertingIsLawful(db, pc, d);
    } else if pc.UnlinkDelete? {
      DeleteIsLawful(db, pc.identity);
    } else if pc.ClaimRow? {
    } else if pc.CloseMark? {
    }
  }

  lemma SessionStepIsLawful(s: R.State, e: R.Event)
    requires LawfulDb(s.db) && R.Enabled(s, e)
    ensures LawfulDb(R.After(s, e).db)
  {
    match e {
      case Run(c, d) => AdvanceIsLawful(s.db, s.callers[c], d);
      case Crash(_) =>
      case AddUser(u) =>
      case AddIdentity(i) =>
      case Touch(i, at) => TouchIsLawful(s.db, i, at);
    }
  }

  lemma CloseIsLawful(db: Db, u: string, at: int)
    requires LawfulDb(db)
    ensures LawfulDb(MarkUserDeleted(db, u, at))
  {
  }

  /** The one write of an identity: what is attached has an identifier. */
  lemma AttachIsLawful(db: Db, v: I.Assertion, agent: I.Agent, d: I.Draw)
    requires LawfulDb(db) && I.Proves(v)
    ensures LawfulDb(I.Advance(db, I.AttachInsert(v, agent), d).0)
  {
  }

  lemma BootIsLawful(db: Db, v: I.Assertion, user: string, d: I.Draw)
    requires LawfulDb(db)
    ensures LawfulDb(I.Advance(db, I.BootInsert(v, user), d).0)
  {
  }

  lemma SigningIsLawful(db: Db, pc: I.Pc, d: I.Draw)
    requires LawfulDb(db) && I.Proves(pc.v)
    ensures LawfulDb(I.Advance(db, pc, d).0)
  {
    match pc {
      case MakeUser(_) =>
      case BootInsert(v, user) => BootIsLawful(db, v, user, d);
      case AttachInsert(v, agent) => AttachIsLawful(db, v, agent, d);
      case BootRevoke(_, agent, _) => RevokeIsLawful(db, OneSession(agent.session), d.now, "bootstrap");
      case _ =>
    }
  }

  lemma IdentityStepIsLawful(s: I.State, e: I.Event)
    requires LawfulDb(s.db) && I.Enabled(s, e) && forall c | c in s.callers :: I.Proves(s.callers[c].v)
    ensures LawfulDb(I.After(s, e).db)
  {
    match e {
      case Run(c, d) => SigningIsLawful(s.db, s.callers[c], d);
      case Begin(row) =>
      case Unlink(i) => DeleteIsLawful(s.db, i);
      case Close(u, at) => CloseIsLawful(s.db, u, at);
      case Withdraw(scope, at, reason) => RevokeIsLawful(s.db, scope, at, reason);
      case Touch(i, at) => TouchIsLawful(s.db, i, at);
    }
  }

  /** What a caller set out to prove it keeps. */
  lemma ProofsStay(s: I.State, e: I.Event)
    requires I.Enabled(s, e) && forall c | c in s.callers :: I.Proves(s.callers[c].v)
    ensures forall c | c in I.After(s, e).callers :: I.Proves(I.After(s, e).callers[c].v)
  {
    if e.Run? { ProofStays(s.db, s.callers[e.caller], e.draw); }
  }

  lemma ProofStays(db: Db, pc: I.Pc, d: I.Draw)
    ensures I.Advance(db, pc, d).1.v == pc.v
  {
  }

  // ---- accounts are never removed, so nothing that leads to them is left dangling ----

  lemma SessionsKeepUsers(s: R.State, e: R.Event)
    requires R.Enabled(s, e)
    ensures s.db.users.Keys <= R.After(s, e).db.users.Keys
  {
  }

  lemma IdentitiesKeepUsers(s: I.State, e: I.Event)
    requires I.Enabled(s, e)
    ensures s.db.users.Keys <= I.After(s, e).db.users.Keys
  {
  }

  lemma MoreUsersAreFine(w: Whole, db: Db)
    requires Lawful(w) && LawfulDb(db) && w.db.users.Keys <= db.users.Keys
    ensures Lawful(w.(db := db))
  {
  }

  // ---- challenges ----

  /** Challenges change within their flow, or are new. */
  lemma GoogleStepIsLawful(s: S.State, e: G.Event)
    requires Lawful(s.whole) && G.Inv(S.GoogleView(s)) && S.Enabled(s, S.Google(e))
    ensures Lawful(S.After(s, S.Google(e)).whole) && G.Inv(G.After(S.GoogleView(s), e))
  {
    var g := S.GoogleView(s);
    var g' := G.After(g, e);
    G.StepKeepsInv(g, e);
    G.StepMoves(g, e);
    NewRowsAreStarted(g, e);
    forall id | id in g'.rows ensures LawfulChallenge(s.whole.db.users.Keys, g'.rows[id]) {
      assert G.Separate(g'.rows[id]);
      if id in g.rows { assert LawfulChallenge(s.whole.db.users.Keys, g.rows[id]); }
    }
  }

  lemma NewRowsAreStarted(g: G.State, e: G.Event)
    requires G.RowsOk(g) && G.Enabled(g, e)
    ensures forall id | id in G.After(g, e).rows && id !in g.rows :: e.Start? && G.After(g, e).rows[id] == e.row
  {
    if e.Run? { G.AdvanceNarrows(g.rows, g.callers[e.caller], e.draw); }
  }

  /** And every challenge that is started is one the table admits. */
  lemma StartedIsAdmitted(s: S.State, e: G.Event)
    requires G.RowsOk(S.GoogleView(s)) && S.Enabled(s, S.Google(e)) && e.Start?
    ensures Challenges.Admits(s.whole.challenges, s.whole.db.users.Keys, e.row)
  {
    var rows := s.whole.challenges;
    forall id | id in rows ensures !Challenges.Rivals(e.row, rows[id]) {
      assert rows[id].state in s.named;
    }
  }

  /** Nor is an outcome ever refused for its digest. */
  lemma FreshCodeIsFree(s: S.State, id: string, digest: string)
    requires G.RowsOk(S.GoogleView(s)) && digest !in s.named
    ensures CodeIsFree(s.whole.challenges, id, digest)
  {
  }

  lemma DeviceStepIsLawful(s: S.State, e: S.Event)
    requires Lawful(s.whole) && (e.InsertDevice? || e.SetDeviceRetired? || e.TouchDevice?)
    ensures Lawful(S.After(s, e).whole)
  {
  }

  // ---- runs ----

  ghost predicate Inv(s: S.State) {
    Lawful(s.whole) && G.Inv(S.GoogleView(s)) && forall c | c in s.signing :: I.Proves(s.signing[c].v)
  }

  lemma StepKeepsInv(s: S.State, e: S.Event)
    requires Inv(s) && S.Enabled(s, e)
    ensures Inv(S.After(s, e))
  {
    match e {
      case Sessions(x) =>
        SessionStepIsLawful(S.RotationView(s), x);
        SessionsKeepUsers(S.RotationView(s), x);
        MoreUsersAreFine(s.whole, R.After(S.RotationView(s), x).db);
      case Identities(x) =>
        IdentityStepIsLawful(S.IdentityView(s), x);
        ProofsStay(S.IdentityView(s), x);
        IdentitiesKeepUsers(S.IdentityView(s), x);
        MoreUsersAreFine(s.whole, I.After(S.IdentityView(s), x).db);
      case Google(x) =>
        GoogleStepIsLawful(s, x);
        ForgetWins(S.After(s, e), G.After(S.GoogleView(s), x));
      case InsertDevice(_) => DeviceStepIsLawful(s, e);
      case SetDeviceRetired(_, _, _) => DeviceStepIsLawful(s, e);
      case TouchDevice(_, _) => DeviceStepIsLawful(s, e);
    }
  }

  lemma ForgetWins(s: S.State, g: G.State)
    requires G.Inv(g) && S.GoogleView(s) == g.(won := {})
    ensures G.Inv(S.GoogleView(s))
  {
    forall c | c in g.callers ensures G.CallerOk(S.GoogleView(s), g.callers[c]) {
      assert G.CallerOk(g, g.callers[c]);
    }
  }

  lemma InitialIsGood(s: S.State)
    requires S.Initial(s)
    ensures Inv(s)
  {
  }

  lemma {:induction false} RunKeepsInv(h: S.History, i: nat)
    requires S.IsRun(h) && i < |h.states|
    ensures Inv(h.states[i])
  {
    if i == 0 {
      InitialIsGood(h.states[0]);
    } else {
      RunKeepsInv(h, i - 1);
      assert S.Follows(h, i - 1);
      StepKeepsInv(h.states[i - 1], h.events[i - 1]);
    }
  }

  /** Whatever interleaves, of rotations, sign-ins, links, unlinks, closings, callbacks, exchanges,
      sweeps and device calls, every state of a run that starts lawfully (with empty tables, say)
      meets the whole schema in all five tables: keys, NOT NULL, partial uniques, foreign keys, the
      restated check and the checks no restatement enforces. */
  lemma ReachableStatesMeetTheSchema(h: S.History, i: nat)
    requires S.IsRun(h) && i < |h.states|
    ensures var w := h.states[i].whole;
      && E.Sound(Declared, Embed(w))
      && forall t, k | k in TableRows(w, t) :: UntwinnedHold(Declared(t), TableRows(w, t)[k])
  {
    RunKeepsInv(h, i);
    var w := h.states[i].whole;
    LawfulIsSound(w);
    forall t, k | k in TableRows(w, t) ensures UntwinnedHold(Declared(t), TableRows(w, t)[k]) {
      LawfulMeetsTheOtherChecks(w, t, k);
    }
  }

  lemma DrawnCodeIsFree(h: S.History, i: nat, id: string, digest: string)
    requires S.IsRun(h) && i < |h.states| && digest !in h.states[i].named
    ensures Challenges.Keyed(h.states[i].whole.challenges) && CodeIsFree(h.states[i].whole.challenges, id, digest)
  {
    RunKeepsInv(h, i);
    FreshCodeIsFree(h.states[i], id, digest);
  }

  /** In any state of any run what a callback records under a freshly drawn code is stored by the
      engine as it is: no other challenge has the digest. */
  lemma OutcomeIsStored(h: S.History, i: nat, id: string, digest: string, user: string, identity: string)
    requires S.IsRun(h) && i < |h.states| && id in h.states[i].whole.challenges && digest !in h.states[i].named
    ensures var rows := h.states[i].whole.challenges;
      Updating(ChallengeTable(), Keyed(ChallengeRecords(rows)), [Text(id)], OutcomePatch(digest, user, identity))
      == (Keyed(ChallengeRecords(Challenges.Attaching(rows, id, digest, user, identity))), true)
  {
    DrawnCodeIsFree(h, i, id, digest);
    AttachIsUpdate(h.states[i].whole.challenges, id, digest, user, identity);
  }

  lemma LinkOutcomeIsStored(h: S.History, i: nat, id: string, digest: string, subject: string, email: Option<string>)
    requires S.IsRun(h) && i < |h.states| && id in h.states[i].whole.challenges && digest !in h.states[i].named
    ensures var rows := h.states[i].whole.challenges;
      Updating(ChallengeTable(), Keyed(ChallengeRecords(rows)), [Text(id)], LinkPatch(digest, subject, email))
      == (Keyed(ChallengeRecords(Challenges.AttachingLink(rows, id, digest, subject, email))), true)
  {
    DrawnCodeIsFree(h, i, id, digest);
    AttachLinkIsUpdate(h.states[i].whole.challenges, id, digest, subject, email);
  }

  const NOTHING := Whole(Db(map[], map[], map[]), map[], map[])

  /** Empty tables are such a start. */
  lemma EmptyTablesAreLawful(minted: set<string>, named: set<string>)
    ensures S.Initial(S.State(NOTHING, minted, map[], map[], map[], named))
  {
  }
}
