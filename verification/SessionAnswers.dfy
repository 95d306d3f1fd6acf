/** What the session calls answer and what they leave behind: the token that is handed out works, the
    one it replaces does not, and a logout ends one session and no other. */
module SessionAnswers {
  import opened Store
  import opened Rotation
  import Runs = RotationSafety
  import opened SessionService

  // ---- tables ----

  /** Rows sit under their ids, and a digest names one row. */
  ghost predicate Tidy(db: Db) {
    && (forall x | x in db.sessions :: db.sessions[x].id == x)
    && (forall x, y | x in db.sessions && y in db.sessions && db.sessions[x].digest == db.sessions[y].digest :: x == y)
  }

  ghost predicate Open(db: Db, user: string) { user in db.users && db.users[user].state == Active }

  /** The drawn names are free and the identity, if there is one, is there. */
  ghost predicate RoomFor(db: Db, owner: string, identity: Option<string>, d: Draw) {
    && d.id !in db.sessions && (forall x | x in db.sessions :: db.sessions[x].digest != d.digest)
    && owner in db.users && (identity.Some? ==> identity.value in db.identities)
  }

  /** A new session: the digest of the token handed out finds this row and no other, for thirty days. */
  ghost predicate Handed(db: Db, d: Draw, owner: string, identity: Option<string>, family: string) {
    && d.id in db.sessions
    && var row := db.sessions[d.id];
       && row.id == d.id && row.digest == d.digest
       && row.owner == owner && row.identity == identity && row.family == family
       && row.rotatedAt == None && row.revokedAt == None && row.revokedReason == None
       && row.digestVersion == 1 && row.issuedAt == d.now && row.lastSeenAt == d.now && row.expiresAt == d.now + 30 * 24 * 60 * 60 * 1000
       && forall x | x in db.sessions && db.sessions[x].digest == d.digest :: x == d.id
  }

  /** All rows but one are as they were. */
  ghost predicate OthersStay(db: Db, db': Db, id: string) {
    && db'.users == db.users && db'.identities == db.identities
    && forall x | x in db.sessions && x != id :: x in db'.sessions && db'.sessions[x] == db.sessions[x]
  }

  lemma DigestFinds(db: Db, x: string)
    requires Tidy(db) && x in db.sessions
    ensures RowWithDigest(db, db.sessions[x].digest) == Some(db.sessions[x])
  {
  }

  // ---- a session that is used ----

  /** A row is exchanged exactly when it is live and unexpired, its account is open, and there is room
      for the next. */
  lemma LiveRowIsExchanged(db: Db, x: string, d: Draw)
    requires Tidy(db) && x in db.sessions
    ensures var cur := db.sessions[x];
      Alone(db, FindByDigest(cur.digest), d).1 == Done(Issued(d.id))
      <==> cur.rotatedAt.None? && cur.revokedAt.None? && d.now < cur.expiresAt && Open(db, cur.owner)
           && RoomFor(db, cur.owner, cur.identity, d)
  {
    DigestFinds(db, x);
    RotationSucceedsExactly(db, db.sessions[x].digest, d);
  }

  lemma RowIsAdded(db: Db, x: string, d: Draw, db': Db)
    requires Tidy(db) && x in db.sessions && RoomFor(db, db.sessions[x].owner, db.sessions[x].identity, d)
    requires var cur := db.sessions[x];
      db'.sessions == db.sessions[x := cur.(rotatedAt := Some(d.now))][d.id := Successor(cur, d.now, d)]
    ensures var cur := db.sessions[x];
      && Handed(db', d, cur.owner, cur.identity, cur.family) && Tidy(db')
      && x in db'.sessions && db'.sessions[x] == cur.(rotatedAt := Some(d.now))
      && db'.sessions.Keys == db.sessions.Keys + {d.id}
  {
  }

  /** What a rotation leaves: a new session in the family of the old one, for the same account and
      identity, and the old one rotated. Nothing else is touched. */
  lemma RotationHandsOver(db: Db, x: string, d: Draw)
    requires Tidy(db) && x in db.sessions
    requires Alone(db, FindByDigest(db.sessions[x].digest), d).1 == Done(Issued(d.id))
    ensures var cur := db.sessions[x]; var db' := Alone(db, FindByDigest(cur.digest), d).0;
      && x != d.id && Handed(db', d, cur.owner, cur.identity, cur.family) && Tidy(db')
      && x in db'.sessions && db'.sessions[x] == cur.(rotatedAt := Some(d.now))
      && OthersStay(db, db', x) && db'.sessions.Keys == db.sessions.Keys + {d.id}
  {
    var cur := db.sessions[x];
    LiveRowIsExchanged(db, x, d);
    DigestFinds(db, x);
    RotationSucceedsExactly(db, cur.digest, d);
    RotatingWritesSessions(db, FindByDigest(cur.digest), d);
    RowIsAdded(db, x, d, Alone(db, FindByDigest(cur.digest), d).0);
  }

  /** The counters of a rotation. */
  predicate Rotating(pc: Pc) {
    pc.FindByDigest? || pc.ReadAccount? || pc.ClaimRow? || pc.InsertNext? || pc.Reread? || pc.RevokeOnReuse?
    || pc.RevokeLate? || pc.Done?
  }

  lemma RotatingStep(db: Db, pc: Pc, d: Draw)
    requires Rotating(pc)
    ensures var (db', pc') := Advance(db, pc, d);
      Rotating(pc') && db'.users == db.users && db'.identities == db.identities
  {
  }

  /** The rotation writes sessions only. */
  lemma {:induction false} RotatingWritesSessions(db: Db, pc: Pc, d: Draw)
    requires Rotating(pc)
    ensures var db' := Alone(db, pc, d).0; db'.users == db.users && db'.identities == db.identities
    decreases Remaining(pc)
  {
    if !pc.Done? {
      RotatingStep(db, pc, d);
      Onward(db, pc, d);
      RotatingWritesSessions(Advance(db, pc, d).0, Advance(db, pc, d).1, d);
    }
  }

  /** The token handed out is good: whatever has happened to other rows since, as long as its own is as
      it was left it is exchanged exactly in the next thirty days, while its account is open and there is
      room for the next row. */
  lemma HandedTokenWorks(left: Db, d: Draw, owner: string, identity: Option<string>, family: string, later: Db, d2: Draw)
    requires Handed(left, d, owner, identity, family)
    requires Tidy(later) && d.id in later.sessions && later.sessions[d.id] == left.sessions[d.id]
    ensures Alone(later, FindByDigest(d.digest), d2).1 == Done(Issued(d2.id))
        <==> d2.now < d.now + 30 * 24 * 60 * 60 * 1000 && Open(later, owner) && RoomFor(later, owner, identity, d2)
  {
    LiveRowIsExchanged(later, d.id, d2);
  }

  /** A second rotation with the token of the first. */
  lemma NewTokenWorks(db: Db, x: string, d: Draw, left: Db, d2: Draw)
    requires Tidy(db) && x in db.sessions
    requires Alone(db, FindByDigest(db.sessions[x].digest), d) == (left, Done(Issued(d.id)))
    ensures var cur := db.sessions[x];
      Alone(left, FindByDigest(d.digest), d2).1 == Done(Issued(d2.id))
      <==> d2.now < d.now + 30 * 24 * 60 * 60 * 1000 && Open(db, cur.owner) && RoomFor(left, cur.owner, cur.identity, d2)
  {
    RotationHandsOver(db, x, d);
    HandedTokenWorks(left, d, db.sessions[x].owner, db.sessions[x].identity, db.sessions[x].family, left, d2);
  }

  /** And one more with the token of the first row: nothing is issued, and the whole family is revoked,
      the row just handed out included. */
  lemma OldTokenRevokes(db: Db, x: string, d: Draw, left: Db, d2: Draw)
    requires Tidy(db) && x in db.sessions
    requires Alone(db, FindByDigest(db.sessions[x].digest), d) == (left, Done(Issued(d.id)))
    ensures var (after, pc) := Alone(left, FindByDigest(db.sessions[x].digest), d2);
      && pc == Done(Refused(SessionRevoked))
      && d.id in after.sessions && after.sessions[d.id].revokedAt.Some?
      && forall y | y in after.sessions && after.sessions[y].family == db.sessions[x].family :: after.sessions[y].revokedAt.Some?
  {
    RotationHandsOver(db, x, d);
    DigestFinds(left, x);
    var cur := left.sessions[x];
    Onward(left, FindByDigest(cur.digest), d2);
    Onward(left, RevokeOnReuse(cur.family, d2.now), d2);
  }

  // ---- a rotation that others interfere with ----

  /** The `i`-th counter, the last being the end. */
  function CounterAt(calls: seq<Call>, outcome: Outcome, i: nat): Pc {
    if i < |calls| then calls[i].pc else Done(outcome)
  }

  lemma CallLeads(calls: seq<Call>, start: Pc, d: Draw, env: seq<Db>, outcome: Outcome, i: nat)
    requires Performs(calls, start, d, env, outcome) && i < |calls|
    ensures Advance(env[i], CounterAt(calls, outcome, i), d) == (calls[i].after, CounterAt(calls, outcome, i + 1))
  {
  }

  lemma {:induction false} EndStays(calls: seq<Call>, start: Pc, d: Draw, env: seq<Db>, outcome: Outcome, i: nat)
    requires Performs(calls, start, d, env, outcome) && CounterAt(calls, outcome, i).Done?
    ensures CounterAt(calls, outcome, i) == Done(outcome)
    decreases |calls| - i
  {
    if i < |calls| {
      CallLeads(calls, start, d, env, outcome, i);
      EndStays(calls, start, d, env, outcome, i + 1);
    }
  }

  /** What the five calls have to find for a token to be issued. */
  ghost predicate Prevails(env: seq<Db>, x: string, d: Draw)
    requires |env| == 6 && x in env[0].sessions
  {
    var cur := env[0].sessions[x];
    && cur.rotatedAt.None? && cur.revokedAt.None? && d.now < cur.expiresAt
    && Open(env[1], cur.owner)
    && x in env[2].sessions && env[2].sessions[x].rotatedAt.None?
    && RoomFor(env[3], cur.owner, cur.identity, d)
    && (x in env[4].sessions ==> env[4].sessions[x].revokedAt.None?)
  }

  /** The third and fourth call, from the counter a live row leads to. */
  lemma ClaimAndInsert(calls: seq<Call>, start: Pc, d: Draw, env: seq<Db>, outcome: Outcome, cur: SessionRow)
    requires Performs(calls, start, d, env, outcome) && |env| == 6
    requires 2 <= |calls| && CounterAt(calls, outcome, 2) == ClaimRow(cur, d.now)
    ensures outcome.Issued?
        <==> cur.id in env[2].sessions && env[2].sessions[cur.id].rotatedAt.None?
             && RoomFor(env[3], cur.owner, cur.identity, d)
             && (cur.id in env[4].sessions ==> env[4].sessions[cur.id].revokedAt.None?)
    ensures outcome.Issued? ==>
              outcome == Issued(d.id) && 3 < |calls| && calls[3].pc == InsertNext(cur, d.now)
  {
    CallLeads(calls, start, d, env, outcome, 2);
    var third := CounterAt(calls, outcome, 3);
    if third.InsertNext? {
      CallLeads(calls, start, d, env, outcome, 3);
      if CounterAt(calls, outcome, 4).Reread? {
        LookBack(calls, start, d, env, outcome, cur);
      } else {
        EndStays(calls, start, d, env, outcome, 4);
      }
    } else {
      RevokingIssuesNothing(calls, start, d, env, outcome, 3);
    }
  }

  lemma RevokingIssuesNothing(calls: seq<Call>, start: Pc, d: Draw, env: seq<Db>, outcome: Outcome, i: nat)
    requires Performs(calls, start, d, env, outcome)
    requires CounterAt(calls, outcome, i).RevokeOnReuse? || CounterAt(calls, outcome, i).RevokeLate?
    ensures outcome == Refused(SessionRevoked)
  {
    CallLeads(calls, start, d, env, outcome, i);
    EndStays(calls, start, d, env, outcome, i + 1);
  }

  lemma LookBack(calls: seq<Call>, start: Pc, d: Draw, env: seq<Db>, outcome: Outcome, cur: SessionRow)
    requires Performs(calls, start, d, env, outcome) && |env| == 6
    requires CounterAt(calls, outcome, 4) == Reread(cur, d.now, d.id)
    ensures outcome.Issued? <==> (cur.id in env[4].sessions ==> env[4].sessions[cur.id].revokedAt.None?)
    ensures outcome.Issued? ==> outcome == Issued(d.id)
  {
    CallLeads(calls, start, d, env, outcome, 4);
    if CounterAt(calls, outcome, 5).Done? {
      EndStays(calls, start, d, env, outcome, 5);
    } else {
      RevokingIssuesNothing(calls, start, d, env, outcome, 5);
    }
  }

  /** Whatever other callers write between the calls: a token is issued exactly when each call finds what
      it looks for, and then the row the fourth call has stored is a new session in the family of the one
      presented, found by the digest of the token that is handed out. */
  lemma IssuedUnderInterference(calls: seq<Call>, x: string, d: Draw, env: seq<Db>, outcome: Outcome)
    requires |env| == 6 && x in env[0].sessions && Tidy(env[0]) && Tidy(env[3])
    requires Performs(calls, FindByDigest(env[0].sessions[x].digest), d, env, outcome)
    ensures outcome.Issued? <==> Prevails(env, x, d)
    ensures var cur := env[0].sessions[x];
      outcome.Issued? ==>
        && outcome == Issued(d.id) && 3 < |calls|
        && Handed(calls[3].after, d, cur.owner, cur.identity, cur.family) && OthersStay(env[3], calls[3].after, d.id)
  {
    var cur, start := env[0].sessions[x], FindByDigest(env[0].sessions[x].digest);
    DigestFinds(env[0], x);
    CallLeads(calls, start, d, env, outcome, 0);
    if CounterAt(calls, outcome, 1).ReadAccount? {
      CallLeads(calls, start, d, env, outcome, 1);
      if CounterAt(calls, outcome, 2).ClaimRow? {
        ClaimAndInsert(calls, start, d, env, outcome, cur);
        if outcome.Issued? { CallLeads(calls, start, d, env, outcome, 3); }
      } else {
        EndStays(calls, start, d, env, outcome, 2);
      }
    } else if CounterAt(calls, outcome, 1).Done? {
      EndStays(calls, start, d, env, outcome, 1);
    } else {
      RevokingIssuesNothing(calls, start, d, env, outcome, 1);
    }
  }

  /** A token that is not in the table is answered as one that has expired is. */
  lemma UnknownAndExpired(db: Db, digest: string, d: Draw)
    requires Tidy(db)
    ensures Alone(db, FindByDigest(digest), d) == (db, Done(Refused(AuthRequired)))
        <==> forall x | x in db.sessions && db.sessions[x].digest == digest ::
               db.sessions[x].rotatedAt.None? && db.sessions[x].revokedAt.None? && d.now >= db.sessions[x].expiresAt
  {
    Onward(db, FindByDigest(digest), d);
    if x :| x in db.sessions && db.sessions[x].digest == digest {
      DigestFinds(db, x);
      var pc := AfterFind(db.sessions[x], d.now);
      if !pc.Done? { NotAuthRequired(db, pc, d); }
    }
  }

  lemma {:induction false} NotAuthRequired(db: Db, pc: Pc, d: Draw)
    requires Rotating(pc) && !pc.FindByDigest? && pc != Done(Refused(AuthRequired))
    ensures Alone(db, pc, d).1 != Done(Refused(AuthRequired))
    decreases Remaining(pc)
  {
    if !pc.Done? {
      Onward(db, pc, d);
      NotAuthRequired(Advance(db, pc, d).0, Advance(db, pc, d).1, d);
    }
  }

  // ---- a session that is created ----

  lemma CreatedIsHanded(db: Db, owner: string, via: Option<string>, d: Draw)
    requires Tidy(db) && RoomFor(db, owner, via, d)
    ensures var db' := db.(sessions := db.sessions[d.id := FirstSession(owner, via, d)]);
      Advance(db, NewInsert(owner, via), d) == (db', Done(Issued(d.id)))
      && Handed(db', d, owner, via, d.family) && OthersStay(db, db', d.id) && Tidy(db')
      && db'.sessions.Keys == db.sessions.Keys + {d.id}
  {
  }

  lemma NoRoomNoSession(db: Db, owner: string, via: Option<string>, d: Draw)
    requires !RoomFor(db, owner, via, d)
    ensures Alone(db, NewInsert(owner, via), d) == (db, Done(Threw))
  {
    Onward(db, NewInsert(owner, via), d);
  }

  /** A session is created exactly for an open account, through no identity or one of its own, where
      there is room for it. */
  lemma CreatedExactly(db: Db, owner: string, via: Option<string>, d: Draw)
    requires Tidy(db)
    ensures var (db', pc) := Alone(db, NewReadAccount(owner, via), d);
      && (pc == Done(Issued(d.id))
          <==> Open(db, owner)
               && (via.Some? ==> via.value in db.identities && db.identities[via.value].owner == owner)
               && RoomFor(db, owner, via, d))
      && (pc == Done(Issued(d.id)) ==>
            && Handed(db', d, owner, via, d.family) && OthersStay(db, db', d.id) && Tidy(db')
            && db'.sessions.Keys == db.sessions.Keys + {d.id})
      && (pc != Done(Issued(d.id)) ==> db' == db)
  {
    Onward(db, NewReadAccount(owner, via), d);
    if Open(db, owner) {
      if via.Some? { Onward(db, NewReadIdentity(owner, via.value), d); }
      Onward(db, NewInsert(owner, via), d);
      if RoomFor(db, owner, via, d) { CreatedIsHanded(db, owner, via, d); } else { NoRoomNoSession(db, owner, via, d); }
    }
  }

  /** And its first token works. */
  lemma FirstTokenWorks(db: Db, owner: string, via: Option<string>, d: Draw, left: Db, later: Db, d2: Draw)
    requires Tidy(db) && Alone(db, NewReadAccount(owner, via), d) == (left, Done(Issued(d.id)))
    requires Tidy(later) && d.id in left.sessions && d.id in later.sessions && later.sessions[d.id] == left.sessions[d.id]
    ensures Alone(later, FindByDigest(d.digest), d2).1 == Done(Issued(d2.id))
        <==> d2.now < d.now + 30 * 24 * 60 * 60 * 1000 && Open(later, owner) && RoomFor(later, owner, via, d2)
  {
    CreatedExactly(db, owner, via, d);
    HandedTokenWorks(left, d, owner, via, d.family, later, d2);
  }

  // ---- a session that is ended ----

  /** A logout ends the session it names, if that is still going, and changes nothing else at all. */
  lemma LogoutEndsOne(db: Db, x: string, d: Draw)
    requires Tidy(db)
    ensures var (db', pc) := Advance(db, SignOut(x), d);
      && pc == Done(Accepted) && db'.sessions.Keys == db.sessions.Keys && OthersStay(db, db', x)
      && (x in db.sessions ==>
            && db'.sessions[x].revokedAt == (if db.sessions[x].revokedAt.Some? then db.sessions[x].revokedAt else Some(d.now))
            && db'.sessions[x] == db.sessions[x].(revokedAt := db'.sessions[x].revokedAt,
                                                  revokedReason := db'.sessions[x].revokedReason))
  {
  }

  /** A sign-out everywhere ends every session of the account and touches no other. */
  lemma LogoutEverywhereEndsAll(db: Db, user: string, d: Draw)
    ensures var (db', pc) := Advance(db, SignOutEverywhere(user), d);
      && pc == Done(Accepted) && db'.sessions.Keys == db.sessions.Keys
      && db'.users == db.users && db'.identities == db.identities
      && forall x | x in db.sessions ::
           if db.sessions[x].owner == user then db'.sessions[x].revokedAt.Some? else db'.sessions[x] == db.sessions[x]
  {
  }

  /** In any run: a session that has been logged out is revoked in every later state, and a token of it
      presented there leads to no successor. */
  lemma LoggedOutForGood(h: Runs.History, k: nat, j: nat, c: nat, x: string, d: Draw)
    requires Runs.IsRun(h) && k < j < |h.states| && h.events[k].Run? && h.events[k].caller == c
    requires c in h.states[k].callers && h.states[k].callers[c] == SignOut(x) && x in h.states[k].db.sessions
    ensures var db := h.states[j].db;
      && x in db.sessions && db.sessions[x].revokedAt.Some?
      && var pc := Advance(db, FindByDigest(db.sessions[x].digest), d).1; !pc.ReadAccount? && pc != Done(Issued(d.id))
  {
    LoggedOutNow(h, k, c, x);
    Runs.NothingUndone(h, k + 1, j);
    TidyAt(h, j);
    RevokedIsRefused(h.states[j].db, x, d);
  }

  lemma TidyAt(h: Runs.History, i: nat)
    requires Runs.IsRun(h) && i < |h.states|
    ensures Tidy(h.states[i].db)
  {
    Runs.RunKeepsInv(h, i);
    KeyedIsTidy(h.states[i]);
  }

  lemma KeyedIsTidy(s: State)
    requires Keyed(s)
    ensures Tidy(s.db)
  {
  }

  lemma LoggedOutNow(h: Runs.History, k: nat, c: nat, x: string)
    requires Runs.IsRun(h) && k < |h.events| && h.events[k].Run? && h.events[k].caller == c
    requires c in h.states[k].callers && h.states[k].callers[c] == SignOut(x) && x in h.states[k].db.sessions
    ensures x in h.states[k + 1].db.sessions && h.states[k + 1].db.sessions[x].revokedAt.Some?
  {
    TidyAt(h, k);
    assert Runs.Follows(h, k);
    LogoutEndsOne(h.states[k].db, x, h.events[k].draw);
  }

  lemma RevokedIsRefused(db: Db, x: string, d: Draw)
    requires Tidy(db) && x in db.sessions && db.sessions[x].revokedAt.Some?
    ensures var pc := Advance(db, FindByDigest(db.sessions[x].digest), d).1; !pc.ReadAccount? && pc != Done(Issued(d.id))
  {
    DigestFinds(db, x);
  }
}
