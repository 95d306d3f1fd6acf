/** `SessionService.rotateSession` as code: store calls one after the other, with other callers'
    writes arriving at every `await`. It is proved to be the program the interleaving proofs are
    about, call by call, and what it does when left alone is stated exactly. */
module SessionService {
  import opened Store
  import opened Rotation
  import opened MemoryStore

  /** How many calls a counter can still be from the end. */
  function Remaining(pc: Pc): nat {
    match pc
    case FindByDigest(_) => 6
    case ReadAccount(_, _) => 5
    case ClaimRow(_, _) => 4
    case InsertNext(_, _) => 3
    case Reread(_, _, _) => 2
    case NewReadAccount(_, _) => 3
    case NewReadIdentity(_, _) => 2
    case UnlinkGet(_, _) => 4
    case UnlinkList(_, _) => 3
    case UnlinkRevoke(_) => 2
    case CloseRead(_) => 3
    case CloseMark(_) => 2
    case Done(_) => 0
    case Crashed => 0
    case _ => 1
  }

  /** A caller left to itself: its calls one after the other until it has an outcome. */
  ghost function Alone(db: Db, pc: Pc, d: Draw): (Db, Pc)
    decreases Remaining(pc)
  {
    if pc.Done? || pc.Crashed? then (db, pc)
    else var (db', pc') := Advance(db, pc, d); Alone(db', pc', d)
  }

  lemma Onward(db: Db, pc: Pc, d: Draw)
    requires !pc.Done? && !pc.Crashed?
    ensures Alone(db, pc, d) == Alone(Advance(db, pc, d).0, Advance(db, pc, d).1, d)
  {
  }

  /** One store call as it happened: the tables it met, the counter that made it, what it left. */
  datatype Call = Call(before: Db, pc: Pc, after: Db)

  /** The calls are the program's own, each at the counter the one before it led to, and each
      finding whatever the other callers had written by then. */
  ghost predicate Performs(calls: seq<Call>, start: Pc, d: Draw, env: seq<Db>, outcome: Outcome) {
    && 0 < |calls| <= |env| && calls[0].pc == start
    && (forall i | 0 <= i < |calls| :: calls[i].before == env[i])
    && (forall i | 0 <= i < |calls| - 1 ::
          Advance(calls[i].before, calls[i].pc, d) == (calls[i].after, calls[i + 1].pc))
    && Advance(calls[|calls| - 1].before, calls[|calls| - 1].pc, d)
       == (calls[|calls| - 1].after, Done(outcome))
  }

  /** The calls so far, ending at counter `pc`. */
  ghost predicate Underway(calls: seq<Call>, start: Pc, d: Draw, env: seq<Db>, pc: Pc) {
    && |calls| <= |env|
    && (forall i | 0 <= i < |calls| :: calls[i].before == env[i])
    && (forall i | 0 <= i < |calls| - 1 ::
          Advance(calls[i].before, calls[i].pc, d) == (calls[i].after, calls[i + 1].pc))
    && (if calls == [] then pc == start
        else calls[0].pc == start
             && Advance(calls[|calls| - 1].before, calls[|calls| - 1].pc, d) == (calls[|calls| - 1].after, pc))
  }

  lemma Extend(calls: seq<Call>, start: Pc, d: Draw, env: seq<Db>, pc: Pc, after: Db, pc': Pc)
    requires Underway(calls, start, d, env, pc) && |calls| < |env|
    requires Advance(env[|calls|], pc, d) == (after, pc')
    ensures Underway(calls + [Call(env[|calls|], pc, after)], start, d, env, pc')
    ensures pc'.Done? ==> Performs(calls + [Call(env[|calls|], pc, after)], start, d, env, pc'.outcome)
  {
  }

  class SessionService {
    const store: MemoryStore

    constructor (store: MemoryStore)
      ensures this.store == store
    {
      this.store := store;
    }

    /** `env[i]` is what the store holds when the i-th call is made: anything at all. */
    method RotateSession(digest: string, d: Draw, env: seq<Db>)
      returns (outcome: Outcome, ghost calls: seq<Call>)
      requires |env| == 6 && forall i | 0 <= i < 6 :: WellKeyed(env[i].sessions)
      modifies store
      ensures Performs(calls, FindByDigest(digest), d, env, outcome)
      ensures store.Contents() == calls[|calls| - 1].after
    {
      ghost var start := FindByDigest(digest);
      store.Resume(env[0]);
      var found := store.FindSessionByDigest(digest);
      assert RowWithDigest(env[0], digest) == found;
      calls := [Call(env[0], start, env[0])];
      if found.None? { return Refused(AuthRequired), calls; }
      var current := found.value;
      Extend([], start, d, env, start, env[0], AfterFind(current, d.now));
      if current.rotatedAt.Some? {
        outcome, calls := RevokeAsReuse(1, RevokeOnReuse(current.family, d.now), start, d, env, calls);
        return;
      }
      if current.revokedAt.Some? { return Refused(SessionRevoked), calls; }
      if d.now >= current.expiresAt { return Refused(AuthRequired), calls; }
      outcome, calls := Exchange(current, start, d, env, calls);
    }

    /** The family revocation every reuse branch ends with. */
    method RevokeAsReuse(k: nat, pc: Pc, ghost start: Pc, d: Draw, env: seq<Db>, ghost soFar: seq<Call>)
      returns (outcome: Outcome, ghost calls: seq<Call>)
      requires forall i | 0 <= i < |env| :: WellKeyed(env[i].sessions)
      requires (pc.RevokeOnReuse? || pc.RevokeLate?) && Underway(soFar, start, d, env, pc) && |soFar| == k < |env|
      modifies store
      ensures Performs(calls, start, d, env, outcome)
      ensures store.Contents() == calls[|calls| - 1].after
    {
      store.Resume(env[k]);
      var _ := store.RevokeWhere(Family(pc.family), pc.now, "refresh_reuse");
      outcome := Refused(SessionRevoked);
      Extend(soFar, start, d, env, pc, store.Contents(), Done(outcome));
      calls := soFar + [Call(env[k], pc, store.Contents())];
    }

    /** The second half: from the account check to the re-read. */
    method Exchange(current: SessionRow, ghost start: Pc, d: Draw, env: seq<Db>, ghost soFar: seq<Call>)
      returns (outcome: Outcome, ghost calls: seq<Call>)
      requires |env| == 6 && forall i | 0 <= i < 6 :: WellKeyed(env[i].sessions)
      requires |soFar| == 1 && Underway(soFar, start, d, env, ReadAccount(current, d.now))
      modifies store
      ensures Performs(calls, start, d, env, outcome)
      ensures store.Contents() == calls[|calls| - 1].after
    {
      var now := d.now;
      store.Resume(env[1]);
      var user := store.GetUser(current.owner);
      calls := soFar + [Call(env[1], ReadAccount(current, now), env[1])];
      Extend(soFar, start, d, env, ReadAccount(current, now), env[1],
             AccountGate(env[1], current.owner, ClaimRow(current, now)));
      if user.None? { return Refused(NotFound), calls; }
      if user.value.state.Deleted? { return Refused(AccountDeleted), calls; }

      store.Resume(env[2]);
      var claimed := store.ClaimSessionRotation(current.id, now);
      Extend(calls, start, d, env, ClaimRow(current, now), store.Contents(),
             if claimed then InsertNext(current, now) else RevokeOnReuse(current.family, now));
      calls := calls + [Call(env[2], ClaimRow(current, now), store.Contents())];
      if !claimed {
        outcome, calls := RevokeAsReuse(3, RevokeOnReuse(current.family, now), start, d, env, calls);
        return;
      }
      outcome, calls := IssueNext(current, start, d, env, calls);
    }

    /** The winner's part: insert the successor, then look back at the row that was claimed. */
    method IssueNext(current: SessionRow, ghost start: Pc, d: Draw, env: seq<Db>, ghost soFar: seq<Call>)
      returns (outcome: Outcome, ghost calls: seq<Call>)
      requires |env| == 6 && forall i | 0 <= i < 6 :: WellKeyed(env[i].sessions)
      requires |soFar| == 3 && Underway(soFar, start, d, env, InsertNext(current, d.now))
      modifies store
      ensures Performs(calls, start, d, env, outcome)
      ensures store.Contents() == calls[|calls| - 1].after
    {
      var now := d.now;
      store.Resume(env[3]);
      var inserted := store.InsertSession(Successor(current, now, d));
      Extend(soFar, start, d, env, InsertNext(current, now), store.Contents(),
             if inserted then Reread(current, now, d.id) else Done(Threw));
      calls := soFar + [Call(env[3], InsertNext(current, now), store.Contents())];
      if !inserted { return Threw, calls; }

      store.Resume(env[4]);
      var claimedRow := store.GetSession(current.id);
      var revoked := claimedRow.Some? && claimedRow.value.revokedAt.Some?;
      Extend(calls, start, d, env, Reread(current, now, d.id), env[4],
             if revoked then RevokeLate(current.family, now) else Done(Issued(d.id)));
      calls := calls + [Call(env[4], Reread(current, now, d.id), env[4])];
      if revoked {
        outcome, calls := RevokeAsReuse(5, RevokeLate(current.family, now), start, d, env, calls);
        return;
      }
      outcome := Issued(d.id);
    }
  }

  /** From the claim on, with the row live. */
  lemma RotationTail(db: Db, cur: SessionRow, d: Draw)
    requires cur.id in db.sessions && db.sessions[cur.id] == cur
    requires cur.rotatedAt.None? && cur.revokedAt.None?
    ensures var (db', pc) := Alone(db, ClaimRow(cur, d.now), d);
      if AdmitsSession(db, Successor(cur, d.now, d)) then
        && pc == Done(Issued(d.id))
        && db'.sessions == db.sessions[cur.id := cur.(rotatedAt := Some(d.now))][d.id := Successor(cur, d.now, d)]
      else pc == Done(Threw)
  {
    var db1 := ClaimRotation(db, cur.id, d.now).0;
    var next := Successor(cur, d.now, d);
    Onward(db, ClaimRow(cur, d.now), d);
    ClaimKeepsAdmission(db, cur.id, d.now, next);
    Onward(db1, InsertNext(cur, d.now), d);
    if AdmitsSession(db, next) {
      var db2 := InsertSession(db1, next).value;
      assert db2.sessions[cur.id].revokedAt.None?;
      Onward(db2, Reread(cur, d.now, d.id), d);
    }
  }

  lemma ClaimKeepsAdmission(db: Db, id: string, at: int, row: SessionRow)
    ensures AdmitsSession(ClaimRotation(db, id, at).0, row) <==> AdmitsSession(db, row)
  {
    var db' := ClaimRotation(db, id, at).0;
    assert forall i | i in db.sessions :: i in db'.sessions && db.sessions[i].digest == db'.sessions[i].digest;
  }

  /** When a presented row is live, the rotation reaches its claim. */
  ghost predicate Presentable(db: Db, found: Option<SessionRow>, now: int) {
    && found.Some?
    && found.value.rotatedAt.None? && found.value.revokedAt.None? && now < found.value.expiresAt
    && found.value.owner in db.users && db.users[found.value.owner].state.Active?
  }

  lemma RotationHead(db: Db, digest: string, d: Draw)
    ensures var found := RowWithDigest(db, digest);
      if Presentable(db, found, d.now) then
        Alone(db, FindByDigest(digest), d) == Alone(db, ClaimRow(found.value, d.now), d)
      else Alone(db, FindByDigest(digest), d).1.Done? && !Alone(db, FindByDigest(digest), d).1.outcome.Issued?
  {
    var found := RowWithDigest(db, digest);
    if found.Some? {
      var pc := AfterFind(found.value, d.now);
      Onward(db, FindByDigest(digest), d);
      if !pc.Done? { Onward(db, pc, d); }
    }
  }

  /** Exactly when a token is exchanged: its row is live and unexpired, the account is active and
      the successor is admissible. What changes then is the claim and the one new row. */
  lemma RotationSucceedsExactly(db: Db, digest: string, d: Draw)
    requires forall id | id in db.sessions :: db.sessions[id].id == id
    ensures var found := RowWithDigest(db, digest);
      var (db', pc) := Alone(db, FindByDigest(digest), d);
      && (pc == Done(Issued(d.id)) <==>
            Presentable(db, found, d.now) && AdmitsSession(db, Successor(found.value, d.now, d)))
      && (pc == Done(Issued(d.id)) ==>
            db'.sessions == db.sessions[found.value.id := found.value.(rotatedAt := Some(d.now))]
                                       [d.id := Successor(found.value, d.now, d)])
  {
    RotationHead(db, digest, d);
    var found := RowWithDigest(db, digest);
    if Presentable(db, found, d.now) {
      RotationTail(db, found.value, d);
    }
  }
}
