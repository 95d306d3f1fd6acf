/** What sign-ins and links answer: a closed account is never signed in to, only verified addresses are
    ever stored, and when a proof resolves, and to what, is stated without the programs. */
module IdentityAnswers {
  import opened Store
  import opened Identity
  import opened IdentitySafety
  import opened IdentityService
  import EmailAddress

  ghost predicate Open(db: Db, user: string) { user in db.users && db.users[user].state == Active }

  ghost predicate ClosedIn(db: Db, user: string) { user in db.users && db.users[user].state == Deleted }

  // ---- a closed account stays closed ----

  lemma StepKeepsClosed(s: State, e: Event, user: string)
    requires Inv(s) && Enabled(s, e) && ClosedIn(s.db, user)
    ensures ClosedIn(After(s, e).db, user) && user in s.minted
  {
    if e.Run? {
      var pc := s.callers[e.caller];
      if Reads(pc) { ReadsWriteNothing(s.db, pc, e.draw); }
    }
  }

  /** The caller is before the check of the account, or on its way to another one. */
  predicate KeptOut(pc: Pc, user: string) {
    match pc
    case Find(_) => true
    case ReadOwner(_, _, _) => true
    case MakeUser(_) => true
    case BootRead(_, u) => u != user
    case BootInsert(_, u) => u != user
    case BootSession(_, agent) => agent.user != user
    case BootUser(_, agent) => agent.user != user
    case AttachUser(_, _) => true
    case AttachFind(_, agent) => agent.user != user
    case AttachInsert(_, agent) => agent.user != user
    case BootRevoke(_, _, result) => result.Resolved? ==> result.owner != user
    case Done(_, result) => result.Resolved? ==> result.owner != user
  }

  lemma AdvanceKeepsOut(db: Db, pc: Pc, d: Draw, user: string)
    requires KeptOut(pc, user) && ClosedIn(db, user) && d.id != user
    ensures KeptOut(Advance(db, pc, d).1, user)
  {
  }

  lemma {:induction false} StaysOut(h: History, k: nat, j: nat, c: nat, user: string)
    requires IsRun(h) && k <= j < |h.states| && ClosedIn(h.states[k].db, user)
    requires c in h.states[k].callers && KeptOut(h.states[k].callers[c], user)
    ensures ClosedIn(h.states[j].db, user) && c in h.states[j].callers && KeptOut(h.states[j].callers[c], user)
  {
    if k < j {
      StaysOut(h, k, j - 1, c, user);
      RunKeepsInv(h, j - 1);
      assert Follows(h, j - 1);
      StepKeepsClosed(h.states[j - 1], h.events[j - 1], user);
      var e := h.events[j - 1];
      if e.Run? && e.caller == c { AdvanceKeepsOut(h.states[j - 1].db, h.states[j - 1].callers[c], e.draw, user); }
    }
  }

  /** A sign-in that has not looked for its owner yet, or a link that has not checked its account, when an
      account is closed, never resolves to that account. */
  lemma ClosedIsRefused(h: History, k: nat, j: nat, c: nat, user: string)
    requires IsRun(h) && k <= j < |h.states| && ClosedIn(h.states[k].db, user)
    requires c in h.states[k].callers && (h.states[k].callers[c].Find? || h.states[k].callers[c].AttachUser?)
    ensures c in h.states[j].callers
    ensures var pc := h.states[j].callers[c]; pc.Done? && pc.result.Resolved? ==> pc.result.owner != user
  {
    StaysOut(h, k, j, c, user);
  }

  /** A known identity resolves exactly if its owner is there and open when the account is read. */
  lemma KnownResolvesExactly(db: Db, v: Assertion, owner: string, identity: string, d: Draw)
    ensures var (db', pc) := Advance(db, ReadOwner(v, owner, identity), d);
      && db' == db && pc.Done? && pc.v == v
      && (pc.result.Resolved? <==> Open(db, owner))
      && (pc.result.Resolved? ==> pc.result == Resolved(owner, identity))
      && (pc.result == Refused(AccountDeleted) <==> ClosedIn(db, owner))
      && (pc.result == Refused(NotFound) <==> owner !in db.users)
  {
  }

  /** A flow gets past the check of its own session exactly if that is there, unrevoked and unexpired. */
  lemma OwnSessionCheckedExactly(db: Db, v: Assertion, agent: Agent, d: Draw)
    ensures var (db', pc) := Advance(db, BootSession(v, agent), d);
      && db' == db
      && (pc == BootUser(v, agent)
          <==> agent.session in db.sessions && db.sessions[agent.session].revokedAt == None
               && d.now < db.sessions[agent.session].expiresAt)
      && (pc != BootUser(v, agent) ==> pc == Done(v, Unverified(agent.session)))
  {
  }

  predicate ChecksAccount(pc: Pc) { pc.BootRead? || pc.BootUser? || pc.AttachUser? }

  function AccountOf(pc: Pc): string
    requires ChecksAccount(pc)
  {
    if pc.BootRead? then pc.user else pc.agent.user
  }

  /** Wherever the account is looked at, the flow goes on exactly if it is there and open. */
  lemma AccountCheckedExactly(db: Db, pc: Pc, d: Draw)
    requires ChecksAccount(pc) && Usable(pc.v)
    ensures var (db', pc') := Advance(db, pc, d);
      && db' == db
      && (pc'.BootInsert? || pc'.AttachUser? || pc'.AttachFind? <==> Open(db, AccountOf(pc)))
      && (pc'.Done? ==> !pc'.result.Resolved?)
  {
  }

  // ---- only verified addresses ----

  predicate Attested(row: IdentityRow) {
    && (row.email.Some? ==> row.emailVerified && EmailAddress.IsUsableAddress(row.email.value))
    && (row.subject.Some? ==> row.subject.value != "")
  }

  ghost predicate AllAttested(db: Db) { forall i | i in db.identities :: Attested(db.identities[i]) }

  lemma StepKeepsAttested(s: State, e: Event)
    requires Inv(s) && Enabled(s, e) && AllAttested(s.db)
    ensures AllAttested(After(s, e).db)
  {
    if e.Run? {
      var pc := s.callers[e.caller];
      assert CallerOk(s, pc);
      if Reads(pc) { ReadsWriteNothing(s.db, pc, e.draw); }
    }
  }

  lemma {:induction false} RunKeepsAttested(h: History, i: nat)
    requires IsRun(h) && i < |h.states| && AllAttested(h.states[0].db)
    ensures AllAttested(h.states[i].db)
  {
    if i > 0 {
      RunKeepsAttested(h, i - 1);
      RunKeepsInv(h, i - 1);
      assert Follows(h, i - 1);
      StepKeepsAttested(h.states[i - 1], h.events[i - 1]);
    }
  }

  /** In any run no identity is ever stored with an address that was not verified, or in a form that the
      services do not compare by. */
  lemma OnlyVerifiedAddresses(h: History, i: nat, x: string)
    requires IsRun(h) && i < |h.states| && AllAttested(h.states[0].db)
    requires x in h.states[i].db.identities && h.states[i].db.identities[x].email.Some?
    ensures var row := h.states[i].db.identities[x]; row.emailVerified && EmailAddress.IsUsableAddress(row.email.value)
  {
    RunKeepsAttested(h, i);
  }

  // ---- a link, left alone ----

  /** An identity of the kind and subject, or of the kind and verified address where there is no subject. */
  ghost predicate Held(db: Db, v: Assertion, i: string) {
    && i in db.identities && db.identities[i].kind == v.kind
    && if v.subject.Some? then db.identities[i].subject == v.subject
       else v.email.Some? && db.identities[i].email == v.email && db.identities[i].emailVerified
  }

  ghost predicate Fit(v: Assertion) {
    && (v.subject.Some? || v.email.Some?)
    && (v.email.Some? ==> v.verified && EmailAddress.IsUsableAddress(v.email.value))
    && v.subject != Some("")
  }

  /** The table takes the new identity if nobody answers to the proof. */
  predicate Storable(db: Db, v: Assertion, id: string) {
    id !in db.identities && (v.email.Some? ==> EmailAddress.DomainIsFolded(v.email.value))
  }

  /** The identity a link or a first sign-in stores; everything else is as it was. */
  ghost predicate Stored(db: Db, db': Db, v: Assertion, user: string, session: string, d: Draw) {
    && d.id in db'.identities
    && (var row := db'.identities[d.id];
        && row.id == d.id && row.owner == user && row.kind == v.kind && row.subject == v.subject && row.email == v.email
        && row.emailVerified == v.verified && row.linkedAt == d.now && row.linkedVia == Some(session)
        && row.lastUsedAt == None)
    && db'.identities.Keys == db.identities.Keys + {d.id}
    && forall i | i in db.identities && i != d.id :: db'.identities[i] == db.identities[i]
  }

  lemma HeldIsFound(db: Db, v: Assertion, i: string)
    requires OneAnswer(db, v) && Held(db, v, i)
    ensures FindIdentity(db, v) == Some(db.identities[i])
  {
    assert Matches(db.identities[i], v);
  }

  lemma NobodyIsFound(db: Db, v: Assertion)
    requires forall i :: !Held(db, v, i)
    ensures FindIdentity(db, v).None?
  {
    forall i | i in db.identities ensures !Matches(db.identities[i], v) { assert !Held(db, v, i); }
  }

  lemma StorableIsStored(db: Db, v: Assertion, agent: Agent, d: Draw)
    requires Fit(v) && agent.user in db.users && forall i :: !Held(db, v, i)
    ensures AdmitsIdentity(db, NewRow(v, agent, d)) <==> Storable(db, v, d.id)
    ensures Storable(db, v, d.id) ==>
              var db' := db.(identities := db.identities[d.id := NewRow(v, agent, d)]);
              InsertIdentity(db, NewRow(v, agent, d)) == Some(db') && Stored(db, db', v, agent.user, agent.session, d)
  {
    forall i | i in db.identities && KeyOf(NewRow(v, agent, d)).Some?
      ensures KeyOf(db.identities[i]) != KeyOf(NewRow(v, agent, d))
    {
      assert !Held(db, v, i);
    }
  }

  /** When a link resolves, exactly, and to what: for a usable proof and an open account, to the identity
      the account has already, or to a new one if nobody has it and the table takes it. Whatever else it
      answers it has changed nothing. */
  lemma AttachExactly(db: Db, v: Assertion, user: string, session: string, d: Draw)
    requires OneAnswer(db, v) && forall i | i in db.identities :: db.identities[i].id == i
    ensures var (db', pc) := Attaching(db, StartAttach(v, Agent(user, session, false)), d);
      && pc.Done? && pc.v == v
      && (pc.result.Resolved?
          <==> Fit(v) && Open(db, user)
               && ((exists i :: Held(db, v, i) && db.identities[i].owner == user)
                   || ((forall i :: !Held(db, v, i)) && Storable(db, v, d.id))))
      && (pc.result.Resolved? ==>
            pc.result.owner == user && db'.users == db.users && db'.sessions == db.sessions
            && (if Held(db, v, pc.result.identity) then db' == db
                else pc.result.identity == d.id && Stored(db, db', v, user, session, d)))
      && (!pc.result.Resolved? ==> db' == db)
      && (pc.result == Refused(InvalidArgument) <==> !Fit(v))
      && (pc.result == Refused(AccountDeleted) <==> Fit(v) && ClosedIn(db, user))
      && (pc.result == Refused(NotFound) <==> Fit(v) && user !in db.users)
  {
    var agent := Agent(user, session, false);
    assert Fit(v) <==> Usable(v);
    if !Fit(v) {
    } else if !Open(db, user) {
      GateRefuses(db, v, agent, d);
    } else {
      AttachFrom(db, v, agent, d);
      if i :| Held(db, v, i) {
        HeldIsFound(db, v, i);
        OnlyAnswer(db, v, i);
      } else {
        NobodyIsFound(db, v);
        StorableIsStored(db, v, agent, d);
      }
    }
  }

  lemma OnlyAnswer(db: Db, v: Assertion, i: string)
    requires OneAnswer(db, v) && Held(db, v, i)
    ensures forall j :: Held(db, v, j) ==> j == i
  {
    forall j | Held(db, v, j) ensures j == i { assert Matches(db.identities[j], v) && Matches(db.identities[i], v); }
  }

  lemma GateRefuses(db: Db, v: Assertion, agent: Agent, d: Draw)
    requires !agent.boot && !Open(db, agent.user)
    ensures Attaching(db, AttachUser(v, agent), d)
         == (db, Done(v, Refused(if agent.user in db.users then AccountDeleted else NotFound)))
  {
    var (db', pc) := Advance(db, AttachUser(v, agent), d);
    assert Remaining(pc) == 0 && Attaching(db', pc, d) == (db', pc);
  }

  // ---- a first sign-in, left alone ----

  /** One step for each draw. */
  ghost function Running(db: Db, pc: Pc, ds: seq<Draw>): (Db, Pc)
    decreases |ds|
  {
    if ds == [] then (db, pc)
    else var (db', pc') := Advance(db, pc, ds[0]); Running(db', pc', ds[1..])
  }

  lemma RunningOn(db: Db, pc: Pc, ds: seq<Draw>, i: nat)
    requires i < |ds|
    ensures Running(db, pc, ds[i..]) == Running(Advance(db, pc, ds[i]).0, Advance(db, pc, ds[i]).1, ds[i + 1..])
  {
    assert ds[i..][1..] == ds[i + 1..];
  }

  lemma {:induction false} EndedStays(db: Db, pc: Pc, ds: seq<Draw>)
    requires pc.Done?
    ensures Running(db, pc, ds) == (db, pc)
  {
    if ds != [] { EndedStays(db, pc, ds[1..]); }
  }

  /** The account, open and new, and its bootstrap session. */
  ghost predicate Made(db: Db, db': Db, ds: seq<Draw>)
    requires |ds| == 10
  {
    && db'.users == db.users[ds[1].id := UserRow(ds[1].id, ds[1].now, Active, None)]
    && db'.sessions.Keys == db.sessions.Keys + {ds[3].id}
    && (forall x | x in db.sessions :: db'.sessions[x] == db.sessions[x])
    && var row := db'.sessions[ds[3].id];
       row.id == ds[3].id && row.owner == ds[1].id && row.identity == None && row.digest == ds[3].digest
       && row.expiresAt == ds[3].now + 30 * 24 * 60 * 60 * 1000
  }

  /** The names drawn for the account, the session and the identity are new. */
  ghost predicate NewNames(db: Db, ds: seq<Draw>)
    requires |ds| == 10
  {
    && ds[1].id !in db.users && ds[3].id !in db.sessions && ds[8].id !in db.identities
    && forall x | x in db.sessions :: db.sessions[x].digest != ds[3].digest && db.sessions[x].id != ds[3].id
  }

  /** From the start to the check of the bootstrap session. */
  lemma Bootstraps(db: Db, v: Assertion, ds: seq<Draw>) returns (db4: Db)
    requires |ds| == 10 && NewNames(db, ds) && forall i :: !Held(db, v, i)
    ensures Running(db, Find(v), ds) == Running(db4, BootSession(v, Agent(ds[1].id, ds[3].id, true)), ds[4..])
    ensures Made(db, db4, ds) && db4.identities == db.identities
    ensures db4.sessions[ds[3].id].revokedAt.None?
  {
    NobodyIsFound(db, v);
    assert ds[0..] == ds;
    RunningOn(db, Find(v), ds, 0);
    RunningOn(db, MakeUser(v), ds, 1);
    var db2 := db.(users := db.users[ds[1].id := UserRow(ds[1].id, ds[1].now, Active, None)]);
    RunningOn(db2, BootRead(v, ds[1].id), ds, 2);
    RunningOn(db2, BootInsert(v, ds[1].id), ds, 3);
    db4 := Advance(db2, BootInsert(v, ds[1].id), ds[3]).0;
    assert AdmitsSession(db2, BootRow(ds[1].id, ds[3]));
  }

  /** The end: the session is revoked. */
  lemma RevokesItsOwn(db: Db, v: Assertion, agent: Agent, result: Outcome, ds: seq<Draw>, i: nat) returns (db': Db)
    requires i < |ds| && agent.session in db.sessions && db.sessions[agent.session].id == agent.session
    requires forall x | x in db.sessions && x != agent.session :: db.sessions[x].id != agent.session
    ensures Running(db, BootRevoke(v, agent, result), ds[i..]) == (db', Done(v, result))
    ensures db'.users == db.users && db'.identities == db.identities && db'.sessions.Keys == db.sessions.Keys
    ensures forall x | x in db.sessions && x != agent.session :: db'.sessions[x] == db.sessions[x]
    ensures db'.sessions[agent.session].revokedAt.Some?
    ensures var a, b := db.sessions[agent.session], db'.sessions[agent.session];
      b == a.(revokedAt := b.revokedAt, revokedReason := b.revokedReason)
  {
    RunningOn(db, BootRevoke(v, agent, result), ds, i);
    db' := Advance(db, BootRevoke(v, agent, result), ds[i]).0;
    EndedStays(db', Done(v, result), ds[i + 1..]);
  }

  /** The three steps of the attach itself. */
  lemma AttachSteps(db: Db, v: Assertion, agent: Agent, ds: seq<Draw>) returns (db': Db, result: Outcome)
    requires |ds| == 10 && (forall i :: !Held(db, v, i)) && Fit(v) && Open(db, agent.user) && agent.boot
    ensures Running(db, AttachUser(v, agent), ds[6..]) == Running(db', BootRevoke(v, agent, result), ds[9..])
    ensures db'.users == db.users && db'.sessions == db.sessions
    ensures if Storable(db, v, ds[8].id) then
              result == Resolved(agent.user, ds[8].id) && Stored(db, db', v, agent.user, agent.session, ds[8])
            else result == Refused(InUse) && db'.identities == db.identities
  {
    NobodyIsFound(db, v);
    StorableIsStored(db, v, agent, ds[8]);
    RunningOn(db, AttachUser(v, agent), ds, 6);
    RunningOn(db, AttachFind(v, agent), ds, 7);
    RunningOn(db, AttachInsert(v, agent), ds, 8);
    db' := Advance(db, AttachInsert(v, agent), ds[8]).0;
    result := if Storable(db, v, ds[8].id) then Resolved(agent.user, ds[8].id) else Refused(InUse);
  }

  /** From the attach to the end. */
  lemma AttachesAtLast(db: Db, db4: Db, v: Assertion, ds: seq<Draw>) returns (db': Db, result: Outcome)
    requires |ds| == 10 && NewNames(db, ds) && (forall i :: !Held(db, v, i)) && Fit(v)
    requires Made(db, db4, ds) && db4.identities == db.identities
    ensures Running(db4, AttachUser(v, Agent(ds[1].id, ds[3].id, true)), ds[6..]) == (db', Done(v, result))
    ensures Made(db, db', ds) && db'.sessions[ds[3].id].revokedAt.Some?
    ensures result.Resolved? <==> Storable(db, v, ds[8].id)
    ensures result.Resolved? ==> result == Resolved(ds[1].id, ds[8].id) && Stored(db, db', v, ds[1].id, ds[3].id, ds[8])
    ensures !result.Resolved? ==> result == Refused(InUse) && db'.identities == db.identities
  {
    var agent := Agent(ds[1].id, ds[3].id, true);
    forall i ensures !Held(db4, v, i) { assert !Held(db, v, i); }
    var db9, outcome := AttachSteps(db4, v, agent, ds);
    result := outcome;
    db' := RevokesItsOwn(db9, v, agent, result, ds, 9);
  }

  /** From the second half of the check of the bootstrap session to the end. */
  lemma PastTheSession(db: Db, db4: Db, v: Assertion, ds: seq<Draw>) returns (db': Db, result: Outcome)
    requires |ds| == 10 && NewNames(db, ds) && (forall i :: !Held(db, v, i))
    requires Made(db, db4, ds) && db4.identities == db.identities
    requires forall x | x in db.sessions :: db.sessions[x].id == x
    ensures Running(db4, BootUser(v, Agent(ds[1].id, ds[3].id, true)), ds[5..]) == (db', Done(v, result))
    ensures Made(db, db', ds) && db'.sessions[ds[3].id].revokedAt.Some?
    ensures result.Resolved? <==> Fit(v) && Storable(db, v, ds[8].id)
    ensures result.Resolved? ==> result == Resolved(ds[1].id, ds[8].id) && Stored(db, db', v, ds[1].id, ds[3].id, ds[8])
    ensures !result.Resolved? ==> db'.identities == db.identities
  {
    var agent := Agent(ds[1].id, ds[3].id, true);
    RunningOn(db4, BootUser(v, agent), ds, 5);
    if Fit(v) {
      db', result := AttachesAtLast(db, db4, v, ds);
    } else {
      result := Refused(InvalidArgument);
      db' := RevokesItsOwn(db4, v, agent, result, ds, 6);
    }
  }

  /** A first sign-in resolves exactly if its proof is usable, the bootstrap session has not expired and the
      table takes the identity; then to a new open account that has that identity and no session left.
      Whatever it answers, unless the clock was against it, its bootstrap session is revoked. */
  lemma FirstSignInExactly(db: Db, v: Assertion, ds: seq<Draw>)
    requires |ds| == 10 && NewNames(db, ds) && (forall i :: !Held(db, v, i))
    requires forall x | x in db.sessions :: db.sessions[x].id == x
    ensures var (db', pc) := Running(db, Find(v), ds);
      && pc.Done? && Made(db, db', ds)
      && (pc.result.Resolved?
          <==> Fit(v) && ds[4].now < ds[3].now + 30 * 24 * 60 * 60 * 1000 && Storable(db, v, ds[8].id))
      && (pc.result.Resolved? ==>
            pc.result == Resolved(ds[1].id, ds[8].id) && Stored(db, db', v, ds[1].id, ds[3].id, ds[8]))
      && (!pc.result.Resolved? ==> db'.identities == db.identities)
      && (ds[4].now < ds[3].now + 30 * 24 * 60 * 60 * 1000 ==> db'.sessions[ds[3].id].revokedAt.Some?)
  {
    var agent := Agent(ds[1].id, ds[3].id, true);
    var db4 := Bootstraps(db, v, ds);
    RunningOn(db4, BootSession(v, agent), ds, 4);
    if ds[4].now >= ds[3].now + 30 * 24 * 60 * 60 * 1000 {
      EndedStays(db4, Done(v, Unverified(ds[3].id)), ds[5..]);
    } else {
      var _, _ := PastTheSession(db, db4, v, ds);
    }
  }

  /** A returning sign-in: to the identity's owner, if the account is open. */
  lemma KnownSignInExactly(db: Db, v: Assertion, i: string, d0: Draw, d1: Draw)
    requires OneAnswer(db, v) && Held(db, v, i) && db.identities[i].id == i
    ensures var (db', pc) := Running(db, Find(v), [d0, d1]);
      && db' == db && pc.Done?
      && (pc.result.Resolved? <==> Open(db, db.identities[i].owner))
      && (pc.result.Resolved? ==> pc.result == Resolved(db.identities[i].owner, i))
      && (pc.result == Refused(AccountDeleted) <==> ClosedIn(db, db.identities[i].owner))
  {
    HeldIsFound(db, v, i);
    var ds := [d0, d1];
    assert ds[0..] == ds && ds[2..] == [];
    RunningOn(db, Find(v), ds, 0);
    RunningOn(db, ReadOwner(v, db.identities[i].owner, i), ds, 1);
  }
}
