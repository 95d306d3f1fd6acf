/** What becomes of bootstrap sessions when everything done to an account or a session is done through
    a session that has been handed out.

    A flow tells nobody the session it makes for itself, and a principal can only be had from a
    session; so until the flow is through nobody can act for its account. */
module BootstrapSecrecy {
  import opened Store
  import opened Identity
  import opened IdentitySafety
  import opened BootstrapFate

  // ---- calls that need a principal ----

  /** Somebody holds a session of the account: one that no flow made for itself. */
  ghost predicate Known(s: State, u: string) {
    exists x | x in s.db.sessions :: x !in s.boots && s.db.sessions[x].owner == u
  }

  ghost predicate KnownFamily(s: State, u: string, family: string) {
    exists x | x in s.db.sessions :: x !in s.boots && s.db.sessions[x].owner == u && s.db.sessions[x].family == family
  }

  /** A revocation names a session that was handed out, its family or its owner, or an identity. */
  ghost predicate Reaches(s: State, scope: Scope) {
    match scope
    case OneSession(id) => id !in s.boots
    case Family(f) => exists u :: KnownFamily(s, u, f)
    case User(u) => Known(s, u)
    case Identity(_) => true
  }

  /** Sessions are created for an identity of the account, in a family of their own, or in place of one
      that was handed out; closing an account and linking to it take a principal of it. */
  ghost predicate Disclosed(s: State, e: Event) {
    match e
    case Run(c, _) =>
      c in s.callers && (s.callers[c].AttachUser? && !s.callers[c].agent.boot ==> Known(s, s.callers[c].agent.user))
    case Begin(row) =>
      || (row.identity.Some? && row.identity.value in s.db.identities
          && s.db.identities[row.identity.value].owner == row.owner && row.family !in s.minted)
      || KnownFamily(s, row.owner, row.family)
    case Close(u, _) => Known(s, u)
    case Withdraw(scope, _, _) => Reaches(s, scope)
    case Unlink(_) => true
    case Touch(_, _) => true
  }

  // ---- what a flow keeps to itself ----

  /** Rows lead to accounts that are there. */
  ghost predicate Tied(s: State) { TiedIn(s.db, s.minted) }

  ghost predicate TiedIn(db: Db, minted: set<string>) {
    && (forall x | x in db.sessions :: db.sessions[x].owner in db.users && db.sessions[x].family in minted)
    && (forall i | i in db.identities :: db.identities[i].owner in db.users)
  }

  /** A bootstrap session is alone in its family and belongs to no identity. */
  ghost predicate Alone(db: Db, b: string) {
    && b in db.sessions && db.sessions[b].identity.None?
    && forall x | x in db.sessions && db.sessions[x].family == db.sessions[b].family :: x == b
  }

  /** The flow has made account `u` and has not verified its session yet, or has failed to. */
  ghost predicate Hidden(s: State, pc: Pc, u: string) { HiddenIn(s.db, pc, u) }

  ghost predicate HiddenIn(db: Db, pc: Pc, u: string) {
    match pc
    case BootRead(_, user) => user == u
    case BootInsert(_, user) => user == u
    case BootSession(_, agent) => agent.user == u
    case BootUser(_, agent) => agent.user == u
    case Done(_, Unverified(b)) => b in db.sessions && db.sessions[b].owner == u
    case _ => false
  }

  /** The caller acts for the account, past the check of its principal. */
  predicate ActsFor(pc: Pc, u: string) {
    match pc
    case BootRead(_, user) => user == u
    case BootInsert(_, user) => user == u
    case BootSession(_, agent) => agent.user == u
    case BootUser(_, agent) => agent.user == u
    case AttachUser(_, agent) => agent.boot && agent.user == u
    case AttachFind(_, agent) => agent.user == u
    case AttachInsert(_, agent) => agent.user == u
    case BootRevoke(_, agent, _) => agent.user == u
    case _ => false
  }

  /** The account is open, has no identity and no session but bootstrap ones, and nobody but its maker
      acts for it. */
  ghost predicate Secret(s: State, u: string, c: nat) {
    Bare(s.db, s.boots.Keys, u) && forall k | k in s.callers && ActsFor(s.callers[k], u) :: k == c
  }

  ghost predicate Bare(db: Db, boots: set<string>, u: string) {
    && u in db.users && db.users[u].state.Active?
    && (forall i | i in db.identities :: db.identities[i].owner != u)
    && (forall x | x in db.sessions && db.sessions[x].owner == u :: x in boots)
  }

  /** The session at hand is one of the account at hand. */
  ghost predicate OwnSession(db: Db, pc: Pc) {
    && (pc.BootSession? || pc.BootUser? ==>
          pc.agent.session in db.sessions && db.sessions[pc.agent.session].owner == pc.agent.user)
    && (pc.Done? && pc.result.Unverified? ==> pc.result.session in db.sessions)
  }

  ghost predicate Guarded(s: State) {
    && Tied(s)
    && (forall b | b in s.boots :: Alone(s.db, b))
    && (forall c | c in s.callers :: OwnSession(s.db, s.callers[c]))
    && (forall c, u | c in s.callers && Hidden(s, s.callers[c], u) :: Secret(s, u, c))
  }

  lemma SecretIsUnknown(s: State, u: string, c: nat)
    requires Secret(s, u, c)
    ensures !Known(s, u)
  {
  }

  lemma FamilyIsUnknown(s: State, u: string, b: string)
    requires b in s.boots && Alone(s.db, b)
    ensures !KnownFamily(s, u, s.db.sessions[b].family)
  {
  }

  // ---- a step keeps rows tied and bootstrap sessions alone ----

  lemma AdvanceKeepsTied(db: Db, minted: set<string>, pc: Pc, d: Draw)
    requires TiedIn(db, minted)
    ensures TiedIn(Advance(db, pc, d).0, minted + {d.id, d.family, d.digest})
  {
    if Reads(pc) {
      ReadsWriteNothing(db, pc, d);
    } else if pc.BootRevoke? {
    } else if pc.AttachInsert? {
    } else if pc.BootInsert? {
    }
  }

  lemma StepKeepsTied(s: State, e: Event)
    requires Inv(s) && Tied(s) && Enabled(s, e)
    ensures Tied(After(s, e))
  {
    if e.Run? { AdvanceKeepsTied(s.db, s.minted, s.callers[e.caller], e.draw); }
  }

  lemma BeginKeepsAlone(s: State, row: SessionRow, b: string)
    requires Inv(s) && Tied(s) && NewSession(s, row) && Disclosed(s, Begin(row)) && b in s.boots && Alone(s.db, b)
    ensures Alone(After(s, Begin(row)).db, b)
  {
    FamilyIsUnknown(s, row.owner, b);
  }

  lemma AdvanceKeepsAlone(db: Db, pc: Pc, d: Draw, b: string)
    requires Alone(db, b) && d.family != db.sessions[b].family
    ensures Alone(Advance(db, pc, d).0, b)
  {
    if Reads(pc) {
      ReadsWriteNothing(db, pc, d);
    } else if pc.BootRevoke? {
    } else if pc.AttachInsert? {
    } else if pc.BootInsert? {
    }
  }

  lemma NewIsAlone(s: State, c: nat, d: Draw, b: string)
    requires Inv(s) && Tied(s) && c in s.callers && FreshDraw(s, d)
    requires b !in s.boots && b in After(s, Run(c, d)).boots
    ensures Alone(After(s, Run(c, d)).db, b)
  {
  }

  lemma StepKeepsAlone(s: State, e: Event, b: string)
    requires Inv(s) && Tied(s) && Enabled(s, e) && Disclosed(s, e) && b in After(s, e).boots
    requires b in s.boots ==> Alone(s.db, b)
    ensures Alone(After(s, e).db, b)
  {
    match e {
      case Run(c, d) => if b in s.boots { AdvanceKeepsAlone(s.db, s.callers[c], d, b); } else { NewIsAlone(s, c, d, b); }
      case Begin(row) => BeginKeepsAlone(s, row, b);
      case _ =>
    }
  }

  // ---- a step keeps the account secret ----

  /** Nobody comes to act for an account but by making it or through a principal of it. */
  lemma StaysOut(db: Db, pc: Pc, d: Draw, u: string)
    requires !ActsFor(pc, u) && u != d.id && (pc.AttachUser? && !pc.agent.boot ==> pc.agent.user != u)
    ensures !ActsFor(Advance(db, pc, d).1, u)
  {
  }

  /** The sessions known as bootstrap ones after a step. */
  function BootsAfter(boots: set<string>, pc: Pc, pc': Pc, d: Draw): set<string> {
    if pc.BootInsert? && pc'.BootSession? then boots + {d.id} else boots
  }

  /** A step shows nothing of the account but what an attach for it would write. */
  lemma AdvanceKeepsBare(db: Db, boots: set<string>, pc: Pc, d: Draw, u: string)
    requires Bare(db, boots, u) && u != d.id && (pc.AttachInsert? ==> pc.agent.user != u)
    ensures Bare(Advance(db, pc, d).0, BootsAfter(boots, pc, Advance(db, pc, d).1, d), u)
  {
    if Reads(pc) {
      ReadsWriteNothing(db, pc, d);
    } else if pc.BootRevoke? {
    } else if pc.AttachInsert? {
    } else if pc.BootInsert? {
    }
  }

  /** A step in which whoever acted for the account before it is its maker still. */
  lemma RunKeepsSecret(s: State, c: nat, d: Draw, k: nat, u: string)
    requires c in s.callers && FreshDraw(s, d) && Secret(s, u, k) && u in s.minted
    requires s.callers[c].AttachInsert? ==> s.callers[c].agent.user != u
    requires c != k ==> !ActsFor(After(s, Run(c, d)).callers[c], u)
    ensures Secret(After(s, Run(c, d)), u, k)
  {
    var s' := After(s, Run(c, d));
    AdvanceKeepsBare(s.db, s.boots.Keys, s.callers[c], d, u);
    assert s'.boots.Keys == BootsAfter(s.boots.Keys, s.callers[c], s'.callers[c], d);
    forall j | j in s'.callers && ActsFor(s'.callers[j], u) ensures j == k { }
  }

  /** Another caller's step. */
  lemma OtherRunKeepsSecret(s: State, c: nat, d: Draw, k: nat, u: string)
    requires Inv(s) && Disclosed(s, Run(c, d)) && FreshDraw(s, d) && c != k && Secret(s, u, k)
    ensures Secret(After(s, Run(c, d)), u, k)
  {
    assert u in s.minted;
    SecretIsUnknown(s, u, k);
    DoesNotActFor(s, c, k, u);
    StaysOut(s.db, s.callers[c], d, u);
    RunKeepsSecret(s, c, d, k, u);
  }

  lemma DoesNotActFor(s: State, c: nat, k: nat, u: string)
    requires c in s.callers && c != k && Secret(s, u, k)
    ensures !ActsFor(s.callers[c], u)
  {
  }

  /** Where the flow hides an account after its own step it made it just now, or hid it before. */
  lemma WasHidden(db: Db, pc: Pc, d: Draw, u: string)
    requires !pc.MakeUser? && EndsWell(pc) && OwnSession(db, pc)
    requires HiddenIn(Advance(db, pc, d).0, Advance(db, pc, d).1, u)
    ensures HiddenIn(db, pc, u)
  {
    if Reads(pc) { ReadsWriteNothing(db, pc, d); }
  }

  lemma MadeIsSecret(s: State, c: nat, d: Draw)
    requires Inv(s) && Tied(s) && c in s.callers && FreshDraw(s, d) && s.callers[c].MakeUser?
    ensures Secret(After(s, Run(c, d)), d.id, c)
  {
    forall j | j in s.callers && j != c ensures !ActsFor(s.callers[j], d.id) { assert CallerOk(s, s.callers[j]); }
  }

  /** The flow's own step. */
  lemma OwnRunKeepsSecret(s: State, c: nat, d: Draw, u: string)
    requires Inv(s) && Owned(s) && Guarded(s) && c in s.callers && FreshDraw(s, d)
    requires Hidden(After(s, Run(c, d)), After(s, Run(c, d)).callers[c], u)
    ensures Secret(After(s, Run(c, d)), u, c)
  {
    var pc := s.callers[c];
    if pc.MakeUser? {
      MadeIsSecret(s, c, d);
    } else {
      assert OwnSession(s.db, pc);
      WasHidden(s.db, pc, d, u);
      assert Secret(s, u, c);
      RunKeepsSecret(s, c, d, c, u);
    }
  }

  // ---- sessions keep their owners ----

  ghost predicate OwnersStay(db: Db, db': Db) {
    forall x | x in db.sessions :: x in db'.sessions && db'.sessions[x].owner == db.sessions[x].owner
  }

  lemma AdvanceKeepsOwners(db: Db, pc: Pc, d: Draw)
    ensures OwnersStay(db, Advance(db, pc, d).0)
  {
    if Reads(pc) {
      ReadsWriteNothing(db, pc, d);
    } else if pc.BootRevoke? {
    } else if pc.AttachInsert? {
    } else if pc.BootInsert? {
    }
  }

  lemma StepKeepsOwners(s: State, e: Event)
    requires Enabled(s, e)
    ensures OwnersStay(s.db, After(s, e).db)
  {
    if e.Run? { AdvanceKeepsOwners(s.db, s.callers[e.caller], e.draw); }
  }

  lemma AdvanceKeepsOwnSession(db: Db, pc: Pc, d: Draw)
    requires OwnSession(db, pc) && EndsWell(pc)
    ensures OwnSession(Advance(db, pc, d).0, Advance(db, pc, d).1)
  {
    if Reads(pc) { ReadsWriteNothing(db, pc, d); }
  }

  lemma RestingKeepsOwnSession(db: Db, db': Db, pc: Pc)
    requires OwnSession(db, pc) && OwnersStay(db, db')
    ensures OwnSession(db', pc)
  {
  }

  lemma StepKeepsOwnSessions(s: State, e: Event, k: nat)
    requires Owned(s) && Enabled(s, e) && k in s.callers && OwnSession(s.db, s.callers[k])
    ensures OwnSession(After(s, e).db, After(s, e).callers[k])
  {
    if e.Run? && e.caller == k {
      assert EndsWell(s.callers[k]);
      AdvanceKeepsOwnSession(s.db, s.callers[k], e.draw);
    } else {
      StepKeepsOwners(s, e);
      RestingKeepsOwnSession(s.db, After(s, e).db, s.callers[k]);
    }
  }

  /** What a resting caller hides after somebody's step it hid before. */
  lemma StaysHidden(db: Db, db': Db, pc: Pc, u: string)
    requires OwnSession(db, pc) && OwnersStay(db, db') && HiddenIn(db', pc, u)
    ensures HiddenIn(db, pc, u)
  {
  }

  // ---- every step ----

  lemma RunKeepsSecrets(s: State, c: nat, d: Draw, k: nat, u: string)
    requires Inv(s) && Owned(s) && Guarded(s) && Disclosed(s, Run(c, d)) && FreshDraw(s, d) && k in s.callers
    requires Hidden(After(s, Run(c, d)), After(s, Run(c, d)).callers[k], u)
    ensures Secret(After(s, Run(c, d)), u, k)
  {
    if c == k {
      OwnRunKeepsSecret(s, c, d, u);
    } else {
      AdvanceKeepsOwners(s.db, s.callers[c], d);
      StaysHidden(s.db, After(s, Run(c, d)).db, s.callers[k], u);
      assert Secret(s, u, k);
      OtherRunKeepsSecret(s, c, d, k, u);
    }
  }

  /** An account with secrets is not closed, and gets no session, from outside. */
  lemma OtherStepKeepsBare(s: State, e: Event, u: string)
    requires Inv(s) && Enabled(s, e) && Disclosed(s, e) && !e.Run? && Bare(s.db, s.boots.Keys, u) && !Known(s, u)
    ensures Bare(After(s, e).db, s.boots.Keys, u)
  {
    match e {
      case Begin(row) => BeginKeepsBare(s, row, u);
      case Close(_, _) =>
      case Withdraw(_, _, _) =>
      case Unlink(_) =>
      case Touch(_, _) =>
    }
  }

  lemma BeginKeepsBare(s: State, row: SessionRow, u: string)
    requires NewSession(s, row) && Disclosed(s, Begin(row)) && Bare(s.db, s.boots.Keys, u) && !Known(s, u)
    ensures Bare(After(s, Begin(row)).db, s.boots.Keys, u)
  {
    FamilyGivesKnown(s, row.owner, row.family);
  }

  lemma FamilyGivesKnown(s: State, u: string, family: string)
    ensures KnownFamily(s, u, family) ==> Known(s, u)
  {
  }

  lemma OtherStepKeepsSecret(s: State, e: Event, k: nat, u: string)
    requires Inv(s) && Guarded(s) && Enabled(s, e) && Disclosed(s, e) && !e.Run? && k in s.callers
    requires Hidden(After(s, e), s.callers[k], u)
    ensures Secret(After(s, e), u, k)
  {
    StepKeepsOwners(s, e);
    StaysHidden(s.db, After(s, e).db, s.callers[k], u);
    assert Secret(s, u, k);
    SecretIsUnknown(s, u, k);
    OtherStepKeepsBare(s, e, u);
  }

  lemma StepKeepsSecrets(s: State, e: Event, k: nat, u: string)
    requires Inv(s) && Owned(s) && Guarded(s) && Enabled(s, e) && Disclosed(s, e) && k in s.callers
    requires Hidden(After(s, e), After(s, e).callers[k], u)
    ensures Secret(After(s, e), u, k)
  {
    if e.Run? {
      RunKeepsSecrets(s, e.caller, e.draw, k, u);
    } else {
      OtherStepKeepsSecret(s, e, k, u);
    }
  }

  lemma StepKeepsGuarded(s: State, e: Event)
    requires Inv(s) && Owned(s) && Guarded(s) && Enabled(s, e) && Disclosed(s, e)
    ensures Guarded(After(s, e))
  {
    var s' := After(s, e);
    StepKeepsTied(s, e);
    forall b | b in s'.boots ensures Alone(s'.db, b) { StepKeepsAlone(s, e, b); }
    forall c | c in s'.callers ensures OwnSession(s'.db, s'.callers[c]) { StepKeepsOwnSessions(s, e, c); }
    forall c, u | c in s'.callers && Hidden(s', s'.callers[c], u) ensures Secret(s', u, c) {
      StepKeepsSecrets(s, e, c, u);
    }
  }

  // ---- what follows for the check of a bootstrap session ----

  /** The flow is about to read its session after that has expired. */
  ghost predicate MeetsTheClock(s: State, e: Event, b: string) {
    && e.Run? && e.caller in s.callers
    && s.callers[e.caller].BootSession? && s.callers[e.caller].agent.session == b
    && b in s.db.sessions && e.draw.now >= s.db.sessions[b].expiresAt
  }

  /** Its account cannot have been closed. */
  lemma RefusedByTheClock(s: State, e: Event, b: string)
    requires Guarded(s)
    ensures Refuses(s, e, b) <==> MeetsTheClock(s, e, b)
  {
    if e.Run? && e.caller in s.callers && s.callers[e.caller].BootUser? {
      var u := s.callers[e.caller].agent.user;
      assert Hidden(s, s.callers[e.caller], u);
      assert Secret(s, u, e.caller);
    }
  }

  /** The flow is past its check. */
  predicate PastCheck(pc: Pc, b: string) {
    && !((pc.BootSession? || pc.BootUser?) && pc.agent.session == b)
    && !(pc.Done? && pc.result == Unverified(b))
  }

  /** Until then no call from outside can revoke the session. */
  lemma OutOfReach(s: State, e: Event, b: string)
    requires Inv(s) && Guarded(s) && Disclosed(s, e) && b in s.boots && s.boots[b] in s.callers
    requires !PastCheck(s.callers[s.boots[b]], b)
    ensures !Covers(s, e, b)
  {
    var c := s.boots[b];
    var pc := s.callers[c];
    assert OwnSession(s.db, pc) && Alone(s.db, b) && s.db.sessions[b].id == b;
    var u := s.db.sessions[b].owner;
    assert Hidden(s, pc, u);
    SecretIsUnknown(s, u, c);
    if e.Withdraw? { ScopeMisses(s, e.scope, b, u); }
  }

  lemma ScopeMisses(s: State, scope: Scope, b: string, u: string)
    requires b in s.boots && Alone(s.db, b) && s.db.sessions[b].id == b && s.db.sessions[b].owner == u
    requires !Known(s, u) && Reaches(s, scope)
    ensures !Selects(scope, s.db.sessions[b])
  {
    forall v ensures !KnownFamily(s, v, s.db.sessions[b].family) { FamilyIsUnknown(s, v, b); }
  }

  lemma StaysPast(db: Db, pc: Pc, d: Draw, b: string)
    requires PastCheck(pc, b) && EndsWell(pc) && b != d.id
    ensures PastCheck(Advance(db, pc, d).1, b)
  {
  }

  // ---- over runs ----

  ghost predicate AllDisclosed(h: History) {
    |h.states| == |h.events| + 1 && forall i | 0 <= i < |h.events| :: Disclosed(h.states[i], h.events[i])
  }

  lemma StartsGuarded(s: State)
    requires Initial(s) && Tied(s)
    ensures Guarded(s)
  {
  }

  lemma {:induction false} RunKeepsGuarded(h: History, i: nat)
    requires IsRun(h) && AllDisclosed(h) && Tied(h.states[0]) && i < |h.states|
    ensures Guarded(h.states[i])
  {
    if i == 0 {
      StartsGuarded(h.states[0]);
    } else {
      RunKeepsGuarded(h, i - 1);
      RunKeepsOwnedAt(h, i - 1);
      assert Follows(h, i - 1);
      StepKeepsGuarded(h.states[i - 1], h.events[i - 1]);
    }
  }

  /** The flow of a session that a call from outside covers is past its check, and stays so. */
  lemma CoveredStepIsPast(s: State, e: Event, b: string, covered: bool)
    requires Inv(s) && Owned(s) && Guarded(s) && Enabled(s, e) && Disclosed(s, e)
    requires b in s.boots && s.boots[b] in s.callers && (covered ==> PastCheck(s.callers[s.boots[b]], b))
    ensures covered || Covers(s, e, b) ==>
              After(s, e).boots[b] == s.boots[b] && PastCheck(After(s, e).callers[s.boots[b]], b)
  {
    if PastCheck(s.callers[s.boots[b]], b) {
      StepStaysPast(s, e, b);
    } else {
      OutOfReach(s, e, b);
    }
  }

  ghost predicate MakerIsPast(s: State, b: string) {
    b in s.boots && s.boots[b] in s.callers && PastCheck(s.callers[s.boots[b]], b)
  }

  lemma BootsStay(s: State, e: Event, b: string)
    requires Inv(s) && Enabled(s, e) && b in s.boots
    ensures s.boots[b] in s.callers && b in After(s, e).boots && After(s, e).boots[b] == s.boots[b]
    ensures s.boots[b] in After(s, e).callers
  {
    assert BootOk(s, b, s.boots[b]);
  }

  lemma {:induction false} CoveredIsPast(h: History, i: nat, b: string)
    requires IsRun(h) && AllDisclosed(h) && Tied(h.states[0]) && i < |h.states| && b in h.states[i].boots
    ensures CoveredBefore(h, i, b) ==> MakerIsPast(h.states[i], b)
  {
    if i > 0 {
      if b in h.states[i - 1].boots {
        CoveredIsPast(h, i - 1, b);
        LaterIsPast(h, i - 1, b);
      } else {
        NewIsUncovered(h, i, b);
      }
    }
  }

  lemma LaterIsPast(h: History, i: nat, b: string)
    requires IsRun(h) && AllDisclosed(h) && Tied(h.states[0]) && i < |h.events| && b in h.states[i].boots
    requires CoveredBefore(h, i, b) ==> MakerIsPast(h.states[i], b)
    ensures CoveredBefore(h, i + 1, b) ==> MakerIsPast(h.states[i + 1], b)
  {
    RunKeepsOwnedAt(h, i);
    RunKeepsGuarded(h, i);
    assert Follows(h, i);
    OneMore(h, i, b);
    BootsStay(h.states[i], h.events[i], b);
    CoveredStepIsPast(h.states[i], h.events[i], b, CoveredBefore(h, i, b));
  }

  lemma StepStaysPast(s: State, e: Event, b: string)
    requires Inv(s) && Owned(s) && Enabled(s, e) && b in s.boots && s.boots[b] in s.callers
    requires PastCheck(s.callers[s.boots[b]], b)
    ensures After(s, e).boots[b] == s.boots[b] && PastCheck(After(s, e).callers[s.boots[b]], b)
  {
    if e.Run? && e.caller == s.boots[b] {
      assert EndsWell(s.callers[e.caller]);
      assert BootOk(s, b, s.boots[b]);
      StaysPast(s.db, s.callers[e.caller], e.draw, b);
    }
  }

  lemma NewIsUncovered(h: History, i: nat, b: string)
    requires IsRun(h) && 0 < i < |h.states| && b in h.states[i].boots && b !in h.states[i - 1].boots
    ensures !CoveredBefore(h, i, b)
  {
    RunKeepsInv(h, i - 1);
    assert Follows(h, i - 1);
    NewFate(h.states[i - 1], h.events[i - 1], b);
    UndecidedBefore(h, i - 1, b);
    OneMore(h, i - 1, b);
  }

  lemma ClockBefore(h: History, i: nat, b: string)
    requires IsRun(h) && AllDisclosed(h) && Tied(h.states[0]) && i < |h.states|
    ensures RefusedBefore(h, i, b) <==> exists k | 0 <= k < i :: MeetsTheClock(h.states[k], h.events[k], b)
  {
    forall k | 0 <= k < i ensures Refuses(h.states[k], h.events[k], b) <==> MeetsTheClock(h.states[k], h.events[k], b) {
      RunKeepsGuarded(h, k);
      RefusedByTheClock(h.states[k], h.events[k], b);
    }
  }

  /** When closings, links, revocations and further sessions all come by way of sessions that have been
      handed out, then in a quiet state a bootstrap session is unrevoked exactly when its own check met
      the clock. */
  lemma OnlyTheClock(h: History, i: nat, b: string)
    requires IsRun(h) && AllDisclosed(h) && Tied(h.states[0])
    requires i < |h.states| && Quiet(h.states[i]) && b in h.states[i].boots
    ensures b in h.states[i].db.sessions
    ensures h.states[i].db.sessions[b].revokedAt.None?
        <==> exists k | 0 <= k < i :: MeetsTheClock(h.states[k], h.events[k], b)
  {
    SurvivesExactly(h, i, b);
    ClockBefore(h, i, b);
    FateAt(h, i, b);
    CoveredIsPast(h, i, b);
  }
}
