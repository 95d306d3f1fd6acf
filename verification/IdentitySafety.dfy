/** Who owns an identity, over every interleaving of sign-ins and links. */
module IdentitySafety {
  import opened Store
  import opened Identity
  import EmailAddress

  // ---- a step keeps the tables in order ----

  lemma RevokeExtends(s: State, scope: Scope, at: int, reason: string)
    ensures Extends(s, Revoke(s.db, scope, at, reason))
  {
  }

  /** The steps that only read. */
  predicate Reads(pc: Pc) { !pc.MakeUser? && !pc.BootInsert? && !pc.AttachInsert? && !pc.BootRevoke? }

  lemma ReadsWriteNothing(db: Db, pc: Pc, d: Draw)
    requires Reads(pc)
    ensures Advance(db, pc, d).0 == db
  {
  }

  lemma AdvanceExtends(s: State, c: nat, d: Draw)
    requires c in s.callers && FreshDraw(s, d)
    ensures Extends(s, Advance(s.db, s.callers[c], d).0)
  {
    var pc := s.callers[c];
    if Reads(pc) {
      ReadsWriteNothing(s.db, pc, d);
    } else if pc.AttachInsert? {
    } else if pc.BootInsert? {
    } else if pc.BootRevoke? {
      RevokeExtends(s, OneSession(pc.agent.session), d.now, "bootstrap");
    }
  }

  lemma StepExtends(s: State, e: Event)
    requires Inv(s) && Enabled(s, e)
    ensures Extends(s, After(s, e).db) && s.minted <= After(s, e).minted
  {
    match e {
      case Run(c, d) => AdvanceExtends(s, c, d);
      case Begin(_) =>
      case Unlink(i) =>
      case Close(_, _) =>
      case Withdraw(scope, at, reason) => RevokeExtends(s, scope, at, reason);
      case Touch(_, _) =>
    }
  }

  lemma InsertKeepsRows(s: State, v: Assertion, agent: Agent, d: Draw, minted': set<string>)
    requires KeyedRows(s) && OneRowPerKey(s.db) && Proves(v) && FreshDraw(s, d)
    requires s.minted + {d.id} <= minted' && AdmitsIdentity(s.db, NewRow(v, agent, d))
    ensures var db := s.db.(identities := s.db.identities[d.id := NewRow(v, agent, d)]);
      KeyedRows(s.(db := db, minted := minted')) && OneRowPerKey(db)
  {
    NewRowHasKey(v, agent, d);
  }

  lemma RevokeKeepsRows(s: State, scope: Scope, at: int, reason: string, minted': set<string>)
    requires KeyedRows(s) && OneRowPerKey(s.db) && s.minted <= minted'
    ensures var db := Revoke(s.db, scope, at, reason);
      KeyedRows(s.(db := db, minted := minted')) && OneRowPerKey(db)
  {
  }

  lemma RunKeepsRows(s: State, c: nat, d: Draw)
    requires Inv(s) && c in s.callers && FreshDraw(s, d)
    ensures KeyedRows(After(s, Run(c, d))) && OneRowPerKey(After(s, Run(c, d)).db)
  {
    var pc := s.callers[c];
    var minted' := s.minted + {d.id, d.family, d.digest};
    assert CallerOk(s, pc);
    if Reads(pc) {
      ReadsWriteNothing(s.db, pc, d);
      MintKeepsRows(s, minted');
    } else if pc.AttachInsert? {
      if AdmitsIdentity(s.db, NewRow(pc.v, pc.agent, d)) {
        InsertKeepsRows(s, pc.v, pc.agent, d, minted');
      } else {
        MintKeepsRows(s, minted');
      }
    } else if pc.BootInsert? {
      BootInsertKeepsRows(s, pc.user, d, minted');
    } else if pc.BootRevoke? {
      RevokeKeepsRows(s, OneSession(pc.agent.session), d.now, "bootstrap", minted');
    } else {
      UserKeepsRows(s, d, minted');
    }
  }

  lemma MintKeepsRows(s: State, minted': set<string>)
    requires KeyedRows(s) && s.minted <= minted'
    ensures KeyedRows(s.(minted := minted'))
  {
  }

  lemma BootInsertKeepsRows(s: State, user: string, d: Draw, minted': set<string>)
    requires KeyedRows(s) && OneRowPerKey(s.db) && s.minted + {d.id, d.digest} <= minted'
    ensures var db := InsertSession(s.db, BootRow(user, d)); var db' := if db.Some? then db.value else s.db;
      KeyedRows(s.(db := db', minted := minted')) && OneRowPerKey(db')
  {
    if AdmitsSession(s.db, BootRow(user, d)) {
    } else {
      MintKeepsRows(s, minted');
    }
  }

  lemma BeginKeepsRows(s: State, row: SessionRow)
    requires KeyedRows(s) && OneRowPerKey(s.db) && NewSession(s, row)
    ensures var s' := After(s, Begin(row)); KeyedRows(s') && OneRowPerKey(s'.db)
  {
    if !AdmitsSession(s.db, row) { MintKeepsRows(s, s.minted + {row.id, row.family, row.digest}); }
  }

  lemma UserKeepsRows(s: State, d: Draw, minted': set<string>)
    requires KeyedRows(s) && OneRowPerKey(s.db) && s.minted + {d.id} <= minted'
    ensures var db := s.db.(users := s.db.users[d.id := UserRow(d.id, d.now, Active, None)]);
      KeyedRows(s.(db := db, minted := minted')) && OneRowPerKey(db)
  {
  }

  lemma StepKeepsRows(s: State, e: Event)
    requires Inv(s) && Enabled(s, e)
    ensures KeyedRows(After(s, e)) && OneRowPerKey(After(s, e).db)
  {
    match e {
      case Run(c, d) => RunKeepsRows(s, c, d);
      case Begin(row) => BeginKeepsRows(s, row);
      case Unlink(_) =>
      case Close(_, _) =>
      case Withdraw(scope, at, reason) => RevokeKeepsRows(s, scope, at, reason, s.minted);
      case Touch(_, _) =>
    }
  }

  // ---- a step keeps its caller in order ----

  lemma GateKeepsCaller(s: State, pc: Pc, d: Draw)
    requires CallerOk(s, pc) && Reads(pc) && !pc.Find? && !pc.AttachFind?
    ensures CallerOk(s, Advance(s.db, pc, d).1)
  {
  }

  lemma ReadKeepsCaller(s: State, pc: Pc, d: Draw)
    requires KeyedRows(s) && CallerOk(s, pc) && Reads(pc)
    ensures Advance(s.db, pc, d).0 == s.db && CallerOk(s, Advance(s.db, pc, d).1)
  {
    ReadsWriteNothing(s.db, pc, d);
    if !pc.Find? && !pc.AttachFind? { GateKeepsCaller(s, pc, d); }
  }

  lemma BootInsertSucceeds(s: State, user: string, d: Draw)
    requires KeyedRows(s) && user in s.db.users && FreshDraw(s, d)
    ensures AdmitsSession(s.db, BootRow(user, d))
  {
  }

  lemma WriteKeepsCaller(s: State, c: nat, d: Draw)
    requires Inv(s) && c in s.callers && FreshDraw(s, d) && !Reads(s.callers[c])
    ensures var s' := After(s, Run(c, d)); CallerOk(s', s'.callers[c])
  {
    var pc := s.callers[c];
    assert CallerOk(s, pc);
    match pc {
      case MakeUser(v) =>
      case BootInsert(v, user) => BootInsertSucceeds(s, user, d);
      case AttachInsert(v, agent) => NewRowHasKey(v, agent, d);
      case BootRevoke(v, agent, result) =>
    }
  }

  lemma RunKeepsCallers(s: State, c: nat, d: Draw)
    requires Inv(s) && c in s.callers && FreshDraw(s, d)
    ensures var s' := After(s, Run(c, d)); forall k | k in s'.callers :: CallerOk(s', s'.callers[k])
  {
    var s' := After(s, Run(c, d));
    AdvanceExtends(s, c, d);
    forall k | k in s'.callers ensures CallerOk(s', s'.callers[k]) {
      if k != c {
        ExtendKeepsCaller(s, s', s.callers[k]);
      } else if Reads(s.callers[c]) {
        ReadKeepsCaller(s, s.callers[c], d);
        ExtendKeepsCaller(s, s', s'.callers[c]);
      } else {
        WriteKeepsCaller(s, c, d);
      }
    }
  }

  // ---- bootstrap sessions and writes ----

  /** A caller that had a bootstrap session in hand still has it, gave up on it, or revoked it. */
  lemma HandsOn(s: State, c: nat, d: Draw, b: string)
    requires Inv(s) && c in s.callers && FreshDraw(s, d) && Carries(s.callers[c], b) && b in s.db.sessions
    ensures var (db, pc) := Advance(s.db, s.callers[c], d);
      && b in db.sessions
      && (db.sessions[b].revokedAt.Some? || Carries(pc, b) || (pc.Done? && pc.result == Unverified(b)))
  {
    assert CallerOk(s, s.callers[c]);
    assert s.db.sessions[b].id == b;
  }

  lemma RunKeepsBoots(s: State, c: nat, d: Draw)
    requires Inv(s) && c in s.callers && FreshDraw(s, d)
    ensures var s' := After(s, Run(c, d)); forall b | b in s'.boots :: BootOk(s', b, s'.boots[b])
  {
    var s' := After(s, Run(c, d));
    AdvanceExtends(s, c, d);
    forall b | b in s'.boots ensures BootOk(s', b, s'.boots[b]) {
      if b in s.boots && b != d.id {
        assert BootOk(s, b, s.boots[b]);
        if s.boots[b] != c {
        } else if Carries(s.callers[c], b) {
          HandsOn(s, c, d, b);
        }
      }
    }
  }

  lemma RunKeepsWrites(s: State, c: nat, d: Draw)
    requires Inv(s) && c in s.callers && FreshDraw(s, d)
    ensures var s' := After(s, Run(c, d));
      forall w | w in s'.wrote :: w.caller in s'.callers && EndsWith(s'.callers[w.caller], w.identity)
  {
    var s' := After(s, Run(c, d));
    assert CallerOk(s, s.callers[c]);
    forall w | w in s'.wrote ensures w.caller in s'.callers && EndsWith(s'.callers[w.caller], w.identity) {
      if w in s.wrote { assert EndsWith(s.callers[w.caller], w.identity); }
    }
  }

  lemma OtherStepKeepsInv(s: State, e: Event)
    requires Inv(s) && Enabled(s, e) && !e.Run?
    ensures Inv(After(s, e))
  {
    var s' := After(s, e);
    StepExtends(s, e);
    StepKeepsRows(s, e);
    forall k | k in s'.callers ensures CallerOk(s', s'.callers[k]) { ExtendKeepsCaller(s, s', s.callers[k]); }
    forall b | b in s'.boots ensures BootOk(s', b, s'.boots[b]) { }
  }

  lemma StepKeepsInv(s: State, e: Event)
    requires Inv(s) && Enabled(s, e)
    ensures Inv(After(s, e))
  {
    if e.Run? {
      RunKeepsRows(s, e.caller, e.draw);
      RunKeepsCallers(s, e.caller, e.draw);
      RunKeepsBoots(s, e.caller, e.draw);
      RunKeepsWrites(s, e.caller, e.draw);
    } else {
      OtherStepKeepsInv(s, e);
    }
  }

  // ---- runs ----

  datatype History = History(states: seq<State>, events: seq<Event>)

  ghost predicate Initial(s: State) {
    && KeyedRows(s) && OneRowPerKey(s.db) && s.boots == map[] && s.wrote == {}
    && (forall c | c in s.callers :: Entry(s.callers[c]))
  }

  ghost predicate IsRun(h: History) {
    |h.states| == |h.events| + 1 && Initial(h.states[0]) && forall i | 0 <= i < |h.events| :: Follows(h, i)
  }

  /** Event `i` leads from state `i` to the next. */
  ghost predicate Follows(h: History, i: nat)
    requires |h.states| == |h.events| + 1 && i < |h.events|
  {
    Enabled(h.states[i], h.events[i]) && h.states[i + 1] == After(h.states[i], h.events[i])
  }

  lemma {:induction false} RunKeepsInv(h: History, i: nat)
    requires IsRun(h) && i < |h.states|
    ensures Inv(h.states[i])
  {
    if i > 0 {
      RunKeepsInv(h, i - 1);
      assert Follows(h, i - 1);
      StepKeepsInv(h.states[i - 1], h.events[i - 1]);
    }
  }

  /** A subject, or a verified address of a method without subjects, has at most one owner. */
  lemma OneOwner(h: History, i: nat, a: string, b: string)
    requires IsRun(h) && i < |h.states|
    requires a in h.states[i].db.identities && b in h.states[i].db.identities
    requires KeyOf(h.states[i].db.identities[a]) == KeyOf(h.states[i].db.identities[b])
    ensures a == b && KeyOf(h.states[i].db.identities[a]).Some?
  {
    RunKeepsInv(h, i);
  }

  lemma {:induction false} MintedStays(h: History, i: nat, j: nat)
    requires IsRun(h) && i <= j < |h.states|
    ensures h.states[i].minted <= h.states[j].minted
  {
    if i < j {
      MintedStays(h, i, j - 1);
      RunKeepsInv(h, j - 1);
      assert Follows(h, j - 1);
      StepExtends(h.states[j - 1], h.events[j - 1]);
    }
  }

  /** A known identity that is there after a step was there before it, the same. */
  lemma StillThere(s: State, e: Event, id: string)
    requires Inv(s) && Enabled(s, e) && id in s.minted && id in After(s, e).db.identities
    ensures id in s.db.identities
    ensures var a, b := s.db.identities[id], After(s, e).db.identities[id]; b == a.(lastUsedAt := b.lastUsedAt)
  {
    StepExtends(s, e);
  }

  ghost predicate SameIdentity(a: Db, b: Db, id: string) {
    && id in a.identities && id in b.identities
    && b.identities[id] == a.identities[id].(lastUsedAt := b.identities[id].lastUsedAt)
  }

  lemma KnownAt(h: History, i: nat, j: nat, id: string)
    requires IsRun(h) && i <= j < |h.states| && id in h.states[i].db.identities
    ensures id in h.states[j].minted
  {
    RunKeepsInv(h, i);
    MintedStays(h, i, j);
  }

  lemma SameBefore(h: History, j: nat, id: string)
    requires IsRun(h) && j < |h.events| && id in h.states[j].minted && id in h.states[j + 1].db.identities
    ensures SameIdentity(h.states[j].db, h.states[j + 1].db, id)
  {
    RunKeepsInv(h, j);
    assert Follows(h, j);
    StillThere(h.states[j], h.events[j], id);
  }

  /** A row that is there at two moments has changed in its use stamp at most: an identity is never
      moved to another account, not even by removing it and linking it again. */
  lemma {:induction false} OwnerNeverChanges(h: History, i: nat, j: nat, id: string)
    requires IsRun(h) && i <= j < |h.states|
    requires id in h.states[i].db.identities && id in h.states[j].db.identities
    ensures SameIdentity(h.states[i].db, h.states[j].db, id)
  {
    if i < j {
      KnownAt(h, i, j - 1, id);
      SameBefore(h, j - 1, id);
      OwnerNeverChanges(h, i, j - 1, id);
    }
  }

  /** Two callers that proved control of the same thing and succeeded were told the same account and
      the same identity, as long as what they were told is still there. */
  lemma SignInsAgree(h: History, i: nat, c: nat, d: nat)
    requires IsRun(h) && i < |h.states| && c in h.states[i].callers && d in h.states[i].callers
    requires var p, q := h.states[i].callers[c], h.states[i].callers[d];
      && p.Done? && q.Done? && p.result.Resolved? && q.result.Resolved? && Proves(p.v) && Proves(q.v)
      && KeyFor(p.v) == KeyFor(q.v)
      && p.result.identity in h.states[i].db.identities && q.result.identity in h.states[i].db.identities
    ensures h.states[i].callers[c].result == h.states[i].callers[d].result
  {
    RunKeepsInv(h, i);
    assert CallerOk(h.states[i], h.states[i].callers[c]) && CallerOk(h.states[i], h.states[i].callers[d]);
  }

  /** A caller that is refused has written no identity; one that succeeded wrote at most the one it
      names. */
  lemma LosersWriteNothing(h: History, i: nat, c: nat, identity: string)
    requires IsRun(h) && i < |h.states| && c in h.states[i].callers && h.states[i].callers[c].Done?
    requires Write(c, identity) in h.states[i].wrote
    ensures h.states[i].callers[c].result.Resolved? && h.states[i].callers[c].result.identity == identity
  {
    RunKeepsInv(h, i);
  }

  /** In any reachable state an attach is refused at the write exactly when somebody holds the key
      by now, or when the address is a bare domain in capitals, which nobody holds. */
  lemma AttachRefusedExactly(h: History, i: nat, c: nat, d: Draw)
    requires IsRun(h) && i < |h.states| && c in h.states[i].callers && h.states[i].callers[c].AttachInsert?
    requires FreshDraw(h.states[i], d)
    ensures var s := h.states[i]; var pc := s.callers[c];
      && Proves(pc.v)
      && (Advance(s.db, pc, d).1 == Finish(pc.v, pc.agent, Refused(InUse))
          <==> (exists k :: k in s.db.identities && KeyOf(s.db.identities[k]) == Some(KeyFor(pc.v)))
               || (pc.v.email.Some? && BareCapitals(pc.v.email.value)))
  {
    var s := h.states[i];
    var pc := s.callers[c];
    RunKeepsInv(h, i);
    assert CallerOk(s, pc);
    NewRowHasKey(pc.v, pc.agent, d);
    if pc.v.email.Some? { EmailAddress.UsableMeetsTheCheckExactly(pc.v.email.value); }
    RefusedBy(s, pc.v, pc.agent, d);
  }

  predicate BareCapitals(a: string) { EmailAddress.LastAt(a) == 0 && a != EmailAddress.Lower(a) }

  lemma RefusedBy(s: State, v: Assertion, agent: Agent, d: Draw)
    requires KeyedRows(s) && Proves(v) && FreshDraw(s, d) && agent.user in s.db.users
    ensures AdmitsIdentity(s.db, NewRow(v, agent, d))
        <==> (forall k | k in s.db.identities :: KeyOf(s.db.identities[k]) != Some(KeyFor(v)))
             && (v.email.Some? ==> EmailAddress.DomainIsFolded(v.email.value))
  {
    NewRowHasKey(v, agent, d);
  }
}
