/** Which bootstrap sessions survive the flow that made them, over every interleaving. */
module BootstrapFate {
  import opened Store
  import opened Identity
  import opened IdentitySafety
  import EmailAddress

  ghost predicate Quiet(s: State) { forall c | c in s.callers :: s.callers[c].Done? }

  // ---- what decides ----

  /** The flow that made session `b` is about to verify it, and will be refused by the clock or
      because the account has been closed. */
  ghost predicate Refuses(s: State, e: Event, b: string) {
    && e.Run? && e.caller in s.callers
    && var pc := s.callers[e.caller];
       || (pc.BootSession? && pc.agent.session == b && b in s.db.sessions && e.draw.now >= s.db.sessions[b].expiresAt)
       || (pc.BootUser? && pc.agent.session == b
           && pc.agent.user in s.db.users && s.db.users[pc.agent.user].state.Deleted?)
  }

  /** Somebody else's revocation selects it: a sign-out, sign-out everywhere, a closing. */
  ghost predicate Covers(s: State, e: Event, b: string) {
    e.Withdraw? && b in s.db.sessions && Selects(e.scope, s.db.sessions[b])
  }

  ghost predicate RefusedBefore(h: History, i: nat, b: string)
    requires i <= |h.events| && |h.states| == |h.events| + 1
  {
    exists k | 0 <= k < i :: Refuses(h.states[k], h.events[k], b)
  }

  ghost predicate CoveredBefore(h: History, i: nat, b: string)
    requires i <= |h.events| && |h.states| == |h.events| + 1
  {
    exists k | 0 <= k < i :: Covers(h.states[k], h.events[k], b)
  }

  // ---- who has a bootstrap session in hand ----

  ghost predicate MadeBy(s: State, b: string, k: nat) { b in s.boots && s.boots[b] == k }

  /** The caller that made it, and no other. */
  ghost predicate InMakersHand(s: State) {
    forall k, b | k in s.callers && Carries(s.callers[k], b) :: MadeBy(s, b, k)
  }

  predicate EndsWell(pc: Pc) { pc.BootRevoke? ==> !pc.result.Unverified? }

  /** And no flow ends in `Unverified` after its own revocation. */
  ghost predicate Owned(s: State) { InMakersHand(s) && forall k | k in s.callers :: EndsWell(s.callers[k]) }

  lemma CarriedIsThere(s: State, k: nat, b: string)
    requires Inv(s) && k in s.callers && Carries(s.callers[k], b)
    ensures b in s.db.sessions && b in s.minted && s.db.sessions[b].id == b
  {
    assert CallerOk(s, s.callers[k]);
  }

  lemma AdvanceCarries(db: Db, pc: Pc, d: Draw, b: string)
    requires Carries(Advance(db, pc, d).1, b) && !pc.BootInsert?
    ensures Carries(pc, b)
  {
  }

  lemma BootInsertCarries(db: Db, pc: Pc, d: Draw, b: string)
    requires pc.BootInsert? && Carries(Advance(db, pc, d).1, b)
    ensures b == d.id && Advance(db, pc, d).1.BootSession?
  {
  }

  lemma AdvanceEnds(db: Db, pc: Pc, d: Draw)
    requires Advance(db, pc, d).1.BootRevoke? && !pc.BootRevoke?
    ensures !Advance(db, pc, d).1.result.Unverified?
  {
  }

  lemma CarriedAfterRun(s: State, c: nat, d: Draw, k: nat, b: string)
    requires Inv(s) && InMakersHand(s) && c in s.callers && FreshDraw(s, d)
    requires k in s.callers && Carries(After(s, Run(c, d)).callers[k], b)
    ensures MadeBy(After(s, Run(c, d)), b, k)
  {
    var pc := s.callers[c];
    if k == c && pc.BootInsert? {
      BootInsertCarries(s.db, pc, d, b);
    } else {
      if k == c { AdvanceCarries(s.db, pc, d, b); }
      CarriedIsThere(s, k, b);
    }
  }

  lemma RunKeepsHands(s: State, c: nat, d: Draw)
    requires Inv(s) && InMakersHand(s) && c in s.callers && FreshDraw(s, d)
    ensures InMakersHand(After(s, Run(c, d)))
  {
    var s' := After(s, Run(c, d));
    forall k, b | k in s'.callers && Carries(s'.callers[k], b) ensures MadeBy(s', b, k) {
      CarriedAfterRun(s, c, d, k, b);
    }
  }

  lemma RunKeepsOwned(s: State, c: nat, d: Draw)
    requires Inv(s) && Owned(s) && c in s.callers && FreshDraw(s, d)
    ensures Owned(After(s, Run(c, d)))
  {
    RunKeepsHands(s, c, d);
    RunEndsWell(s, c, d);
  }

  lemma RunEndsWell(s: State, c: nat, d: Draw)
    requires c in s.callers && FreshDraw(s, d) && forall k | k in s.callers :: EndsWell(s.callers[k])
    ensures var s' := After(s, Run(c, d)); forall k | k in s'.callers :: EndsWell(s'.callers[k])
  {
    if Advance(s.db, s.callers[c], d).1.BootRevoke? && !s.callers[c].BootRevoke? { AdvanceEnds(s.db, s.callers[c], d); }
  }

  lemma StepKeepsOwned(s: State, e: Event)
    requires Inv(s) && Owned(s) && Enabled(s, e)
    ensures Owned(After(s, e))
  {
    if e.Run? { RunKeepsOwned(s, e.caller, e.draw); }
  }

  // ---- the fate of one bootstrap session ----

  /** What is known of a bootstrap session once it is known whether its flow was refused and whether
      somebody else's revocation has covered it. */
  ghost predicate Fate(s: State, b: string, refused: bool, covered: bool) {
    && b in s.boots && s.boots[b] in s.callers && b in s.db.sessions
    && var pc, revoked := s.callers[s.boots[b]], s.db.sessions[b].revokedAt.Some?;
       && (!revoked ==> Carries(pc, b) || refused)
       && (revoked ==> covered || (pc.Done? && !pc.result.Unverified?))
       && (refused ==> pc.Done? && pc.result == Unverified(b))
       && (covered ==> revoked)
  }

  lemma OthersKeepRow(s: State, c: nat, d: Draw, b: string)
    requires Inv(s) && Owned(s) && c in s.callers && FreshDraw(s, d)
    requires b in s.boots && s.boots[b] != c && b in s.db.sessions
    ensures var db := Advance(s.db, s.callers[c], d).0; b in db.sessions && db.sessions[b] == s.db.sessions[b]
  {
    var pc := s.callers[c];
    if Reads(pc) {
      ReadsWriteNothing(s.db, pc, d);
    } else if pc.BootRevoke? {
      assert CallerOk(s, pc);
      assert Carries(pc, pc.agent.session);
    } else if pc.BootInsert? {
    } else if pc.AttachInsert? {
    }
  }

  lemma NotInOtherHands(s: State, c: nat, b: string)
    requires InMakersHand(s) && c in s.callers && b in s.boots && s.boots[b] != c
    ensures !Carries(s.callers[c], b)
  {
  }

  lemma OtherRunKeepsFate(s: State, c: nat, d: Draw, b: string, refused: bool, covered: bool)
    requires Inv(s) && Owned(s) && c in s.callers && FreshDraw(s, d)
    requires Fate(s, b, refused, covered) && s.boots[b] != c
    ensures Fate(After(s, Run(c, d)), b, refused, covered) && !Refuses(s, Run(c, d), b)
  {
    OthersKeepRow(s, c, d, b);
    assert s.db.sessions[b].id == b && b in s.minted;
    NotInOtherHands(s, c, b);
  }

  /** The flow's own step while it has the session in hand. */
  lemma OwnRunKeepsFate(s: State, c: nat, d: Draw, b: string, covered: bool)
    requires Inv(s) && Owned(s) && c in s.callers && FreshDraw(s, d)
    requires Fate(s, b, false, covered) && s.boots[b] == c && Carries(s.callers[c], b)
    ensures Fate(After(s, Run(c, d)), b, Refuses(s, Run(c, d), b), covered)
  {
    CarriedIsThere(s, c, b);
    HandsOn(s, c, d, b);
    var pc := s.callers[c];
    assert CallerOk(s, pc);
    if Reads(pc) {
      ReadsWriteNothing(s.db, pc, d);
      OwnReadEnds(s, pc, d, b);
    } else if pc.BootRevoke? {
    } else {
      assert pc.AttachInsert?;
    }
  }

  /** A read hands the session on, or gives it up for one of three reasons. */
  lemma OwnReadEnds(s: State, pc: Pc, d: Draw, b: string)
    requires Reads(pc) && Carries(pc, b) && CallerOk(s, pc) && b in s.db.sessions
    ensures var pc' := Advance(s.db, pc, d).1; var row := s.db.sessions[b];
      || (Carries(pc', b) && !(pc.BootSession? && d.now >= row.expiresAt)
          && !(pc.BootUser? && s.db.users[pc.agent.user].state.Deleted?))
      || (pc' == Done(pc.v, Unverified(b)) && pc.BootSession? && (row.revokedAt.Some? || d.now >= row.expiresAt))
      || (pc' == Done(pc.v, Unverified(b)) && pc.BootUser? && s.db.users[pc.agent.user].state.Deleted?)
  {
  }

  lemma RunKeepsFate(s: State, c: nat, d: Draw, b: string, refused: bool, covered: bool)
    requires Inv(s) && Owned(s) && c in s.callers && FreshDraw(s, d) && Fate(s, b, refused, covered)
    ensures Fate(After(s, Run(c, d)), b, refused || Refuses(s, Run(c, d), b), covered)
  {
    if s.boots[b] != c {
      OtherRunKeepsFate(s, c, d, b, refused, covered);
    } else if Carries(s.callers[c], b) {
      OwnRunKeepsFate(s, c, d, b, covered);
    } else {
      RestingRun(s, c, d, b, refused, covered);
    }
  }

  /** The flow no longer has it in hand: nothing happens to it any more by its own doing. */
  lemma RestingRun(s: State, c: nat, d: Draw, b: string, refused: bool, covered: bool)
    requires Inv(s) && Owned(s) && c in s.callers && FreshDraw(s, d) && Fate(s, b, refused, covered)
    requires s.boots[b] == c && !Carries(s.callers[c], b)
    ensures Fate(After(s, Run(c, d)), b, refused, covered) && !Refuses(s, Run(c, d), b)
  {
    AdvanceExtends(s, c, d);
    assert s.db.sessions[b].id == b && b in s.minted;
  }

  lemma OtherKeepsFate(s: State, e: Event, b: string, refused: bool, covered: bool)
    requires Inv(s) && Enabled(s, e) && !e.Run? && Fate(s, b, refused, covered)
    ensures Fate(After(s, e), b, refused, covered || Covers(s, e, b))
  {
  }

  lemma StepKeepsFate(s: State, e: Event, b: string, refused: bool, covered: bool)
    requires Inv(s) && Owned(s) && Enabled(s, e) && Fate(s, b, refused, covered)
    ensures Fate(After(s, e), b, refused || Refuses(s, e, b), covered || Covers(s, e, b))
  {
    if e.Run? {
      RunKeepsFate(s, e.caller, e.draw, b, refused, covered);
    } else {
      OtherKeepsFate(s, e, b, refused, covered);
    }
  }

  /** A bootstrap session just made is unrevoked and in its maker's hand. */
  lemma NewFate(s: State, e: Event, b: string)
    requires Inv(s) && Enabled(s, e) && b !in s.boots && b in After(s, e).boots
    ensures Fate(After(s, e), b, false, false) && b !in s.minted
  {
  }

  /** What has been decided about a session concerns one that has been drawn. */
  lemma DecidedIsMinted(s: State, e: Event, b: string)
    requires Inv(s) && Enabled(s, e) && (Refuses(s, e, b) || Covers(s, e, b))
    ensures b in s.minted
  {
    if Refuses(s, e, b) { CarriedIsThere(s, e.caller, b); }
  }

  // ---- over runs ----

  lemma OneMore(h: History, i: nat, b: string)
    requires i < |h.events| && |h.states| == |h.events| + 1
    ensures RefusedBefore(h, i + 1, b) <==> RefusedBefore(h, i, b) || Refuses(h.states[i], h.events[i], b)
    ensures CoveredBefore(h, i + 1, b) <==> CoveredBefore(h, i, b) || Covers(h.states[i], h.events[i], b)
  {
  }

  lemma {:induction false} RunKeepsOwnedAt(h: History, i: nat)
    requires IsRun(h) && i < |h.states|
    ensures Inv(h.states[i]) && Owned(h.states[i])
  {
    RunKeepsInv(h, i);
    if i > 0 {
      RunKeepsOwnedAt(h, i - 1);
      assert Follows(h, i - 1);
      StepKeepsOwned(h.states[i - 1], h.events[i - 1]);
    }
  }

  lemma UndecidedBefore(h: History, i: nat, b: string)
    requires IsRun(h) && i < |h.states| && b !in h.states[i].minted
    ensures !RefusedBefore(h, i, b) && !CoveredBefore(h, i, b)
  {
    forall k | 0 <= k < i ensures !Refuses(h.states[k], h.events[k], b) && !Covers(h.states[k], h.events[k], b) {
      RunKeepsInv(h, k);
      assert Follows(h, k);
      MintedStays(h, k, i);
      if Refuses(h.states[k], h.events[k], b) || Covers(h.states[k], h.events[k], b) {
        DecidedIsMinted(h.states[k], h.events[k], b);
      }
    }
  }

  lemma {:induction false} FateAt(h: History, i: nat, b: string)
    requires IsRun(h) && i < |h.states| && b in h.states[i].boots
    ensures Fate(h.states[i], b, RefusedBefore(h, i, b), CoveredBefore(h, i, b))
  {
    if i > 0 {
      var s, e := h.states[i - 1], h.events[i - 1];
      RunKeepsOwnedAt(h, i - 1);
      assert Follows(h, i - 1);
      OneMore(h, i - 1, b);
      if b in s.boots {
        FateAt(h, i - 1, b);
        StepKeepsFate(s, e, b, RefusedBefore(h, i - 1, b), CoveredBefore(h, i - 1, b));
      } else {
        NewFate(s, e, b);
        UndecidedBefore(h, i - 1, b);
        if Refuses(s, e, b) || Covers(s, e, b) { DecidedIsMinted(s, e, b); }
      }
    }
  }

  /** When every caller is through, a bootstrap session is still unrevoked exactly when its own flow
      was refused at the check, by the clock or on a closed account, and no revocation from outside
      ever covered it. */
  lemma SurvivesExactly(h: History, i: nat, b: string)
    requires IsRun(h) && i < |h.states| && Quiet(h.states[i]) && b in h.states[i].boots
    ensures b in h.states[i].db.sessions
    ensures h.states[i].db.sessions[b].revokedAt.None? <==> RefusedBefore(h, i, b) && !CoveredBefore(h, i, b)
  {
    FateAt(h, i, b);
  }
}
