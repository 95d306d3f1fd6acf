/** What overlapping exchanges of one Google code can do, over every interleaving. */
module GoogleOverlap {
  import opened Store
  import opened Challenges
  import opened GoogleAuth

  /** The caller has found the challenge by its code and is not through with it. */
  predicate Under(pc: Pc, id: string) {
    (pc.ExchangeCount? || pc.ExchangeSession? || pc.ExchangeDelete?) && pc.row.id == id
  }

  predicate Through(pc: Pc, id: string) { pc.Done? && pc.outcome.SignedIn? && pc.outcome.challenge == id }

  // ---- who has signed in has removed the row ----

  predicate NamesItsRow(pc: Pc) {
    pc.ExchangeDelete? && pc.outcome.SignedIn? ==> pc.outcome.challenge == pc.row.id
  }

  ghost predicate RowIsGone(s: State, pc: Pc) {
    pc.Done? && pc.outcome.SignedIn? ==> pc.outcome.challenge in s.minted && pc.outcome.challenge !in s.rows
  }

  ghost predicate Cleared(s: State) {
    forall c | c in s.callers :: NamesItsRow(s.callers[c]) && RowIsGone(s, s.callers[c])
  }

  lemma OwnStepClears(s: State, c: nat, d: Draw)
    requires Inv(s) && Cleared(s) && Enabled(s, Run(c, d))
    ensures var s' := After(s, Run(c, d)); NamesItsRow(s'.callers[c]) && RowIsGone(s', s'.callers[c])
  {
    var pc := s.callers[c];
    assert CallerOk(s, pc) && NamesItsRow(pc) && RowIsGone(s, pc);
    if pc.ExchangeDelete? {
    } else if pc.Done? {
    } else {
      NoSignInYet(s.rows, pc, d);
    }
  }

  lemma NoSignInYet(rows: Rows, pc: Pc, d: Draw)
    requires !pc.ExchangeDelete? && !pc.Done?
    ensures var pc' := Advance(rows, pc, d).1; NamesItsRow(pc') && (pc'.Done? ==> !pc'.outcome.SignedIn?)
  {
  }

  lemma StepClears(s: State, e: Event)
    requires Inv(s) && Cleared(s) && Enabled(s, e)
    ensures Cleared(After(s, e))
  {
    var s' := After(s, e);
    StepMoves(s, e);
    forall c | c in s'.callers ensures NamesItsRow(s'.callers[c]) && RowIsGone(s', s'.callers[c]) {
      if e.Run? && e.caller == c {
        OwnStepClears(s, c, e.draw);
      } else {
        assert NamesItsRow(s.callers[c]) && RowIsGone(s, s.callers[c]);
      }
    }
  }

  // ---- who comes upon a challenge finds it there ----

  lemma EntersByFinding(rows: Rows, pc: Pc, d: Draw, id: string)
    requires Keyed(rows) && Under(Advance(rows, pc, d).1, id) && !Under(pc, id)
    ensures id in rows
  {
  }

  lemma EndsFromUnder(rows: Rows, pc: Pc, d: Draw, id: string)
    requires Through(Advance(rows, pc, d).1, id) && !Through(pc, id) && NamesItsRow(pc)
    ensures Under(pc, id)
  {
  }

  predicate Engaged(pc: Pc, id: string) { Under(pc, id) || Through(pc, id) }

  ghost predicate BothUnder(s: State, a: nat, b: nat, id: string) {
    a in s.callers && b in s.callers && Under(s.callers[a], id) && Under(s.callers[b], id)
  }

  /** In a step two callers come to be engaged with one challenge only by being under way together. */
  lemma StepEngages(s: State, e: Event, a: nat, b: nat, id: string)
    requires Inv(s) && Cleared(s) && Enabled(s, e) && a != b && a in s.callers && b in s.callers
    requires Engaged(After(s, e).callers[a], id) && Engaged(After(s, e).callers[b], id)
    ensures (Engaged(s.callers[a], id) && Engaged(s.callers[b], id)) || BothUnder(After(s, e), a, b, id)
  {
    if e.Run? && (e.caller == a || e.caller == b) {
      var c, other := e.caller, if e.caller == a then b else a;
      assert RowIsGone(s, s.callers[other]) && NamesItsRow(s.callers[c]);
      if !Engaged(s.callers[c], id) {
        if Through(After(s, e).callers[c], id) {
          EndsFromUnder(s.rows, s.callers[c], e.draw, id);
        } else {
          EntersByFinding(s.rows, s.callers[c], e.draw, id);
        }
      }
    }
  }

  // ---- runs ----

  lemma {:induction false} RunClears(h: History, i: nat)
    requires IsRun(h) && i < |h.states|
    ensures Inv(h.states[i]) && Cleared(h.states[i])
  {
    RunKeepsInv(h, i);
    if i > 0 {
      RunClears(h, i - 1);
      assert Follows(h, i - 1);
      StepClears(h.states[i - 1], h.events[i - 1]);
    }
  }

  lemma {:induction false} EngagedTogether(h: History, i: nat, a: nat, b: nat, id: string)
    requires IsRun(h) && i < |h.states| && a != b && a in h.states[i].callers && b in h.states[i].callers
    requires Engaged(h.states[i].callers[a], id) && Engaged(h.states[i].callers[b], id)
    ensures exists k | 0 <= k <= i :: BothUnder(h.states[k], a, b, id)
  {
    if i > 0 {
      RunClears(h, i - 1);
      assert Follows(h, i - 1);
      StepEngages(h.states[i - 1], h.events[i - 1], a, b, id);
      if !BothUnder(h.states[i], a, b, id) { EngagedTogether(h, i - 1, a, b, id); }
    }
  }

  /** Whatever else interleaves, two callers get a session from one challenge only if their exchanges
      overlapped: at some moment both had found it and neither was through. */
  lemma TwoSessionsMeanOverlap(h: History, i: nat, a: nat, b: nat, id: string)
    requires IsRun(h) && i < |h.states| && a != b && a in h.states[i].callers && b in h.states[i].callers
    requires Through(h.states[i].callers[a], id) && Through(h.states[i].callers[b], id)
    ensures exists k | 0 <= k <= i :: BothUnder(h.states[k], a, b, id)
  {
    EngagedTogether(h, i, a, b, id);
  }

  // ---- when an exchange ends with a session ----

  /** The step in which the caller counts its attempt and is let on: fewer than three were counted
      before, or the row is gone, which counts none. */
  ghost predicate LetOn(s: State, e: Event, a: nat, id: string) {
    && e.Run? && e.caller == a && a in s.callers
    && var pc := s.callers[a];
       && pc.ExchangeCount? && pc.row.id == id && pc.row.user.Some? && pc.row.identity.Some?
       && (id !in s.rows || s.rows[id].attempts < MAX_EXCHANGE_ATTEMPTS)
  }

  /** The step in which its session is created. */
  ghost predicate Accepts(s: State, e: Event, a: nat, id: string) {
    && e.Run? && e.caller == a && a in s.callers
    && s.callers[a].ExchangeSession? && s.callers[a].row.id == id && e.draw.accepted
  }

  /** Where a caller stands once it is known whether it was let on and accepted. */
  predicate Journey(pc: Pc, id: string, letOn: bool, accepted: bool) {
    && (pc.ExchangeSession? && pc.row.id == id ==> letOn)
    && (pc.ExchangeSession? ==> pc.row.user.Some? && pc.row.identity.Some?)
    && (accepted <==> (pc.ExchangeDelete? && pc.outcome.SignedIn? && pc.row.id == id) || Through(pc, id))
    && (accepted ==> letOn)
  }

  lemma StepJourney(s: State, c: nat, d: Draw, id: string, letOn: bool, accepted: bool)
    requires c in s.callers && Enabled(s, Run(c, d))
    requires NamesItsRow(s.callers[c]) && Journey(s.callers[c], id, letOn, accepted)
    ensures Journey(Advance(s.rows, s.callers[c], d).1, id,
                    letOn || LetOn(s, Run(c, d), c, id), accepted || Accepts(s, Run(c, d), c, id))
  {
    var pc := s.callers[c];
    if pc.ExchangeCount? {
    } else if pc.ExchangeSession? {
    } else if pc.ExchangeDelete? {
    } else {
      ElsewhereNothing(s.rows, pc, d, id);
    }
  }

  lemma ElsewhereNothing(rows: Rows, pc: Pc, d: Draw, id: string)
    requires !pc.ExchangeCount? && !pc.ExchangeSession? && !pc.ExchangeDelete?
    ensures var pc' := Advance(rows, pc, d).1;
      && !pc'.ExchangeSession? && !pc'.ExchangeDelete? && (Through(pc', id) <==> Through(pc, id))
  {
  }

  ghost predicate LetOnBefore(h: History, i: nat, a: nat, id: string)
    requires i <= |h.events| && |h.states| == |h.events| + 1
  {
    exists k | 0 <= k < i :: LetOn(h.states[k], h.events[k], a, id)
  }

  ghost predicate AcceptedBefore(h: History, i: nat, a: nat, id: string)
    requires i <= |h.events| && |h.states| == |h.events| + 1
  {
    exists k | 0 <= k < i :: Accepts(h.states[k], h.events[k], a, id)
  }

  lemma OneMore(h: History, i: nat, a: nat, id: string)
    requires i < |h.events| && |h.states| == |h.events| + 1
    ensures LetOnBefore(h, i + 1, a, id) <==> LetOnBefore(h, i, a, id) || LetOn(h.states[i], h.events[i], a, id)
    ensures AcceptedBefore(h, i + 1, a, id) <==> AcceptedBefore(h, i, a, id) || Accepts(h.states[i], h.events[i], a, id)
  {
  }

  lemma {:induction false} JourneyAt(h: History, i: nat, a: nat, id: string)
    requires IsRun(h) && i < |h.states| && a in h.states[i].callers
    ensures Journey(h.states[i].callers[a], id, LetOnBefore(h, i, a, id), AcceptedBefore(h, i, a, id))
  {
    if i > 0 {
      var s, e := h.states[i - 1], h.events[i - 1];
      RunClears(h, i - 1);
      assert Follows(h, i - 1);
      OneMore(h, i - 1, a, id);
      JourneyAt(h, i - 1, a, id);
      if e.Run? && e.caller == a {
        StepJourney(s, a, e.draw, id, LetOnBefore(h, i - 1, a, id), AcceptedBefore(h, i - 1, a, id));
      }
    }
  }

  /** In any run an exchange that is through has given a session exactly when, at some moment each, it
      was let on at the count and its session was accepted. */
  lemma ThroughExactly(h: History, i: nat, a: nat, id: string)
    requires IsRun(h) && i < |h.states| && a in h.states[i].callers && h.states[i].callers[a].Done?
    ensures Through(h.states[i].callers[a], id) <==> LetOnBefore(h, i, a, id) && AcceptedBefore(h, i, a, id)
  {
    JourneyAt(h, i, a, id);
  }

  /** So two callers have got sessions from one challenge exactly when both were under way together and
      each was let on at the count and had its session accepted. */
  lemma TwoSessionsExactly(h: History, i: nat, a: nat, b: nat, id: string)
    requires IsRun(h) && i < |h.states| && a != b && a in h.states[i].callers && b in h.states[i].callers
    requires h.states[i].callers[a].Done? && h.states[i].callers[b].Done?
    ensures Through(h.states[i].callers[a], id) && Through(h.states[i].callers[b], id)
        <==> (exists k | 0 <= k <= i :: BothUnder(h.states[k], a, b, id))
             && LetOnBefore(h, i, a, id) && AcceptedBefore(h, i, a, id)
             && LetOnBefore(h, i, b, id) && AcceptedBefore(h, i, b, id)
  {
    ThroughExactly(h, i, a, id);
    ThroughExactly(h, i, b, id);
    if Through(h.states[i].callers[a], id) && Through(h.states[i].callers[b], id) {
      TwoSessionsMeanOverlap(h, i, a, b, id);
    }
  }
}
