/** What a Google session or link rests on, over every interleaving: who asked, who started the flow,
    and what the one callback that spent the challenge was told. */
module GoogleProvenance {
  import opened Store
  import opened Challenges
  import opened GoogleAuth

  // ---- what a caller has in hand is what it asked for ----

  /** The challenge and the code that were presented. */
  predicate Named(row: Challenge, id: string, digest: string) { row.id == id && row.exchange == Some(digest) }

  predicate CallbackHands(pc: Pc, state: string) {
    match pc
    case CallbackFind(s) => s == state
    case CallbackConsume(row, _) => row.state == state
    case CallbackAttach(row) => row.state == state
    case Done(outcome) => outcome.Redirected? || outcome.Refused?
    case _ => false
  }

  predicate ExchangeHands(pc: Pc, id: string, digest: string) {
    match pc
    case ExchangeFind(i, dg) => i == id && dg == digest
    case ExchangeCount(row) => Named(row, id, digest) && row.purpose.SignIn?
    case ExchangeSession(row) => Named(row, id, digest) && row.purpose.SignIn?
    case ExchangeDelete(row, outcome) =>
      && Named(row, id, digest) && row.purpose.SignIn?
      && (outcome.Refused? || (row.user.Some? && row.identity.Some?
                               && outcome == SignedIn(id, row.user.value, row.identity.value)))
    case MissRead(i) => i == id
    case MissCount(i) => i == id
    case Drop(i) => i == id
    case Done(outcome) => outcome.Refused? || (outcome.SignedIn? && outcome.challenge == id)
    case _ => false
  }

  predicate LinkHands(pc: Pc, id: string, digest: string, account: string) {
    match pc
    case LinkFind(i, dg, a) => i == id && dg == digest && a == account
    case LinkCount(row, a) => Named(row, id, digest) && row.purpose.Link? && a == account
    case LinkDelete(row) =>
      Named(row, id, digest) && row.purpose.Link? && row.account == Some(account) && row.subject.Some?
    case MissRead(i) => i == id
    case MissCount(i) => i == id
    case Drop(i) => i == id
    case Done(outcome) => outcome.Refused? || (outcome.Linked? && outcome.challenge == id && outcome.account == account)
    case _ => false
  }

  /** Where a caller can stand, given how it entered. */
  predicate Hands(entry: Pc, pc: Pc) {
    match entry
    case CallbackFind(state) => CallbackHands(pc, state)
    case ExchangeFind(id, digest) => ExchangeHands(pc, id, digest)
    case LinkFind(id, digest, account) => LinkHands(pc, id, digest, account)
    case _ => false
  }

  lemma CallbackStep(rows: Rows, pc: Pc, d: Draw, state: string)
    requires CallbackHands(pc, state)
    ensures CallbackHands(Advance(rows, pc, d).1, state)
  {
  }

  lemma ExchangeStep(rows: Rows, pc: Pc, d: Draw, id: string, digest: string)
    requires ExchangeHands(pc, id, digest)
    ensures ExchangeHands(Advance(rows, pc, d).1, id, digest)
  {
  }

  lemma LinkStep(rows: Rows, pc: Pc, d: Draw, id: string, digest: string, account: string)
    requires LinkHands(pc, id, digest, account)
    ensures LinkHands(Advance(rows, pc, d).1, id, digest, account)
  {
  }

  lemma StepHands(rows: Rows, entry: Pc, pc: Pc, d: Draw)
    requires Hands(entry, pc)
    ensures Hands(entry, Advance(rows, pc, d).1)
  {
    match entry {
      case CallbackFind(state) => CallbackStep(rows, pc, d, state);
      case ExchangeFind(id, digest) => ExchangeStep(rows, pc, d, id, digest);
      case LinkFind(id, digest, account) => LinkStep(rows, pc, d, id, digest, account);
    }
  }

  lemma {:induction false} RunHands(h: History, i: nat, c: nat)
    requires IsRun(h) && i < |h.states| && c in h.states[i].callers
    ensures c in h.states[0].callers && Hands(h.states[0].callers[c], h.states[i].callers[c])
  {
    if i > 0 {
      assert Follows(h, i - 1);
      RunHands(h, i - 1, c);
      if h.events[i - 1].Run? && h.events[i - 1].caller == c {
        StepHands(h.states[i - 1].rows, h.states[0].callers[c], h.states[i - 1].callers[c], h.events[i - 1].draw);
      }
    }
  }

  /** Only the account that started a link can redeem it: whoever completes one presented that very
      challenge, and for that very account. */
  lemma LinkIsBound(h: History, i: nat, c: nat, id: string, digest: string, account: string)
    requires IsRun(h) && i < |h.states| && c in h.states[i].callers
    requires c in h.states[0].callers && h.states[0].callers[c] == LinkFind(id, digest, account)
    ensures var pc := h.states[i].callers[c];
      && (pc.LinkDelete? ==> pc.row.id == id && pc.row.exchange == Some(digest) && pc.row.account == Some(account))
      && (pc.Done? && pc.outcome.Linked? ==> pc.outcome.challenge == id && pc.outcome.account == account)
      && (pc.Done? ==> !pc.outcome.SignedIn? && !pc.outcome.Redirected?)
  {
    RunHands(h, i, c);
  }

  // ---- what a row says was proved to the callback that spent the challenge ----

  /** Step `k` records an outcome of challenge `id` under the code: the caller answers to the state of the
      row, has spent the challenge, and Google has proved something to it. */
  ghost predicate Records(h: History, k: nat, id: string, digest: string)
    requires |h.states| == |h.events| + 1
  {
    && k < |h.events| && h.events[k].Run? && h.events[k].caller in h.states[k].callers
    && h.events[k].caller in h.states[0].callers
    && var pc := h.states[k].callers[h.events[k].caller];
       && pc.CallbackAttach? && pc.row.id == id && Win(h.events[k].caller, id) in h.states[k].won
       && h.states[0].callers[h.events[k].caller] == CallbackFind(pc.row.state)
       && h.events[k].draw.digest == digest && h.events[k].draw.verdict.Proven?
  }

  ghost predicate SignInRecorded(h: History, i: nat, id: string, digest: string, user: string, identity: string)
    requires |h.states| == |h.events| + 1
  {
    exists k | 0 <= k < i :: Records(h, k, id, digest)
      && h.events[k].draw.verdict.user == Some(user) && h.events[k].draw.verdict.identity == identity
  }

  ghost predicate LinkRecorded(h: History, i: nat, id: string, digest: string, subject: string, email: Option<string>)
    requires |h.states| == |h.events| + 1
  {
    exists k | 0 <= k < i :: Records(h, k, id, digest)
      && h.events[k].draw.verdict.subject == subject && h.events[k].draw.verdict.email == email
  }

  /** The flow was started for that purpose, by that account where it is a link. */
  ghost predicate Begun(h: History, i: nat, row: Challenge)
    requires |h.states| == |h.events| + 1
  {
    exists k | 0 <= k < i && k < |h.events| :: Begins(h.events[k], row)
  }

  predicate Begins(e: Event, row: Challenge) {
    && e.Start? && e.row.id == row.id && e.row.state == row.state && e.row.purpose == row.purpose
    && e.row.account == row.account && e.row.expiresAt == row.expiresAt
  }

  ghost predicate Backed(h: History, i: nat, row: Challenge)
    requires |h.states| == |h.events| + 1
  {
    && Begun(h, i, row)
    && (row.exchange.Some? ==>
          if row.purpose.SignIn? then
            row.user.Some? && row.identity.Some?
            && SignInRecorded(h, i, row.id, row.exchange.value, row.user.value, row.identity.value)
          else
            row.subject.Some? && LinkRecorded(h, i, row.id, row.exchange.value, row.subject.value, row.email))
  }

  /** A row that differs in its counters only is as well backed, at any later time. */
  lemma StaysBacked(h: History, i: nat, j: nat, row: Challenge, row': Challenge)
    requires |h.states| == |h.events| + 1 && i <= j && Backed(h, i, row)
    requires row' == row.(attempts := row'.attempts, consumedAt := row'.consumedAt)
    ensures Backed(h, j, row')
  {
    if row.exchange.Some? {
      if row.purpose.SignIn? {
        assert SignInRecorded(h, j, row.id, row.exchange.value, row.user.value, row.identity.value);
      } else {
        assert LinkRecorded(h, j, row.id, row.exchange.value, row.subject.value, row.email);
      }
    }
    var k :| 0 <= k < i && k < |h.events| && Begins(h.events[k], row);
    assert Begins(h.events[k], row');
  }

  ghost predicate RowsBacked(h: History, i: nat, rows: Rows)
    requires |h.states| == |h.events| + 1
  {
    forall id | id in rows :: Backed(h, i, rows[id])
  }

  /** What a caller remembers, and that one about to record has spent the challenge. */
  ghost predicate PcBacked(h: History, i: nat, c: nat, pc: Pc, won: set<Win>)
    requires |h.states| == |h.events| + 1
  {
    && (Holds(pc) ==> Backed(h, i, pc.row))
    && (pc.CallbackAttach? ==> Win(c, pc.row.id) in won)
  }

  ghost predicate CallersBacked(h: History, i: nat, s: State)
    requires |h.states| == |h.events| + 1
  {
    forall c | c in s.callers :: PcBacked(h, i, c, s.callers[c], s.won)
  }

  /** What a step leaves of a row, unless it records an outcome in it. */
  predicate OnlyCounters(rows: Rows, rows': Rows, id: string) {
    id in rows && id in rows' && rows'[id] == rows[id].(attempts := rows'[id].attempts, consumedAt := rows'[id].consumedAt)
  }

  lemma StepRewrites(rows: Rows, pc: Pc, d: Draw, id: string)
    requires id in Advance(rows, pc, d).0 && !(pc.CallbackAttach? && pc.row.id == id)
    ensures OnlyCounters(rows, Advance(rows, pc, d).0, id)
  {
    if !Writes(pc) { ReadsWriteNothing(rows, pc, d); }
  }

  /** The row an attach rewrites. */
  lemma AttachIsBacked(h: History, i: nat, c: nat)
    requires IsRun(h) && i < |h.events| && h.events[i].Run? && h.events[i].caller == c && c in h.states[i].callers
    requires h.states[i].callers[c].CallbackAttach? && CallersBacked(h, i, h.states[i]) && RowsBacked(h, i, h.states[i].rows)
    requires h.states[i].callers[c].row.id in h.states[i + 1].rows
    ensures Backed(h, i + 1, h.states[i + 1].rows[h.states[i].callers[c].row.id])
  {
    var s, d, pc := h.states[i], h.events[i].draw, h.states[i].callers[c];
    var id := pc.row.id;
    RunKeepsInv(h, i);
    assert Follows(h, i);
    assert CallerOk(s, pc) && PcBacked(h, i, c, pc, s.won);
    RunHands(h, i, c);
    AdvanceNarrows(s.rows, pc, d);
    var row, row' := s.rows[id], h.states[i + 1].rows[id];
    if row' == row {
      StaysBacked(h, i, i + 1, row, row');
    } else {
      assert Records(h, i, id, d.digest);
      StaysBegun(h, i, row, row');
      if row'.purpose.SignIn? {
        assert SignInRecorded(h, i + 1, id, d.digest, row'.user.value, row'.identity.value);
      } else {
        assert LinkRecorded(h, i + 1, id, d.digest, row'.subject.value, row'.email);
      }
    }
  }

  lemma StaysBegun(h: History, i: nat, row: Challenge, row': Challenge)
    requires |h.states| == |h.events| + 1 && Begun(h, i, row)
    requires row'.id == row.id && row'.state == row.state && row'.purpose == row.purpose && row'.account == row.account
    requires row'.expiresAt == row.expiresAt
    ensures Begun(h, i + 1, row')
  {
    var k :| 0 <= k < i && k < |h.events| && Begins(h.events[k], row);
    assert Begins(h.events[k], row');
  }

  lemma RowsStayBacked(h: History, i: nat)
    requires IsRun(h) && i < |h.events| && RowsBacked(h, i, h.states[i].rows) && CallersBacked(h, i, h.states[i])
    ensures RowsBacked(h, i + 1, h.states[i + 1].rows)
  {
    assert Follows(h, i);
    var s, s', e := h.states[i], h.states[i + 1], h.events[i];
    forall id | id in s'.rows ensures Backed(h, i + 1, s'.rows[id]) {
      if e.Start? && id == e.row.id {
        assert Begins(h.events[i], s'.rows[id]);
      } else if e.Run? {
        var pc := s.callers[e.caller];
        RunKeepsInv(h, i);
        assert CallerOk(s, pc);
        if pc.CallbackAttach? && pc.row.id == id {
          AttachIsBacked(h, i, e.caller);
        } else {
          StepRewrites(s.rows, pc, e.draw, id);
          StaysBacked(h, i, i + 1, s.rows[id], s'.rows[id]);
        }
      } else {
        StaysBacked(h, i, i + 1, s.rows[id], s'.rows[id]);
      }
    }
  }

  /** A caller remembers what it remembered, or a row it has just found. */
  lemma StepRemembers(rows: Rows, pc: Pc, d: Draw)
    requires Holds(Advance(rows, pc, d).1)
    ensures var row := Advance(rows, pc, d).1.row;
      (Holds(pc) && row == pc.row) || (row.id in rows && rows[row.id] == row) || exists id :: id in rows && rows[id] == row
  {
  }

  lemma CallersStayBacked(h: History, i: nat)
    requires IsRun(h) && i < |h.events| && RowsBacked(h, i, h.states[i].rows) && CallersBacked(h, i, h.states[i])
    ensures CallersBacked(h, i + 1, h.states[i + 1])
  {
    assert Follows(h, i);
    var s, s', e := h.states[i], h.states[i + 1], h.events[i];
    forall c | c in s'.callers ensures PcBacked(h, i + 1, c, s'.callers[c], s'.won) {
      var pc, pc' := s.callers[c], s'.callers[c];
      assert PcBacked(h, i, c, pc, s.won);
      if Holds(pc') {
        if e.Run? && e.caller == c {
          StepRemembers(s.rows, pc, e.draw);
          if !(Holds(pc) && pc'.row == pc.row) {
            var id :| id in s.rows && s.rows[id] == pc'.row;
            assert Backed(h, i, s.rows[id]);
          }
        }
        StaysBacked(h, i, i + 1, pc'.row, pc'.row);
      }
    }
  }

  lemma {:induction false} RunIsBacked(h: History, i: nat)
    requires IsRun(h) && i < |h.states|
    ensures RowsBacked(h, i, h.states[i].rows) && CallersBacked(h, i, h.states[i])
  {
    if i > 0 {
      RunIsBacked(h, i - 1);
      RowsStayBacked(h, i - 1);
      CallersStayBacked(h, i - 1);
    }
  }

  // ---- what a session or a link rests on ----

  ghost predicate StartedFor(h: History, i: nat, id: string, purpose: Purpose, account: Option<string>)
    requires |h.states| == |h.events| + 1
  {
    exists k | 0 <= k < i && k < |h.events| :: StartsFor(h.events[k], id, purpose, account)
  }

  predicate StartsFor(e: Event, id: string, purpose: Purpose, account: Option<string>) {
    e.Start? && e.row.id == id && e.row.purpose == purpose && e.row.account == account
  }

  ghost predicate LinkProved(h: History, i: nat, id: string, digest: string, subject: string)
    requires |h.states| == |h.events| + 1
  {
    exists k | 0 <= k < i :: Records(h, k, id, digest) && h.events[k].draw.verdict.subject == subject
  }

  /** Whoever has got a session or a link is entitled to it. */
  ghost predicate EndBacked(h: History, i: nat, entry: Pc, pc: Pc)
    requires |h.states| == |h.events| + 1
  {
    && (entry.ExchangeFind? && pc.Done? && pc.outcome.SignedIn? ==>
          && StartedFor(h, i, entry.id, SignIn, None)
          && SignInRecorded(h, i, entry.id, entry.digest, pc.outcome.user, pc.outcome.identity))
    && (entry.LinkFind? && pc.Done? && pc.outcome.Linked? ==>
          && StartedFor(h, i, entry.id, Link, Some(entry.account))
          && LinkProved(h, i, entry.id, entry.digest, pc.outcome.subject))
  }

  lemma EndStaysBacked(h: History, i: nat, entry: Pc, pc: Pc)
    requires |h.states| == |h.events| + 1 && EndBacked(h, i, entry, pc)
    ensures EndBacked(h, i + 1, entry, pc)
  {
  }

  lemma BegunIsStarted(h: History, i: nat, row: Challenge)
    requires |h.states| == |h.events| + 1 && Begun(h, i, row)
    ensures StartedFor(h, i + 1, row.id, row.purpose, row.account)
  {
    var k :| 0 <= k < i && k < |h.events| && Begins(h.events[k], row);
    assert StartsFor(h.events[k], row.id, row.purpose, row.account);
  }

  /** The step in which a caller comes to its session or link. */
  lemma EndingIsBacked(h: History, i: nat, c: nat)
    requires IsRun(h) && i < |h.events| && h.events[i].Run? && h.events[i].caller == c && c in h.states[i].callers
    requires h.states[i].callers[c].ExchangeDelete? || h.states[i].callers[c].LinkDelete?
    requires c in h.states[0].callers && Hands(h.states[0].callers[c], h.states[i].callers[c])
    ensures c in h.states[i + 1].callers && EndBacked(h, i + 1, h.states[0].callers[c], h.states[i + 1].callers[c])
  {
    assert Follows(h, i);
    var s, pc := h.states[i], h.states[i].callers[c];
    RunIsBacked(h, i);
    RunKeepsInv(h, i);
    assert PcBacked(h, i, c, pc, s.won) && CallerOk(s, pc);
    BegunIsStarted(h, i, pc.row);
    if pc.LinkDelete? {
      assert LinkProved(h, i + 1, pc.row.id, pc.row.exchange.value, pc.row.subject.value);
    } else if pc.outcome.SignedIn? {
      assert SignInRecorded(h, i + 1, pc.row.id, pc.row.exchange.value, pc.row.user.value, pc.row.identity.value);
    }
  }

  lemma {:induction false} RunEndsBacked(h: History, i: nat, c: nat)
    requires IsRun(h) && i < |h.states| && c in h.states[i].callers
    ensures c in h.states[0].callers && EndBacked(h, i, h.states[0].callers[c], h.states[i].callers[c])
  {
    RunHands(h, i, c);
    if i > 0 {
      assert Follows(h, i - 1);
      RunEndsBacked(h, i - 1, c);
      RunHands(h, i - 1, c);
      var pc, pc' := h.states[i - 1].callers[c], h.states[i].callers[c];
      if pc' == pc {
        EndStaysBacked(h, i - 1, h.states[0].callers[c], pc);
      } else if pc.ExchangeDelete? || pc.LinkDelete? {
        EndingIsBacked(h, i - 1, c);
      } else {
        NoEndYet(h.states[i - 1].rows, pc, h.events[i - 1].draw);
      }
    }
  }

  lemma NoEndYet(rows: Rows, pc: Pc, d: Draw)
    requires !pc.ExchangeDelete? && !pc.LinkDelete? && !pc.Done?
    ensures var pc' := Advance(rows, pc, d).1; pc'.Done? ==> !pc'.outcome.SignedIn? && !pc'.outcome.Linked?
  {
  }

  /** A session is given for the challenge and the code presented, of a flow started for a sign-in, and it
      is for the account and identity that the callback which spent the challenge and minted that code
      resolved, from what Google proved to it. */
  lemma SessionIsProven(h: History, i: nat, c: nat, id: string, digest: string)
    requires IsRun(h) && i < |h.states| && c in h.states[i].callers
    requires c in h.states[0].callers && h.states[0].callers[c] == ExchangeFind(id, digest)
    requires h.states[i].callers[c].Done? && !h.states[i].callers[c].outcome.Refused?
    ensures var o := h.states[i].callers[c].outcome;
      && o.SignedIn? && o.challenge == id
      && StartedFor(h, i, id, SignIn, None) && SignInRecorded(h, i, id, digest, o.user, o.identity)
  {
    RunHands(h, i, c);
    RunEndsBacked(h, i, c);
  }

  /** The same of a link: started by the very account that completes it, for the subject Google proved. */
  lemma LinkIsProven(h: History, i: nat, c: nat, id: string, digest: string, account: string)
    requires IsRun(h) && i < |h.states| && c in h.states[i].callers
    requires c in h.states[0].callers && h.states[0].callers[c] == LinkFind(id, digest, account)
    requires h.states[i].callers[c].Done? && !h.states[i].callers[c].outcome.Refused?
    ensures var o := h.states[i].callers[c].outcome;
      && o.Linked? && o.challenge == id && o.account == account
      && StartedFor(h, i, id, Link, Some(account)) && LinkProved(h, i, id, digest, o.subject)
  {
    RunHands(h, i, c);
    RunEndsBacked(h, i, c);
  }

  // ---- when a link is completed ----

  /** The step in which the caller counts its attempt and is let on. */
  ghost predicate LetOn(s: State, e: Event, c: nat) {
    && e.Run? && e.caller == c && c in s.callers && s.callers[c].LinkCount?
    && var row := s.callers[c].row;
       && (row.id in s.rows ==> s.rows[row.id].attempts < 3)
       && row.account == Some(s.callers[c].account) && row.subject.Some?
  }

  /** The step in which the identity is attached. */
  ghost predicate Attaches(s: State, e: Event, c: nat) {
    e.Run? && e.caller == c && c in s.callers && s.callers[c].LinkDelete? && e.draw.accepted
  }

  ghost predicate LetOnBefore(h: History, i: nat, c: nat)
    requires i <= |h.events| && |h.states| == |h.events| + 1
  {
    exists k | 0 <= k < i :: LetOn(h.states[k], h.events[k], c)
  }

  ghost predicate AttachedBefore(h: History, i: nat, c: nat)
    requires i <= |h.events| && |h.states| == |h.events| + 1
  {
    exists k | 0 <= k < i :: Attaches(h.states[k], h.events[k], c)
  }

  lemma OneMore(h: History, i: nat, c: nat)
    requires i < |h.events| && |h.states| == |h.events| + 1
    ensures LetOnBefore(h, i + 1, c) <==> LetOnBefore(h, i, c) || LetOn(h.states[i], h.events[i], c)
    ensures AttachedBefore(h, i + 1, c) <==> AttachedBefore(h, i, c) || Attaches(h.states[i], h.events[i], c)
  {
  }

  /** Where a link stands once it is known whether it was let on and attached. */
  predicate Standing(pc: Pc, letOn: bool, attached: bool) {
    && (pc.LinkDelete? ==> letOn && pc.row.account.Some? && pc.row.subject.Some?)
    && (pc.LinkCount? || pc.LinkFind? ==> !letOn)
    && (letOn ==> pc.LinkDelete? || pc.Done?)
    && (attached <==> pc.Done? && pc.outcome.Linked?)
    && (attached ==> letOn)
  }

  lemma StandingStep(s: State, c: nat, d: Draw, id: string, digest: string, account: string, letOn: bool, attached: bool)
    requires c in s.callers && Enabled(s, Run(c, d)) && LinkHands(s.callers[c], id, digest, account)
    requires Standing(s.callers[c], letOn, attached)
    ensures Standing(Advance(s.rows, s.callers[c], d).1,
                     letOn || LetOn(s, Run(c, d), c), attached || Attaches(s, Run(c, d), c))
  {
  }

  lemma {:induction false} StandingAt(h: History, i: nat, c: nat)
    requires IsRun(h) && i < |h.states| && c in h.states[i].callers
    requires c in h.states[0].callers && h.states[0].callers[c].LinkFind?
    ensures Standing(h.states[i].callers[c], LetOnBefore(h, i, c), AttachedBefore(h, i, c))
  {
    if i > 0 {
      var s, e, entry := h.states[i - 1], h.events[i - 1], h.states[0].callers[c];
      assert Follows(h, i - 1);
      OneMore(h, i - 1, c);
      StandingAt(h, i - 1, c);
      RunHands(h, i - 1, c);
      if e.Run? && e.caller == c {
        StandingStep(s, c, e.draw, entry.id, entry.digest, entry.account, LetOnBefore(h, i - 1, c), AttachedBefore(h, i - 1, c));
      }
    }
  }

  /** In any run a link that is through is completed exactly when, at some moment each, it was let on at
      the count (fewer than three attempts, the account that started it, something proved) and the
      identity was attached. */
  lemma LinkedExactly(h: History, i: nat, c: nat)
    requires IsRun(h) && i < |h.states| && c in h.states[i].callers
    requires c in h.states[0].callers && h.states[0].callers[c].LinkFind? && h.states[i].callers[c].Done?
    ensures h.states[i].callers[c].outcome.Linked? <==> LetOnBefore(h, i, c) && AttachedBefore(h, i, c)
  {
    StandingAt(h, i, c);
  }
}
