/** A code that has been minted is good: it is in the store as it was asked for, it stays there, and
    whoever presents it in time is signed in or linked. */
module EmailDelivery {
  import opened Store
  import opened EmailAddress
  import opened EmailAuth
  import L = RateLimiter
  import C = OtpStore
  import O = Otp

  // ---- what a start leaves ----

  /** The challenge that was asked for, tried `tries` times so far. */
  predicate Awaits(open: C.Challenges, r: Request, tries: nat) {
    && r.id in open
    && var c := open[r.id];
       && c.email == r.email && c.purpose == r.purpose && c.account == r.account && c.code == r.code
       && c.expiresAt == r.now + 10 * 60 * 1000 && 0 <= c.attempts <= tries
  }

  /** How many open challenges are still in time and for other addresses. */
  function Others(open: C.Challenges, r: Request): nat {
    |set id | id in open && r.now < open[id].expiresAt && open[id].email != r.email|
  }

  lemma OthersAreLeft(open: C.Challenges, r: Request)
    ensures |C.Without(C.Live(open, r.now), r.email)| == Others(open, r)
  {
    assert C.Without(C.Live(open, r.now), r.email).Keys
        == set id | id in open && r.now < open[id].expiresAt && open[id].email != r.email;
  }

  /** A code is minted exactly for a deliverable address, within the three limits, each asked after the one
      before it, and where there is room. */
  lemma MintedExactly(ws: L.Windows, capacity: nat, open: C.Challenges, r: Request)
    ensures var (ws1, a1) := Use(ws, capacity, r.now, START_SOURCE, r.source);
      var (ws2, a2) := Use(ws1, capacity, r.now, RESEND, r.email);
      var (ws3, a3) := Use(ws2, capacity, r.now, START_EMAIL, r.email);
      var (ws', open', outcome) := Starting(ws, capacity, open, r);
      && (outcome.Minted?
          <==> IsDeliverable(r.email) && a1.Allowed? && a2.Allowed? && a3.Allowed? && Others(open, r) < 10_000)
      && (outcome.InvalidEmail? <==> !IsDeliverable(r.email))
      && (outcome.Busy?
          <==> IsDeliverable(r.email) && a1.Allowed? && a2.Allowed? && a3.Allowed? && Others(open, r) >= 10_000)
      && (outcome.RateLimited? ==>
            open' == open && outcome.retryAfterMs == (if a1.Refused? then a1 else if a2.Refused? then a2 else a3).retryAfterMs)
  {
    OthersAreLeft(open, r);
  }

  /** And then it is in the store, under its own id, as it was asked for and not tried yet, alone for its
      address; the live challenges of other addresses are as they were, and what is told of it is true. */
  lemma MintedIsStored(ws: L.Windows, capacity: nat, open: C.Challenges, r: Request)
    requires Starting(ws, capacity, open, r).2.Minted?
    ensures var (_, open', outcome) := Starting(ws, capacity, open, r);
      && Awaits(open', r, 0) && open'[r.id].id == r.id && open'[r.id].issuedAt == r.now
      && (forall id | id in open' && open'[id].email == r.email :: id == r.id)
      && (forall id | id in open && id != r.id && open[id].email != r.email && r.now < open[id].expiresAt ::
            id in open' && open'[id] == open[id])
      && outcome.challenge == C.View(r.id, r.email, r.purpose, r.account, r.now, r.now + 10 * 60 * 1000, 0)
  {
  }

  // ---- the code is good ----

  /** Whoever presents the code while it waits is answered by it. */
  lemma WaitingIsVerified(ws: L.Windows, capacity: nat, open: C.Challenges, r: Request, now: int, source: string)
    requires Awaits(open, r, 4) && O.IsOtpShape(r.code) && now < r.now + 10 * 60 * 1000
    requires Use(ws, capacity, now, VERIFY_SOURCE, source).1.Allowed?
    ensures var (_, open', first) := Verifying(ws, capacity, open, now, source, r.id, r.code);
      && first.Answered? && first.attempt.Verified? && r.id !in open'
      && first.attempt.challenge.email == r.email && first.attempt.challenge.purpose == r.purpose
      && first.attempt.challenge.account == r.account
  {
  }

  /** A sign-in gives the session, and a link the address to the account that asked. */
  lemma WaitingComesThrough(ws: L.Windows, capacity: nat, open: C.Challenges, r: Request, now: int, source: string,
                            account: string)
    requires Awaits(open, r, 4) && O.IsOtpShape(r.code) && now < r.now + 10 * 60 * 1000
    requires Use(ws, capacity, now, VERIFY_SOURCE, source).1.Allowed?
    ensures var (ws', _, first) := Verifying(ws, capacity, open, now, source, r.id, r.code);
      && (r.purpose.SignIn? ==> Completing(ws', first, true, true).1 == SignedIn(r.email))
      && (r.purpose.Link? ==> (CompletingLink(ws', first, account, true).1 == Linked(account, r.email)
                               <==> r.account == Some(account)))
  {
    WaitingIsVerified(ws, capacity, open, r, now, source);
  }

  // ---- it waits ----

  /** The event does not take the challenge away: nobody starts again for the address, it is not discarded,
      and its code is not presented yet. */
  predicate Spares(e: Event, r: Request) {
    && (e.Started? ==> e.r.email != r.email)
    && (e.Undelivered? ==> e.id != r.id)
    && (e.Verified? && e.id == r.id ==> e.code != r.code)
  }

  function TriesAt(e: Event, id: string): nat { if e.Verified? && e.id == id then 1 else 0 }

  lemma TryKeepsWaiting(open: C.Challenges, r: Request, id: string, code: O.Units, now: int, tries: nat)
    requires Awaits(open, r, tries) && now < r.now + 10 * 60 * 1000 && tries < 4
    requires id == r.id ==> code != r.code
    ensures Awaits(C.Attempting(open, LIMITS.max, id, Presented(code), now).0, r, tries + if id == r.id then 1 else 0)
  {
  }

  lemma OtherTryKeepsWaiting(open: C.Challenges, r: Request, id: string, code: O.Units, now: int, tries: nat)
    requires Awaits(open, r, tries) && id != r.id
    ensures Awaits(C.Attempting(open, LIMITS.max, id, Presented(code), now).0, r, tries)
  {
  }

  lemma StartKeepsWaiting(open: C.Challenges, r: Request, r2: Request, tries: nat)
    requires Awaits(open, r, tries) && r2.email != r.email && r2.id != r.id && r2.now < r.now + 10 * 60 * 1000
    ensures Awaits(C.Issuing(open, LIMITS.capacity, ChallengeOf(r2)).0, r, tries)
  {
  }

  lemma EventKeepsWaiting(d: Desk, capacity: nat, e: Event, who: string, r: Request, tries: nat)
    requires Awaits(d.codes.open, r, tries) && r.id in d.codes.used && Enabled(d, e, who) && Spares(e, r)
    requires TimeOf(e) < r.now + 10 * 60 * 1000 && tries + TriesAt(e, r.id) < 5
    ensures var d' := After(d, capacity, e, who);
      Awaits(d'.codes.open, r, tries + TriesAt(e, r.id)) && r.id in d'.codes.used
  {
    match e {
      case Started(r2) => StartKeepsWaiting(d.codes.open, r, r2, tries);
      case Verified(now, _, id, code) =>
        if id == r.id { TryKeepsWaiting(d.codes.open, r, id, code, now, tries); }
        else { OtherTryKeepsWaiting(d.codes.open, r, id, code, now, tries); }
      case Undelivered(_, _) =>
      case Swept(_) =>
      case Settled(_, _) =>
    }
  }

  /** Presentations of the id in `es[lo..hi]`. */
  function TriesIn(es: seq<Event>, lo: nat, hi: nat, id: string): nat
    requires lo <= hi <= |es|
  {
    if lo == hi then 0 else TriesIn(es, lo, hi - 1, id) + TriesAt(es[hi - 1], id)
  }

  lemma {:induction false} FewerTriesBefore(es: seq<Event>, lo: nat, mid: nat, hi: nat, id: string)
    requires lo <= mid <= hi <= |es|
    ensures TriesIn(es, lo, mid, id) <= TriesIn(es, lo, hi, id)
  {
    if mid < hi { FewerTriesBefore(es, lo, mid, hi - 1, id); }
  }

  /** Clocks do not go back. */
  lemma {:induction false} ClockAscends(ds: seq<Desk>, es: seq<Event>, capacity: nat, who: string, i: nat, j: nat)
    requires IsRun(ds, es, capacity, who) && i <= j < |es|
    ensures TimeOf(es[i]) <= TimeOf(es[j])
  {
    if i < j {
      ClockAscends(ds, es, capacity, who, i, j - 1);
      assert Steps(ds, es, capacity, who, j);
    }
  }

  /** Event `i` of the run minted a code for `r`. */
  ghost predicate MintedAt(ds: seq<Desk>, es: seq<Event>, capacity: nat, i: nat, r: Request)
    requires i < |es| && i < |ds|
  {
    es[i] == Started(r) && Starting(ds[i].book.ws, capacity, ds[i].codes.open, r).2.Minted?
  }

  lemma MintedWaits(ds: seq<Desk>, es: seq<Event>, capacity: nat, who: string, i: nat, r: Request)
    requires IsRun(ds, es, capacity, who) && i < |es| && MintedAt(ds, es, capacity, i, r)
    ensures WaitsAt(ds[i + 1], r, 0)
  {
    assert Steps(ds, es, capacity, who, i);
    MintedIsStored(ds[i].book.ws, capacity, ds[i].codes.open, r);
  }

  /** All events between `i` and `j` spare the challenge and come in time. */
  ghost predicate Spared(es: seq<Event>, i: nat, j: nat, r: Request)
    requires j <= |es|
  {
    forall k | i < k < j :: SparesInTime(es[k], r)
  }

  predicate SparesInTime(e: Event, r: Request) { Spares(e, r) && TimeOf(e) < r.now + 10 * 60 * 1000 }

  ghost predicate WaitsAt(d: Desk, r: Request, tries: nat) { Awaits(d.codes.open, r, tries) && r.id in d.codes.used }

  lemma StepWaits(ds: seq<Desk>, es: seq<Event>, capacity: nat, who: string, k: nat, r: Request, tries: nat)
    requires IsRun(ds, es, capacity, who) && k < |es| && WaitsAt(ds[k], r, tries)
    requires SparesInTime(es[k], r) && tries + TriesAt(es[k], r.id) < 5
    ensures WaitsAt(ds[k + 1], r, tries + TriesAt(es[k], r.id))
  {
    assert Steps(ds, es, capacity, who, k);
    EventKeepsWaiting(ds[k], capacity, es[k], who, r, tries);
  }

  lemma {:induction false} StillWaits(ds: seq<Desk>, es: seq<Event>, capacity: nat, who: string, i: nat, j: nat, r: Request)
    requires IsRun(ds, es, capacity, who) && i < j <= |es| && MintedAt(ds, es, capacity, i, r)
    requires Spared(es, i, j, r) && TriesIn(es, i + 1, j, r.id) < 5
    ensures WaitsAt(ds[j], r, TriesIn(es, i + 1, j, r.id))
  {
    if j == i + 1 {
      MintedWaits(ds, es, capacity, who, i, r);
    } else {
      StillWaits(ds, es, capacity, who, i, j - 1, r);
      assert SparesInTime(es[j - 1], r);
      StepWaits(ds, es, capacity, who, j - 1, r, TriesIn(es, i + 1, j - 1, r.id));
    }
  }

  /** Over any run: the code of a request is good for the ten minutes after it was minted, until somebody
      starts again for the address, it is discarded, or four other codes have been presented for it; then
      it signs in if that is what it was asked for, and links the account that asked for it and no other,
      the source being within its limit and account and session being had. */
  lemma CodeComesThrough(ds: seq<Desk>, es: seq<Event>, capacity: nat, who: string, i: nat, j: nat, r: Request,
                         source: string, account: string)
    requires IsRun(ds, es, capacity, who) && i < j < |es| && MintedAt(ds, es, capacity, i, r) && O.IsOtpShape(r.code)
    requires es[j] == Verified(TimeOf(es[j]), source, r.id, r.code) && TimeOf(es[j]) < r.now + 10 * 60 * 1000
    requires (forall k | i < k < j :: Spares(es[k], r)) && TriesIn(es, i + 1, j, r.id) < 5
    requires Use(ds[j].book.ws, capacity, TimeOf(es[j]), VERIFY_SOURCE, source).1.Allowed?
    ensures var (ws, open, first) :=
              Verifying(ds[j].book.ws, capacity, ds[j].codes.open, TimeOf(es[j]), source, r.id, r.code);
      && (r.purpose.SignIn? ==> Completing(ws, first, true, true).1 == SignedIn(r.email))
      && (r.purpose.Link? ==> (CompletingLink(ws, first, account, true).1 == Linked(account, r.email)
                               <==> r.account == Some(account)))
  {
    forall k | i < k < j ensures SparesInTime(es[k], r) { ClockAscends(ds, es, capacity, who, k, j); }
    StillWaits(ds, es, capacity, who, i, j, r);
    WaitingComesThrough(ds[j].book.ws, capacity, ds[j].codes.open, r, TimeOf(es[j]), source, account);
  }

  // ---- the answers ----

  /** What a verification answers, by what the store said: only a right code of a sign-in is more than a
      refusal, and the number of tries left is told for a wrong one only. */
  lemma VerifyAnswers(ws: L.Windows, first: TryOutcome, resolves: bool, issues: bool)
    ensures var (ws', outcome) := Completing(ws, first, resolves, issues);
      && (outcome.SignedIn? <==>
            first.Answered? && first.attempt.Verified? && first.attempt.challenge.purpose == C.SignIn && resolves && issues)
      && (outcome.SignedIn? ==> outcome.email == first.attempt.challenge.email)
      && (!outcome.SignedIn? ==> ws' == ws)
      && (outcome.NotVerified? ==>
            && (outcome.reason == TooManyRequests <==> first.Throttled?)
            && (outcome.retryAfterMs == if first.Throttled? then Some(first.retryAfterMs) else None)
            && (outcome.reason == InvalidCode <==> first.Answered? && first.attempt.Mismatch?)
            && (outcome.reason == AttemptsExhausted <==> first.Answered? && first.attempt.Exhausted?)
            && (outcome.reason == Unavailable <==>
                  first.Answered? && first.attempt.Verified? && first.attempt.challenge.purpose == C.SignIn)
            && (outcome.remaining.Some? <==> first.Answered? && (first.attempt.Mismatch? || first.attempt.Exhausted?))
            && (first.Answered? && first.attempt.Mismatch? ==> outcome.remaining == Some(first.attempt.remaining)))
  {
  }

  /** A sign-in gives the address its allowance back: the next code can be had at once, memory permitting,
      and no other counter has changed. */
  lemma SuccessGivesBack(ws: L.Windows, capacity: nat, first: TryOutcome, now: int, email: string)
    requires Completing(ws, first, true, true).1 == SignedIn(email)
    ensures var ws' := Completing(ws, first, true, true).0;
      && (forall k | k in ws' :: k in ws && ws'[k] == ws[k])
      && (forall k | k in ws && k.name != email :: k in ws')
      && (L.Busy(ws', now) < capacity ==> Use(ws', capacity, now, RESEND, email).1.Allowed?)
      && (L.Busy(ws', now) < capacity ==> Use(ws', capacity, now, START_EMAIL, email).1.Allowed?)
  {
    var ws' := Completing(ws, first, true, true).0;
    assert L.Key(RESEND, email) !in ws' && L.Key(START_EMAIL, email) !in ws';
    L.AbsentAnswer(ws', capacity, now, L.Key(RESEND, email), RuleOf(RESEND));
    L.AbsentAnswer(ws', capacity, now, L.Key(START_EMAIL, email), RuleOf(START_EMAIL));
  }
}
