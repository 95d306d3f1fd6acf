/** The limiter and the challenge store together: what an address can be sent, and how often the
    codes sent to it can be tried. */
module EmailAuth {
  import opened Store
  import opened EmailAddress
  import L = RateLimiter
  import C = OtpStore
  import O = Otp

  const MINUTE := 60 * 1000
  const OTP_TTL := 10 * MINUTE
  const LIMITS := C.Limits(5, 10_000)

  const START_EMAIL := "otp.start.email"
  const START_SOURCE := "otp.start.source"
  const VERIFY_SOURCE := "otp.verify.source"
  const RESEND := "otp.resend"

  function RuleOf(bucket: string): L.Rule {
    if bucket == START_EMAIL then L.Rule(5, 15 * MINUTE)
    else if bucket == START_SOURCE then L.Rule(20, 15 * MINUTE)
    else if bucket == VERIFY_SOURCE then L.Rule(50, 15 * MINUTE)
    else L.Rule(1, 30 * 1000)
  }

  lemma BucketsDiffer()
    ensures START_EMAIL != RESEND && START_SOURCE != RESEND && VERIFY_SOURCE != RESEND
    ensures START_SOURCE != START_EMAIL && VERIFY_SOURCE != START_EMAIL
  {
    assert |RESEND| == 10 && |START_EMAIL| == 15 && |START_SOURCE| == 16 && |VERIFY_SOURCE| == 17;
  }

  // ---- what the two entry points do ----

  datatype StartOutcome = InvalidEmail | RateLimited(retryAfterMs: int) | Busy | Minted(challenge: C.View)

  /** The first half of a verification: the limiter's refusal or the store's answer. */
  datatype TryOutcome = Throttled(retryAfterMs: int) | Answered(attempt: C.Attempt)

  datatype Reason = TooManyRequests | CodeExpired | AttemptsExhausted | InvalidCode | Unavailable

  datatype VerifyOutcome =
    | NotVerified(reason: Reason, remaining: Option<int>, retryAfterMs: Option<int>)
    | SignedIn(email: string)

  datatype LinkOutcome = NotLinked | Linked(account: string, email: string)

  /** A request for a code: who asks, for which address, and the values drawn for it. */
  datatype Request = Request(
    now: int, source: string, email: string, purpose: C.Purpose, account: Option<string>,
    id: string, code: O.Units)

  function ChallengeOf(r: Request): C.Challenge {
    C.Challenge(r.id, r.email, r.purpose, r.account, r.code, r.now, r.now + OTP_TTL, 0)
  }

  function Use(ws: L.Windows, capacity: nat, now: int, bucket: string, name: string): (L.Windows, L.Answer) {
    L.Consumed(ws, capacity, now, L.Key(bucket, name), RuleOf(bucket))
  }

  /** The three limits of `start`, in order; the first refusal ends it. */
  function Admitting(ws: L.Windows, capacity: nat, r: Request): (L.Windows, L.Answer) {
    var (ws1, a1) := Use(ws, capacity, r.now, START_SOURCE, r.source);
    if a1.Refused? then (ws1, a1)
    else
      var (ws2, a2) := Use(ws1, capacity, r.now, RESEND, r.email);
      if a2.Refused? then (ws2, a2) else Use(ws2, capacity, r.now, START_EMAIL, r.email)
  }

  function Starting(ws: L.Windows, capacity: nat, open: C.Challenges, r: Request): (L.Windows, C.Challenges, StartOutcome) {
    if !IsDeliverable(r.email) then (ws, open, InvalidEmail)
    else
      var (ws', a) := Admitting(ws, capacity, r);
      if a.Refused? then (ws', open, RateLimited(a.retryAfterMs))
      else
        var (open', issue) := C.Issuing(open, LIMITS.capacity, ChallengeOf(r));
        (ws', open', if issue.AtCapacity? then Busy else Minted(issue.challenge))
  }

  function Presented(code: O.Units): O.Units { if O.IsOtpShape(code) then code else [] }

  function Verifying(ws: L.Windows, capacity: nat, open: C.Challenges, now: int, source: string, id: string,
                     code: O.Units): (L.Windows, C.Challenges, TryOutcome) {
    var (ws', a) := Use(ws, capacity, now, VERIFY_SOURCE, source);
    if a.Refused? then (ws', open, Throttled(a.retryAfterMs))
    else
      var (open', attempt) := C.Attempting(open, LIMITS.max, id, Presented(code), now);
      (ws', open', Answered(attempt))
  }

  /** What a success gives back: the address's cooldown and its budget of sends. */
  function Settling(ws: L.Windows, email: string): L.Windows { ws - {L.Key(RESEND, email)} - {L.Key(START_EMAIL, email)} }

  /** The second half of `verify`. Whether the account resolves and the session is issued is decided
      in other tables. */
  function Completing(ws: L.Windows, first: TryOutcome, resolves: bool, issues: bool): (L.Windows, VerifyOutcome) {
    match first
    case Throttled(ms) => (ws, NotVerified(TooManyRequests, None, Some(ms)))
    case Answered(Unknown) => (ws, NotVerified(CodeExpired, None, None))
    case Answered(Expired) => (ws, NotVerified(CodeExpired, None, None))
    case Answered(Exhausted) => (ws, NotVerified(AttemptsExhausted, Some(0), None))
    case Answered(Mismatch(n)) => (ws, NotVerified(InvalidCode, Some(n), None))
    case Answered(Verified(c)) =>
      if !c.purpose.SignIn? then (ws, NotVerified(CodeExpired, None, None))
      else if !resolves || !issues then (ws, NotVerified(Unavailable, None, None))
      else (Settling(ws, c.email), SignedIn(c.email))
  }

  /** The second half of `completeLink`, for a principal of `account`. */
  function CompletingLink(ws: L.Windows, first: TryOutcome, account: string, attaches: bool): (L.Windows, LinkOutcome) {
    if first.Throttled? || !first.attempt.Verified? then (ws, NotLinked)
    else
      var c := first.attempt.challenge;
      if !c.purpose.Link? || c.account != Some(account) || !attaches then (ws, NotLinked)
      else (Settling(ws, c.email), Linked(account, c.email))
  }

  class EmailAuthService {
    const limiter: L.MemoryRateLimiter
    const challenges: C.MemoryOtpChallengeStore

    constructor (limiter: L.MemoryRateLimiter, challenges: C.MemoryOtpChallengeStore)
      ensures this.limiter == limiter && this.challenges == challenges
    {
      this.limiter, this.challenges := limiter, challenges;
    }

    /** Up to the hand-over to the mail transport. `r.email` is the normalised address. */
    method Start(r: Request) returns (outcome: StartOutcome)
      requires challenges.capacity == LIMITS.capacity
      modifies limiter, challenges
      ensures (limiter.windows, challenges.challenges, outcome)
           == Starting(old(limiter.windows), limiter.capacity, old(challenges.challenges), r)
    {
      if !IsDeliverable(r.email) { return InvalidEmail; }
      var perSource := limiter.Consume(r.now, L.Key(START_SOURCE, r.source), RuleOf(START_SOURCE));
      if perSource.Refused? { return RateLimited(perSource.retryAfterMs); }
      var cooldown := limiter.Consume(r.now, L.Key(RESEND, r.email), RuleOf(RESEND));
      if cooldown.Refused? { return RateLimited(cooldown.retryAfterMs); }
      var perEmail := limiter.Consume(r.now, L.Key(START_EMAIL, r.email), RuleOf(START_EMAIL));
      if perEmail.Refused? { return RateLimited(perEmail.retryAfterMs); }
      var issued := challenges.Issue(ChallengeOf(r));
      if issued.AtCapacity? { return Busy; }
      outcome := Minted(issued.challenge);
    }

    /** The limiter, then one counted attempt. */
    method Try(now: int, source: string, id: string, code: O.Units) returns (outcome: TryOutcome)
      requires challenges.maxAttempts == LIMITS.max
      modifies limiter, challenges
      ensures (limiter.windows, challenges.challenges, outcome)
           == Verifying(old(limiter.windows), limiter.capacity, old(challenges.challenges), now, source, id, code)
    {
      var perSource := limiter.Consume(now, L.Key(VERIFY_SOURCE, source), RuleOf(VERIFY_SOURCE));
      if perSource.Refused? { return Throttled(perSource.retryAfterMs); }
      var attempt := challenges.Attempt(id, Presented(code), now);
      outcome := Answered(attempt);
    }

    method Verify(now: int, source: string, id: string, code: O.Units, resolves: bool, issues: bool)
      returns (outcome: VerifyOutcome)
      requires challenges.maxAttempts == LIMITS.max
      modifies limiter, challenges
      ensures var (ws, open, first) :=
                Verifying(old(limiter.windows), limiter.capacity, old(challenges.challenges), now, source, id, code);
        challenges.challenges == open && (limiter.windows, outcome) == Completing(ws, first, resolves, issues)
    {
      var first := Try(now, source, id, code);
      if first.Throttled? { return NotVerified(TooManyRequests, None, Some(first.retryAfterMs)); }
      match first.attempt {
        case Unknown => return NotVerified(CodeExpired, None, None);
        case Expired => return NotVerified(CodeExpired, None, None);
        case Exhausted => return NotVerified(AttemptsExhausted, Some(0), None);
        case Mismatch(n) => return NotVerified(InvalidCode, Some(n), None);
        case Verified(challenge) =>
          if challenge.purpose != C.SignIn { return NotVerified(CodeExpired, None, None); }
          if !resolves || !issues { return NotVerified(Unavailable, None, None); }
          Settle(challenge.email);
          outcome := SignedIn(challenge.email);
      }
    }

    method CompleteLink(now: int, source: string, id: string, code: O.Units, account: string, attaches: bool)
      returns (outcome: LinkOutcome)
      requires challenges.maxAttempts == LIMITS.max
      modifies limiter, challenges
      ensures var (ws, open, first) :=
                Verifying(old(limiter.windows), limiter.capacity, old(challenges.challenges), now, source, id, code);
        challenges.challenges == open && (limiter.windows, outcome) == CompletingLink(ws, first, account, attaches)
    {
      var first := Try(now, source, id, code);
      if first.Throttled? || !first.attempt.Verified? { return NotLinked; }
      var challenge := first.attempt.challenge;
      if challenge.purpose != C.Link { return NotLinked; }
      if challenge.account != Some(account) { return NotLinked; }
      if !attaches { return NotLinked; }
      Settle(challenge.email);
      outcome := Linked(account, challenge.email);
    }

    /** A completed sign-in or link gives the address its allowance back. */
    method Settle(email: string)
      modifies limiter
      ensures limiter.windows == Settling(old(limiter.windows), email)
    {
      limiter.Reset(L.Key(RESEND, email));
      limiter.Reset(L.Key(START_EMAIL, email));
    }
  }

  // ---- when a code signs in, and when it links ----

  /** The challenge is open, in time, and this is its code. */
  ghost predicate RightCode(open: C.Challenges, id: string, code: O.Units, now: int) {
    id in open && open[id].expiresAt > now && code == open[id].code && O.IsOtpShape(code)
  }

  lemma TriedExactly(ms: seq<C.Moment>, ops: seq<C.Op>, n: nat, ws: L.Windows, capacity: nat, now: int,
                     source: string, id: string, code: O.Units)
    requires C.IsRun(ms, ops, LIMITS) && n <= |ops|
    ensures var (_, open', first) := Verifying(ws, capacity, ms[n].open, now, source, id, code);
      && (first.Answered? && first.attempt.Verified?
          <==> Use(ws, capacity, now, VERIFY_SOURCE, source).1.Allowed? && RightCode(ms[n].open, id, code, now))
      && (first.Answered? && first.attempt.Verified? ==>
            && id !in open' && first.attempt.challenge.email == ms[n].open[id].email
            && first.attempt.challenge.purpose == ms[n].open[id].purpose
            && first.attempt.challenge.account == ms[n].open[id].account)
  {
    C.RunIsGood(ms, ops, LIMITS, n);
    assert C.TallyOf(ms[n], LIMITS.max, id);
  }

  /** In any state of the store a run reaches: a code signs in exactly when the source is within its
      limit, it is the right one for a challenge still open that was started for a sign-in, and account
      and session are had; a link code never does. Right or wrong for the flow, it is spent. */
  lemma SignsInExactly(ms: seq<C.Moment>, ops: seq<C.Op>, n: nat, ws: L.Windows, capacity: nat, now: int,
                       source: string, id: string, code: O.Units, resolves: bool, issues: bool, email: string)
    requires C.IsRun(ms, ops, LIMITS) && n <= |ops|
    ensures var (ws', open', first) := Verifying(ws, capacity, ms[n].open, now, source, id, code);
      && (Completing(ws', first, resolves, issues).1 == SignedIn(email)
          <==> Use(ws, capacity, now, VERIFY_SOURCE, source).1.Allowed? && RightCode(ms[n].open, id, code, now)
               && ms[n].open[id].purpose.SignIn? && ms[n].open[id].email == email && resolves && issues)
      && (Use(ws, capacity, now, VERIFY_SOURCE, source).1.Allowed? && RightCode(ms[n].open, id, code, now) ==> id !in open')
  {
    TriedExactly(ms, ops, n, ws, capacity, now, source, id, code);
  }

  /** And it links exactly when it was started for a link by the same account. */
  lemma LinksExactly(ms: seq<C.Moment>, ops: seq<C.Op>, n: nat, ws: L.Windows, capacity: nat, now: int,
                     source: string, id: string, code: O.Units, account: string, attaches: bool, email: string)
    requires C.IsRun(ms, ops, LIMITS) && n <= |ops|
    ensures var (ws', _, first) := Verifying(ws, capacity, ms[n].open, now, source, id, code);
      CompletingLink(ws', first, account, attaches).1 == Linked(account, email)
      <==> Use(ws, capacity, now, VERIFY_SOURCE, source).1.Allowed? && RightCode(ms[n].open, id, code, now)
           && ms[n].open[id].purpose.Link? && ms[n].open[id].account == Some(account)
           && ms[n].open[id].email == email && attaches
  {
    TriedExactly(ms, ops, n, ws, capacity, now, source, id, code);
  }

  // ---- runs, watched for one address ----

  datatype Event =
    | Started(r: Request)
    | Verified(now: int, source: string, id: string, code: O.Units)
    | Undelivered(now: int, id: string)
    | Swept(now: int)
    | Settled(now: int, email: string)

  function TimeOf(e: Event): int { if e.Started? then e.r.now else e.now }

  /** The limiter's counters and what they permitted the watched address: cooldowns and sends. */
  datatype Book = Book(ws: L.Windows, cool: seq<L.Stamp>, sends: seq<L.Stamp>)

  /** `ids` names the code of each send. */
  datatype Desk = Desk(book: Book, codes: C.Moment, ids: seq<string>)

  function CoolKey(who: string): L.Key { L.Key(RESEND, who) }
  function SendKey(who: string): L.Key { L.Key(START_EMAIL, who) }

  /** One use of the limiter, entered in the book. */
  function Entered(b: Book, capacity: nat, now: int, bucket: string, name: string, who: string): Book {
    var key := L.Key(bucket, name);
    Book(Use(b.ws, capacity, now, bucket, name).0,
         L.Recorded(b.ws, capacity, b.cool, now, key, RuleOf(bucket), CoolKey(who)),
         L.Recorded(b.ws, capacity, b.sends, now, key, RuleOf(bucket), SendKey(who)))
  }

  function Admitted(b: Book, capacity: nat, r: Request, who: string): Book {
    var b1 := Entered(b, capacity, r.now, START_SOURCE, r.source, who);
    if Use(b.ws, capacity, r.now, START_SOURCE, r.source).1.Refused? then b1
    else
      var b2 := Entered(b1, capacity, r.now, RESEND, r.email, who);
      if Use(b1.ws, capacity, r.now, RESEND, r.email).1.Refused? then b2
      else Entered(b2, capacity, r.now, START_EMAIL, r.email, who)
  }

  function After(d: Desk, capacity: nat, e: Event, who: string): Desk {
    match e
    case Started(r) =>
      if !IsDeliverable(r.email) then d
      else if Admitting(d.book.ws, capacity, r).1.Refused? then d.(book := Admitted(d.book, capacity, r, who))
      else Desk(Admitted(d.book, capacity, r, who), C.Step(d.codes, LIMITS, C.Start(ChallengeOf(r))),
                if r.email == who then d.ids + [r.id] else d.ids)
    case Verified(now, source, id, code) =>
      var b := Entered(d.book, capacity, now, VERIFY_SOURCE, source, who);
      if Use(d.book.ws, capacity, now, VERIFY_SOURCE, source).1.Refused? then d.(book := b)
      else d.(book := b, codes := C.Step(d.codes, LIMITS, C.Try(id, Presented(code), now)))
    case Undelivered(_, id) => d.(codes := C.Step(d.codes, LIMITS, C.Drop(id)))
    case Swept(now) => d.(codes := C.Step(d.codes, LIMITS, C.Sweep(now)))
    case Settled(_, email) => d.(book := d.book.(ws := d.book.ws - {CoolKey(email)} - {SendKey(email)}))
  }

  /** The watched desk runs the service's own operations. */
  lemma DeskIsTheService(d: Desk, capacity: nat, e: Event, who: string)
    requires e.Started? || e.Verified?
    ensures var d' := After(d, capacity, e, who);
      if e.Started? then
        var (ws, open, _) := Starting(d.book.ws, capacity, d.codes.open, e.r);
        d'.book.ws == ws && d'.codes.open == open
      else
        var (ws, open, _) := Verifying(d.book.ws, capacity, d.codes.open, e.now, e.source, e.id, e.code);
        d'.book.ws == ws && d'.codes.open == open
  {
  }

  // ---- the limits ----

  ghost predicate BookOk(b: Book, who: string, clock: int) {
    && L.Remembers(L.CounterAt(b.ws, CoolKey(who)), b.cool, RuleOf(RESEND), clock)
    && L.Remembers(L.CounterAt(b.ws, SendKey(who)), b.sends, RuleOf(START_EMAIL), clock)
  }

  lemma EnteredOk(b: Book, capacity: nat, clock: int, now: int, bucket: string, name: string, who: string)
    requires BookOk(b, who, clock) && clock <= now
    ensures BookOk(Entered(b, capacity, now, bucket, name, who), who, now)
  {
    BucketsDiffer();
    L.ConsumeRemembers(b.ws, capacity, b.cool, clock, now, L.Key(bucket, name), RuleOf(bucket), CoolKey(who), RuleOf(RESEND));
    L.ConsumeRemembers(b.ws, capacity, b.sends, clock, now, L.Key(bucket, name), RuleOf(bucket), SendKey(who), RuleOf(START_EMAIL));
  }

  /** What one use adds to the two histories. */
  lemma EnteredAdds(b: Book, capacity: nat, now: int, bucket: string, name: string, who: string)
    ensures var b', ok := Entered(b, capacity, now, bucket, name, who), Use(b.ws, capacity, now, bucket, name).1.Allowed?;
      && Grows(b.cool, b'.cool, now, ok && bucket == RESEND && name == who)
      && Grows(b.sends, b'.sends, now, ok && bucket == START_EMAIL && name == who)
  {
  }

  ghost predicate Grows(h: seq<L.Stamp>, h': seq<L.Stamp>, now: int, more: bool) {
    if more then |h'| == |h| + 1 && h'[..|h|] == h && h'[|h|].at == now else h' == h
  }

  /** Sends keep the distance of the cooldown, because each comes right after one. */
  ghost predicate Spaced(b: Book) {
    && (forall i, j | 0 <= i < j < |b.sends| :: b.sends[j].at - b.sends[i].at >= 30 * 1000)
    && (forall i | 0 <= i < |b.sends| :: Marks(b.cool, b.sends[i].at))
  }

  ghost predicate Marks(h: seq<L.Stamp>, at: int) { exists k | 0 <= k < |h| :: h[k].at == at }

  lemma CoolKeepsSpaced(b: Book, b': Book, now: int, more: bool)
    requires Spaced(b) && b'.sends == b.sends && Grows(b.cool, b'.cool, now, more)
    ensures Spaced(b')
  {
    forall i | 0 <= i < |b'.sends| ensures Marks(b'.cool, b'.sends[i].at) {
      assert Marks(b.cool, b.sends[i].at);
      var k :| 0 <= k < |b.cool| && b.cool[k].at == b.sends[i].at;
      assert b'.cool[k] == b.cool[k];
    }
  }

  /** A send right after the cooldown let it through is far from all earlier ones. */
  lemma SendKeepsSpaced(before: Book, b: Book, b': Book, now: int)
    requires Spaced(before) && b.sends == before.sends && Grows(before.cool, b.cool, now, true)
    requires b'.cool == b.cool && Grows(b.sends, b'.sends, now, true)
    requires L.Windowed(b.cool, RuleOf(RESEND))
    ensures Spaced(b')
  {
    var n := |before.cool|;
    forall i | 0 <= i < |b.sends| ensures now - b.sends[i].at >= 30 * 1000 && Marks(b.cool, b.sends[i].at) {
      assert Marks(before.cool, before.sends[i].at);
      var k :| 0 <= k < n && before.cool[k].at == b.sends[i].at;
      assert b.cool[..n][k] == b.cool[k];
      ResendIsACooldown(b.cool, k, n);
    }
    assert Marks(b.cool, now) by { assert b.cool[n].at == now; }
    forall i | 0 <= i < |b.sends| ensures b'.sends[i] == b.sends[i] {
      assert b'.sends[..|b.sends|][i] == b'.sends[i];
    }
  }

  lemma ResendIsACooldown(h: seq<L.Stamp>, i: nat, j: nat)
    requires L.Windowed(h, RuleOf(RESEND)) && i < j < |h|
    ensures h[j].at - h[i].at >= 30 * 1000
  {
    BucketsDiffer();
    L.OneIsACooldown(h, RuleOf(RESEND), i, j);
  }

  lemma AdmittedOk(b: Book, capacity: nat, clock: int, r: Request, who: string)
    requires BookOk(b, who, clock) && Spaced(b) && clock <= r.now
    ensures var b' := Admitted(b, capacity, r, who);
      && BookOk(b', who, r.now) && Spaced(b')
      && Grows(b.sends, b'.sends, r.now, Admitting(b.ws, capacity, r).1.Allowed? && r.email == who)
  {
    BucketsDiffer();
    var b1 := Entered(b, capacity, r.now, START_SOURCE, r.source, who);
    EnteredOk(b, capacity, clock, r.now, START_SOURCE, r.source, who);
    EnteredAdds(b, capacity, r.now, START_SOURCE, r.source, who);
    if Use(b.ws, capacity, r.now, START_SOURCE, r.source).1.Allowed? {
      EmailLimitsOk(b1, capacity, r, who);
    }
  }

  lemma EmailLimitsOk(b1: Book, capacity: nat, r: Request, who: string)
    requires BookOk(b1, who, r.now) && Spaced(b1)
    ensures var b2 := Entered(b1, capacity, r.now, RESEND, r.email, who);
      var b3 := Entered(b2, capacity, r.now, START_EMAIL, r.email, who);
      var a2, a3 := Use(b1.ws, capacity, r.now, RESEND, r.email).1, Use(b2.ws, capacity, r.now, START_EMAIL, r.email).1;
      && BookOk(b2, who, r.now) && Spaced(b2) && b2.sends == b1.sends
      && (a2.Allowed? ==> BookOk(b3, who, r.now) && Spaced(b3)
                          && Grows(b1.sends, b3.sends, r.now, a3.Allowed? && r.email == who))
  {
    BucketsDiffer();
    var b2 := Entered(b1, capacity, r.now, RESEND, r.email, who);
    EnteredOk(b1, capacity, r.now, r.now, RESEND, r.email, who);
    EnteredAdds(b1, capacity, r.now, RESEND, r.email, who);
    CoolKeepsSpaced(b1, b2, r.now, Use(b1.ws, capacity, r.now, RESEND, r.email).1.Allowed? && r.email == who);
    if Use(b1.ws, capacity, r.now, RESEND, r.email).1.Allowed? {
      var b3 := Entered(b2, capacity, r.now, START_EMAIL, r.email, who);
      EnteredOk(b2, capacity, r.now, r.now, START_EMAIL, r.email, who);
      EnteredAdds(b2, capacity, r.now, START_EMAIL, r.email, who);
      if Use(b2.ws, capacity, r.now, START_EMAIL, r.email).1.Allowed? && r.email == who {
        SendKeepsSpaced(b1, b2, b3, r.now);
      }
    }
  }

  // ---- the challenges ----

  /** Every code of the address has its own id, and the store knows when it was sent. */
  ghost predicate Paired(d: Desk) {
    && |d.ids| == |d.book.sends|
    && (forall i | 0 <= i < |d.ids| :: d.ids[i] in d.codes.used)
    && (forall i, j | 0 <= i < j < |d.ids| :: d.ids[i] != d.ids[j])
  }

  ghost predicate OpenTimed(d: Desk, clock: int)
    requires |d.ids| == |d.book.sends|
  {
    forall i, id | 0 <= i < |d.ids| && id in d.codes.open && id == d.ids[i] ::
      && d.book.sends[i].at <= clock
      && d.codes.open[id].expiresAt == d.book.sends[i].at + OTP_TTL
  }

  predicate InLife(at: int, sent: int) { sent <= at < sent + OTP_TTL }

  ghost predicate LogTimed(log: seq<C.Tried>, used: set<string>, ids: seq<string>, sends: seq<L.Stamp>)
    requires |ids| == |sends|
  {
    && (forall k | 0 <= k < |log| && C.Counted(log[k].outcome) :: log[k].id in used)
    && (forall k, i | 0 <= k < |log| && 0 <= i < |ids| && C.Counted(log[k].outcome) && log[k].id == ids[i] ::
          InLife(log[k].at, sends[i].at))
  }

  ghost predicate Ok(d: Desk, who: string, clock: int) {
    && BookOk(d.book, who, clock) && Spaced(d.book)
    && C.Good(d.codes, LIMITS)
    && Paired(d) && OpenTimed(d, clock)
    && LogTimed(d.codes.log, d.codes.used, d.ids, d.book.sends)
  }

  predicate Enabled(d: Desk, e: Event, who: string) {
    && (e.Started? ==> e.r.id !in d.codes.used)
    && (e.Settled? ==> e.email != who)
  }

  lemma StartedOk(d: Desk, capacity: nat, r: Request, who: string, clock: int)
    requires Ok(d, who, clock) && clock <= r.now && r.id !in d.codes.used
    ensures Ok(After(d, capacity, Started(r), who), who, r.now)
  {
    var d' := After(d, capacity, Started(r), who);
    if !IsDeliverable(r.email) {
    } else {
      AdmittedOk(d.book, capacity, clock, r, who);
      if Admitting(d.book.ws, capacity, r).1.Allowed? {
        C.StepKeepsGood(d.codes, LIMITS, C.Start(ChallengeOf(r)));
        forall id | id in d.codes.open ensures id in d.codes.used { assert C.TallyOf(d.codes, LIMITS.max, id); }
        IssuedOk(d, d', r, who, clock);
      }
    }
  }

  lemma IssuedOk(d: Desk, d': Desk, r: Request, who: string, clock: int)
    requires Paired(d) && OpenTimed(d, clock) && clock <= r.now && r.id !in d.codes.used
    requires LogTimed(d.codes.log, d.codes.used, d.ids, d.book.sends)
    requires d.codes.open.Keys <= d.codes.used
    requires d'.codes == C.Step(d.codes, LIMITS, C.Start(ChallengeOf(r)))
    requires Grows(d.book.sends, d'.book.sends, r.now, r.email == who)
    requires d'.ids == if r.email == who then d.ids + [r.id] else d.ids
    ensures Paired(d') && OpenTimed(d', r.now)
    ensures LogTimed(d'.codes.log, d'.codes.used, d'.ids, d'.book.sends)
  {
    assert Paired(d');
    IssuedLog(d, d', r);
  }

  /** The sends so far, and perhaps one more under the new id. */
  ghost predicate Follows(d: Desk, d': Desk, r: Request) {
    && |d.ids| == |d.book.sends| <= |d'.ids| == |d'.book.sends| <= |d.ids| + 1
    && (forall i | 0 <= i < |d.ids| :: d'.ids[i] == d.ids[i] && d'.book.sends[i].at == d.book.sends[i].at)
    && (|d'.ids| > |d.ids| ==> d'.ids[|d.ids|] == r.id && d'.book.sends[|d.ids|].at == r.now)
  }

  lemma IssuedLog(d: Desk, d': Desk, r: Request)
    requires Paired(d) && Follows(d, d', r) && r.id !in d.codes.used
    requires LogTimed(d.codes.log, d.codes.used, d.ids, d.book.sends)
    requires d'.codes.log == d.codes.log && d'.codes.used == d.codes.used + {r.id}
    ensures LogTimed(d'.codes.log, d'.codes.used, d'.ids, d'.book.sends)
  {
  }

  lemma VerifiedOk(d: Desk, capacity: nat, e: Event, who: string, clock: int)
    requires e.Verified? && Ok(d, who, clock) && clock <= e.now
    ensures Ok(After(d, capacity, e, who), who, e.now)
  {
    BucketsDiffer();
    var d' := After(d, capacity, e, who);
    EnteredOk(d.book, capacity, clock, e.now, VERIFY_SOURCE, e.source, who);
    EnteredAdds(d.book, capacity, e.now, VERIFY_SOURCE, e.source, who);
    assert Spaced(d'.book);
    if Use(d.book.ws, capacity, e.now, VERIFY_SOURCE, e.source).1.Allowed? {
      C.StepKeepsGood(d.codes, LIMITS, C.Try(e.id, Presented(e.code), e.now));
      TriedOk(d, d', e.id, Presented(e.code), e.now, clock);
    }
  }

  lemma TriedOk(d: Desk, d': Desk, id: string, code: O.Units, now: int, clock: int)
    requires Paired(d) && OpenTimed(d, clock) && clock <= now
    requires LogTimed(d.codes.log, d.codes.used, d.ids, d.book.sends)
    requires C.Good(d.codes, LIMITS)
    requires d'.codes == C.Step(d.codes, LIMITS, C.Try(id, code, now))
    requires d'.book.sends == d.book.sends && d'.ids == d.ids
    ensures Paired(d') && OpenTimed(d', now)
    ensures LogTimed(d'.codes.log, d'.codes.used, d'.ids, d'.book.sends)
  {
    assert C.TallyOf(d.codes, LIMITS.max, id);
  }

  lemma DroppedOk(d: Desk, op: C.Op, who: string, clock: int, now: int)
    requires Ok(d, who, clock) && clock <= now && (op.Drop? || op.Sweep?)
    ensures Ok(d.(codes := C.Step(d.codes, LIMITS, op)), who, now)
  {
    C.StepKeepsGood(d.codes, LIMITS, op);
  }

  lemma StepKeepsOk(d: Desk, capacity: nat, e: Event, who: string, clock: int)
    requires Ok(d, who, clock) && clock <= TimeOf(e) && Enabled(d, e, who)
    ensures Ok(After(d, capacity, e, who), who, TimeOf(e))
  {
    match e {
      case Started(r) => StartedOk(d, capacity, r, who, clock);
      case Verified(_, _, _, _) => VerifiedOk(d, capacity, e, who, clock);
      case Undelivered(now, id) => DroppedOk(d, C.Drop(id), who, clock, now);
      case Swept(now) => DroppedOk(d, C.Sweep(now), who, clock, now);
      case Settled(now, email) =>
    }
  }

  // ---- the bound ----

  /** Attempts in `[lo, hi]` that reached the comparison, on the challenges named. */
  function TriesBetween(log: seq<C.Tried>, ids: seq<string>, lo: int, hi: int): nat {
    if log == [] then 0
    else
      var t := log[|log| - 1];
      TriesBetween(log[..|log| - 1], ids, lo, hi)
      + if t.id in ids && lo <= t.at <= hi && C.Counted(t.outcome) then 1 else 0
  }

  lemma {:induction false} OneMoreId(log: seq<C.Tried>, ids: seq<string>, id: string, lo: int, hi: int)
    ensures TriesBetween(log, ids + [id], lo, hi) <= TriesBetween(log, ids, lo, hi) + TriesBetween(log, [id], lo, hi)
  {
    if log != [] { OneMoreId(log[..|log| - 1], ids, id, lo, hi); }
  }

  lemma {:induction false} NoIds(log: seq<C.Tried>, lo: int, hi: int)
    ensures TriesBetween(log, [], lo, hi) == 0
  {
    if log != [] { NoIds(log[..|log| - 1], lo, hi); }
  }

  lemma {:induction false} AtMostAll(log: seq<C.Tried>, id: string, lo: int, hi: int)
    ensures TriesBetween(log, [id], lo, hi) <= C.Tries(log, id)
  {
    if log != [] { AtMostAll(log[..|log| - 1], id, lo, hi); }
  }

  lemma {:induction false} NoneInLife(log: seq<C.Tried>, id: string, sent: int, lo: int, hi: int)
    requires forall k | 0 <= k < |log| && C.Counted(log[k].outcome) && log[k].id == id :: InLife(log[k].at, sent)
    requires !(lo - OTP_TTL + 1 <= sent <= hi)
    ensures TriesBetween(log, [id], lo, hi) == 0
  {
    if log != [] { NoneInLife(log[..|log| - 1], id, sent, lo, hi); }
  }

  /** A code can be tried five times, and only in the ten minutes after it was sent. */
  lemma {:induction false} FivePerSend(log: seq<C.Tried>, used: set<string>, ids: seq<string>, sends: seq<L.Stamp>, lo: int, hi: int)
    requires |ids| == |sends| && LogTimed(log, used, ids, sends)
    requires forall id :: C.Tries(log, id) <= 5
    ensures TriesBetween(log, ids, lo, hi) <= 5 * L.During(sends, lo - OTP_TTL + 1, hi)
    decreases |ids|
  {
    var n := |ids|;
    if n == 0 {
      NoIds(log, lo, hi);
    } else {
      FivePerSend(log, used, ids[..n - 1], sends[..n - 1], lo, hi);
      assert ids == ids[..n - 1] + [ids[n - 1]];
      OneMoreId(log, ids[..n - 1], ids[n - 1], lo, hi);
      AtMostAll(log, ids[n - 1], lo, hi);
      if !(lo - OTP_TTL + 1 <= sends[n - 1].at <= hi) {
        NoneInLife(log, ids[n - 1], sends[n - 1].at, lo, hi);
      }
    }
  }

  // ---- over runs ----

  ghost predicate IsRun(ds: seq<Desk>, es: seq<Event>, capacity: nat, who: string) {
    && |ds| == |es| + 1
    && ds[0] == Desk(Book(map[], [], []), C.Moment(map[], {}, []), [])
    && (forall i | 0 <= i < |es| :: Steps(ds, es, capacity, who, i))
  }

  /** Event `i` leads to the next desk, and the clock does not go back. */
  ghost predicate Steps(ds: seq<Desk>, es: seq<Event>, capacity: nat, who: string, i: nat)
    requires |ds| == |es| + 1 && i < |es|
  {
    Enabled(ds[i], es[i], who) && ds[i + 1] == After(ds[i], capacity, es[i], who) && Clock(es, i) <= TimeOf(es[i])
  }

  function Clock(es: seq<Event>, n: nat): int
    requires n <= |es|
  {
    if n == 0 then (if es == [] then 0 else TimeOf(es[0])) else TimeOf(es[n - 1])
  }

  lemma {:induction false} RunIsOk(ds: seq<Desk>, es: seq<Event>, capacity: nat, who: string, n: nat)
    requires IsRun(ds, es, capacity, who) && n <= |es|
    ensures Ok(ds[n], who, Clock(es, n))
  {
    if n == 0 {
    } else {
      RunIsOk(ds, es, capacity, who, n - 1);
      assert Steps(ds, es, capacity, who, n - 1);
      StepKeepsOk(ds[n - 1], capacity, es[n - 1], who, Clock(es, n - 1));
    }
  }

  /** In a run where the address is not settled: its codes are half a minute apart, no two of them
      are open together, and no stretch of twenty minutes (a quarter of an hour included) sees more
      than 75 attempts on them. */
  lemma AddressIsProtected(ds: seq<Desk>, es: seq<Event>, capacity: nat, who: string, n: nat, lo: int, hi: int)
    requires IsRun(ds, es, capacity, who) && n <= |es| && hi - lo <= 20 * MINUTE
    ensures var d := ds[n];
      && (forall i, j | 0 <= i < j < |d.book.sends| :: d.book.sends[j].at - d.book.sends[i].at >= 30 * 1000)
      && (forall a, b | a in d.codes.open && b in d.codes.open
                        && d.codes.open[a].email == who && d.codes.open[b].email == who :: a == b)
      && TriesBetween(d.codes.log, d.ids, lo, hi) <= 75
  {
    RunIsOk(ds, es, capacity, who, n);
    TryBound(ds[n], who, Clock(es, n), lo, hi);
  }

  lemma TryBound(d: Desk, who: string, clock: int, lo: int, hi: int)
    requires Ok(d, who, clock) && hi - lo <= 20 * MINUTE
    ensures TriesBetween(d.codes.log, d.ids, lo, hi) <= 75
  {
    forall id ensures C.Tries(d.codes.log, id) <= 5 { assert C.TallyOf(d.codes, LIMITS.max, id); }
    FivePerSend(d.codes.log, d.codes.used, d.ids, d.book.sends, lo, hi);
    L.IntervalBound(d.book.sends, RuleOf(START_EMAIL), lo - OTP_TTL + 1, hi, 2);
  }
}
