/** The transient store of in-flight email codes: at most one open challenge an address, a bounded
    number in all, and no more tries at any of them than allowed. */
module OtpStore {
  import opened Store
  import opened Otp

  datatype Purpose = SignIn | Link

  datatype Challenge = Challenge(
    id: string, email: string, purpose: Purpose, account: Option<string>, code: Units,
    issuedAt: int, expiresAt: int, attempts: int)

  /** A challenge without its code: all that ever leaves the store. */
  datatype View = View(
    id: string, email: string, purpose: Purpose, account: Option<string>,
    issuedAt: int, expiresAt: int, attempts: int)

  type Challenges = map<string, Challenge>

  datatype Issue = Issued(challenge: View) | AtCapacity

  datatype Attempt = Unknown | Expired | Exhausted | Mismatch(remaining: int) | Verified(challenge: View)

  function ViewOf(c: Challenge): View {
    View(c.id, c.email, c.purpose, c.account, c.issuedAt, c.expiresAt, c.attempts)
  }

  // ---- what the operations do ----

  function Live(open: Challenges, now: int): Challenges {
    map id | id in open && open[id].expiresAt > now :: open[id]
  }

  function Without(open: Challenges, email: string): Challenges {
    map id | id in open && open[id].email != email :: open[id]
  }

  function Issuing(open: Challenges, capacity: nat, c: Challenge): (Challenges, Issue) {
    var left := Without(Live(open, c.issuedAt), c.email);
    if |left| >= capacity then (left, AtCapacity) else (left[c.id := c], Issued(ViewOf(c)))
  }

  predicate Right(presented: Units, c: Challenge) { presented == c.code && IsOtpShape(c.code) }

  function Attempting(open: Challenges, max: nat, id: string, code: Units, now: int): (Challenges, Attempt) {
    if id !in open then (open, Unknown)
    else
      var c := open[id];
      if c.expiresAt <= now then (open - {id}, Expired)
      else if c.attempts + 1 > max then (open - {id}, Exhausted)
      else if Right(code, c) then (open - {id}, Verified(ViewOf(c.(attempts := c.attempts + 1))))
      else if max - (c.attempts + 1) <= 0 then (open - {id}, Exhausted)
      else (open[id := c.(attempts := c.attempts + 1)], Mismatch(max - (c.attempts + 1)))
  }

  class MemoryOtpChallengeStore {
    const maxAttempts: nat
    const capacity: nat
    var challenges: Challenges

    constructor (maxAttempts: nat, capacity: nat)
      ensures this.maxAttempts == maxAttempts && this.capacity == capacity && challenges == map[]
    {
      this.maxAttempts, this.capacity, challenges := maxAttempts, capacity, map[];
    }

    method Issue(challenge: Challenge) returns (outcome: Issue)
      modifies this
      ensures (challenges, outcome) == Issuing(old(challenges), capacity, challenge)
    {
      var _ := PruneExpired(challenge.issuedAt);
      ghost var live := challenges;
      var rest := challenges.Keys;
      while rest != {}
        invariant rest <= challenges.Keys <= live.Keys
        invariant forall k | k in challenges :: challenges[k] == live[k]
        invariant forall k | k in live && k !in rest :: k in challenges <==> live[k].email != challenge.email
        decreases rest
      {
        var id :| id in rest;
        if challenges[id].email == challenge.email { challenges := challenges - {id}; }
        rest := rest - {id};
      }
      assert challenges == Without(live, challenge.email);
      if |challenges| >= capacity { return AtCapacity; }
      challenges := challenges[challenge.id := challenge];
      outcome := Issued(ViewOf(challenge));
    }

    method Attempt(id: string, code: Units, now: int) returns (outcome: Attempt)
      modifies this
      ensures (challenges, outcome) == Attempting(old(challenges), maxAttempts, id, code, now)
    {
      if id !in challenges { return Unknown; }
      var challenge := challenges[id];
      if challenge.expiresAt <= now {
        challenges := challenges - {id};
        return Expired;
      }
      var attempts := challenge.attempts + 1;
      if attempts > maxAttempts {
        challenges := challenges - {id};
        return Exhausted;
      }
      var matches := OtpMatches(code, challenge.code);
      if !matches {
        var remaining := maxAttempts - attempts;
        if remaining <= 0 {
          challenges := challenges - {id};
          return Exhausted;
        }
        challenges := challenges[id := challenge.(attempts := attempts)];
        return Mismatch(remaining);
      }
      challenges := challenges - {id};
      outcome := Verified(ViewOf(challenge.(attempts := attempts)));
    }

    method Discard(id: string)
      modifies this
      ensures challenges == old(challenges) - {id}
    {
      challenges := challenges - {id};
    }

    method PruneExpired(now: int) returns (removed: nat)
      modifies this
      ensures challenges == Live(old(challenges), now)
      ensures removed == |old(challenges)| - |challenges|
    {
      removed := 0;
      var rest := challenges.Keys;
      while rest != {}
        invariant rest <= challenges.Keys <= old(challenges).Keys
        invariant forall k | k in challenges :: challenges[k] == old(challenges)[k]
        invariant forall k | k in old(challenges) && k !in rest :: k in challenges <==> old(challenges)[k].expiresAt > now
        invariant removed == |old(challenges)| - |challenges|
        decreases rest
      {
        var id :| id in rest;
        if challenges[id].expiresAt <= now {
          assert (challenges - {id}).Keys == challenges.Keys - {id};
          challenges := challenges - {id};
          removed := removed + 1;
        }
        rest := rest - {id};
      }
    }
  }

  // ---- runs ----

  datatype Op =
    | Start(challenge: Challenge)
    | Try(id: string, code: Units, now: int)
    | Drop(id: string)
    | Sweep(now: int)

  /** One answered attempt. */
  datatype Tried = Tried(id: string, at: int, outcome: Attempt)

  /** The store, every id it ever held, and every attempt it answered. */
  datatype Moment = Moment(open: Challenges, used: set<string>, log: seq<Tried>)

  datatype Limits = Limits(max: nat, capacity: nat)

  /** Challenges are issued with no attempts made and under an id never used before. */
  predicate Allowed(m: Moment, op: Op) {
    op.Start? ==> op.challenge.attempts == 0 && op.challenge.id !in m.used
  }

  function Step(m: Moment, limits: Limits, op: Op): Moment {
    match op
    case Start(c) => Moment(Issuing(m.open, limits.capacity, c).0, m.used + {c.id}, m.log)
    case Try(id, code, now) =>
      var (open', outcome) := Attempting(m.open, limits.max, id, code, now);
      Moment(open', m.used, m.log + [Tried(id, now, outcome)])
    case Drop(id) => m.(open := m.open - {id})
    case Sweep(now) => m.(open := Live(m.open, now))
  }

  /** An attempt that reached the comparison. */
  predicate Counted(o: Attempt) { o.Mismatch? || o.Exhausted? || o.Verified? }

  function Tries(log: seq<Tried>, id: string): nat {
    if log == [] then 0
    else Tries(log[..|log| - 1], id) + if log[|log| - 1].id == id && Counted(log[|log| - 1].outcome) then 1 else 0
  }

  function Successes(log: seq<Tried>, id: string): nat {
    if log == [] then 0
    else Successes(log[..|log| - 1], id) + if log[|log| - 1].id == id && log[|log| - 1].outcome.Verified? then 1 else 0
  }

  lemma AppendTries(log: seq<Tried>, t: Tried, id: string)
    ensures Tries(log + [t], id) == Tries(log, id) + if t.id == id && Counted(t.outcome) then 1 else 0
    ensures Successes(log + [t], id) == Successes(log, id) + if t.id == id && t.outcome.Verified? then 1 else 0
  {
    assert (log + [t])[..|log|] == log;
  }

  ghost predicate Distinct(open: Challenges) {
    && (forall id | id in open :: open[id].id == id)
    && (forall a, b | a in open && b in open && open[a].email == open[b].email :: a == b)
  }

  /** The counters of one id agree with its history. */
  ghost predicate TallyOf(m: Moment, max: nat, id: string) {
    && (id in m.open ==> id in m.used && m.open[id].attempts == Tries(m.log, id) < max && Successes(m.log, id) == 0)
    && Tries(m.log, id) <= max && Successes(m.log, id) <= 1
    && (id !in m.used ==> Tries(m.log, id) == 0 && Successes(m.log, id) == 0)
  }

  ghost predicate Tallied(m: Moment, max: nat) {
    forall id :: TallyOf(m, max, id)
  }

  ghost predicate Good(m: Moment, limits: Limits) {
    Distinct(m.open) && |m.open| <= limits.capacity && Tallied(m, limits.max)
  }

  lemma SubmapIsSmaller(a: Challenges, b: Challenges)
    requires a.Keys <= b.Keys
    ensures |a| <= |b|
  {
    assert b.Keys == a.Keys + (b.Keys - a.Keys);
  }

  lemma OneMoreIsCounted(left: Challenges, c: Challenge)
    ensures |left[c.id := c]| <= |left| + 1
  {
    assert left[c.id := c].Keys == left.Keys + {c.id};
  }

  lemma IssuingFits(open: Challenges, capacity: nat, c: Challenge)
    requires Distinct(open) && |open| <= capacity
    ensures Distinct(Issuing(open, capacity, c).0) && |Issuing(open, capacity, c).0| <= capacity
  {
    var left := Without(Live(open, c.issuedAt), c.email);
    ShrinkKeepsDistinct(open, left, capacity);
    if |left| < capacity {
      OneMoreIsCounted(left, c);
    }
  }

  /** Refusing for want of room costs nobody a live challenge, not even the address's own. */
  lemma AtCapacityRemovesNothingLive(open: Challenges, capacity: nat, c: Challenge)
    requires |open| <= capacity
    requires Issuing(open, capacity, c).1.AtCapacity?
    ensures Issuing(open, capacity, c).0 == Live(open, c.issuedAt) == open
  {
    var live := Live(open, c.issuedAt);
    var left := Without(live, c.email);
    SubmapIsSmaller(left, live);
    SubmapIsSmaller(live, open);
    assert live.Keys == left.Keys + (live.Keys - left.Keys);
    assert open.Keys == live.Keys + (open.Keys - live.Keys);
    assert live.Keys == left.Keys && open.Keys == live.Keys;
  }

  lemma TryKeepsTally(m: Moment, limits: Limits, id: string, code: Units, now: int, k: string)
    requires TallyOf(m, limits.max, id) && TallyOf(m, limits.max, k)
    ensures TallyOf(Step(m, limits, Try(id, code, now)), limits.max, k)
  {
    AppendTries(m.log, Tried(id, now, Attempting(m.open, limits.max, id, code, now).1), k);
  }

  /** Nothing new, and what is left still sits under its own id and address. */
  ghost predicate Shrinks(open: Challenges, open': Challenges) {
    && open'.Keys <= open.Keys
    && forall id | id in open' :: open'[id].id == open[id].id && open'[id].email == open[id].email
  }

  lemma ShrinkKeepsDistinct(open: Challenges, open': Challenges, capacity: nat)
    requires Distinct(open) && |open| <= capacity && Shrinks(open, open')
    ensures Distinct(open') && |open'| <= capacity
  {
    SubmapIsSmaller(open', open);
  }

  lemma AttemptShrinks(open: Challenges, max: nat, id: string, code: Units, now: int)
    ensures Shrinks(open, Attempting(open, max, id, code, now).0)
  {
  }

  lemma StepKeepsGood(m: Moment, limits: Limits, op: Op)
    requires Good(m, limits) && Allowed(m, op) && limits.max >= 1
    ensures Good(Step(m, limits, op), limits)
  {
    StepFits(m, limits, op);
    var m' := Step(m, limits, op);
    forall k ensures TallyOf(m', limits.max, k) {
      assert TallyOf(m, limits.max, k);
      if op.Try? {
        assert TallyOf(m, limits.max, op.id);
        TryKeepsTally(m, limits, op.id, op.code, op.now, k);
      }
    }
  }

  lemma StepFits(m: Moment, limits: Limits, op: Op)
    requires Distinct(m.open) && |m.open| <= limits.capacity
    ensures Distinct(Step(m, limits, op).open) && |Step(m, limits, op).open| <= limits.capacity
  {
    match op {
      case Start(c) => IssuingFits(m.open, limits.capacity, c);
      case Try(id, code, now) =>
        AttemptShrinks(m.open, limits.max, id, code, now);
        ShrinkKeepsDistinct(m.open, Attempting(m.open, limits.max, id, code, now).0, limits.capacity);
      case Drop(id) => ShrinkKeepsDistinct(m.open, m.open - {id}, limits.capacity);
      case Sweep(now) => ShrinkKeepsDistinct(m.open, Live(m.open, now), limits.capacity);
    }
  }

  ghost predicate IsRun(ms: seq<Moment>, ops: seq<Op>, limits: Limits) {
    && |ms| == |ops| + 1 && ms[0] == Moment(map[], {}, [])
    && forall i | 0 <= i < |ops| :: Follows(ms, ops, limits, i)
  }

  ghost predicate Follows(ms: seq<Moment>, ops: seq<Op>, limits: Limits, i: nat)
    requires |ms| == |ops| + 1 && i < |ops|
  {
    Allowed(ms[i], ops[i]) && ms[i + 1] == Step(ms[i], limits, ops[i])
  }

  /** After any run: open challenges are for different addresses and fit, no challenge was ever
      tried more often than allowed, and none verified twice. */
  lemma {:induction false} RunIsGood(ms: seq<Moment>, ops: seq<Op>, limits: Limits, n: nat)
    requires IsRun(ms, ops, limits) && n <= |ops| && limits.max >= 1
    ensures Good(ms[n], limits)
  {
    if n > 0 {
      RunIsGood(ms, ops, limits, n - 1);
      assert Follows(ms, ops, limits, n - 1);
      StepKeepsGood(ms[n - 1], limits, ops[n - 1]);
    }
  }

  /** What an attempt in a run answers, exactly: the first `exhausted` branch is never the one
      taken, and the right code wins on every try a challenge is still open for. */
  lemma AttemptExactly(ms: seq<Moment>, ops: seq<Op>, limits: Limits, n: nat)
    requires IsRun(ms, ops, limits) && n < |ops| && ops[n].Try? && limits.max >= 1
    ensures |ms[n + 1].log| == |ms[n].log| + 1
    ensures var m, id := ms[n], ops[n].id;
      var outcome := ms[n + 1].log[|m.log|].outcome;
      && (outcome.Unknown? <==> id !in m.open)
      && (id in m.open ==>
            var c, made := m.open[id], Tries(m.log, id);
            && made < limits.max
            && (outcome.Expired? <==> c.expiresAt <= ops[n].now)
            && (c.expiresAt > ops[n].now ==>
                  if Right(ops[n].code, c) then outcome == Verified(ViewOf(c.(attempts := made + 1)))
                  else if made + 1 == limits.max then outcome == Exhausted
                  else outcome == Mismatch(limits.max - made - 1)))
      && (id in ms[n + 1].open <==> outcome.Mismatch?)
  {
    RunIsGood(ms, ops, limits, n);
    assert TallyOf(ms[n], limits.max, ops[n].id);
    assert Follows(ms, ops, limits, n);
  }
}
