/** `exchange` one call at a time: a challenge yields one session, and the right code works only
    while fewer than three attempts have been counted. */
module GoogleExchange {
  import opened Store
  import opened Challenges
  import G = GoogleAuth

  /** `exchange` undisturbed. */
  ghost function Exchanging(rows: Rows, id: string, digest: string, now: int, accepted: bool): (Rows, G.Outcome) {
    var found := ByDigest(rows, digest);
    if found.None? || found.value.id != id then (Counting(rows, id).0, G.Refused)
    else if !found.value.purpose.SignIn? || !G.InTime(found.value, now) then (rows, G.Refused)
    else
      var row := found.value;
      var (rows', attempts) := Counting(rows, row.id);
      if attempts > G.MAX_EXCHANGE_ATTEMPTS then (rows' - {row.id}, G.Refused)
      else if row.user.None? || row.identity.None? then (rows', G.Refused)
      else (rows' - {row.id}, if accepted then G.SignedIn(row.id, row.user.value, row.identity.value) else G.Refused)
  }

  class GoogleAuthService {
    const challenges: ChallengeStore

    constructor (challenges: ChallengeStore)
      ensures this.challenges == challenges
    {
      this.challenges := challenges;
    }

    /** `accepted` is what session creation answers, should it be asked. */
    method Exchange(id: string, digest: string, now: int, accepted: bool) returns (outcome: G.Outcome)
      requires Keyed(challenges.rows)
      modifies challenges
      ensures (challenges.rows, outcome) == Exchanging(old(challenges.rows), id, digest, now, accepted)
    {
      var byDigest := challenges.FindByDigest(digest);
      if byDigest.None? || byDigest.value.id != id {
        var _ := challenges.CountAttempt(id);
        return G.Refused;
      }
      var row := byDigest.value;
      if row.purpose != SignIn { return G.Refused; }
      if row.expiresAt <= now { return G.Refused; }
      if row.consumedAt.Some? && row.consumedAt.value + G.EXCHANGE_TTL <= now { return G.Refused; }
      var attempts := challenges.CountAttempt(row.id);
      if attempts > G.MAX_EXCHANGE_ATTEMPTS {
        challenges.Delete(row.id);
        return G.Refused;
      }
      if row.user.None? || row.identity.None? { return G.Refused; }
      challenges.Delete(row.id);
      outcome := if accepted then G.SignedIn(row.id, row.user.value, row.identity.value) else G.Refused;
    }
  }

  // ---- it is the program of the interleaving model, left alone ----

  function Remaining(pc: G.Pc): nat {
    match pc
    case ExchangeFind(_, _) => 5
    case ExchangeCount(_) => 4
    case ExchangeSession(_) => 3
    case ExchangeDelete(_, _) => 2
    case MissRead(_) => 2
    case MissCount(_) => 1
    case Drop(_) => 1
    case LinkFind(_, _, _) => 4
    case LinkCount(_, _) => 3
    case LinkDelete(_) => 1
    case CallbackFind(_) => 3
    case CallbackConsume(_, _) => 2
    case CallbackAttach(_) => 1
    case Done(_) => 0
  }

  ghost function Alone(rows: Rows, pc: G.Pc, d: G.Draw): (Rows, G.Pc)
    decreases Remaining(pc)
  {
    if Remaining(pc) == 0 then (rows, pc)
    else var (rows', pc') := G.Advance(rows, pc, d); Alone(rows', pc', d)
  }

  lemma Ended(rows: Rows, outcome: G.Outcome, d: G.Draw)
    ensures Alone(rows, G.Done(outcome), d) == (rows, G.Done(outcome))
  {
  }

  lemma MissAlone(rows: Rows, id: string, d: G.Draw)
    ensures Alone(rows, G.MissRead(id), d) == (Counting(rows, id).0, G.Done(G.Refused))
  {
    if id in rows {
      Ended(Counting(rows, id).0, G.Refused, d);
    } else {
      Ended(rows, G.Refused, d);
    }
  }

  lemma DropAlone(rows: Rows, id: string, d: G.Draw)
    ensures Alone(rows, G.Drop(id), d) == (rows - {id}, G.Done(G.Refused))
  {
    Ended(rows - {id}, G.Refused, d);
  }

  lemma SessionAlone(rows: Rows, row: Challenge, d: G.Draw)
    requires row.user.Some? && row.identity.Some?
    ensures Alone(rows, G.ExchangeSession(row), d)
         == (rows - {row.id}, G.Done(if d.accepted then G.SignedIn(row.id, row.user.value, row.identity.value) else G.Refused))
  {
    var outcome := if d.accepted then G.SignedIn(row.id, row.user.value, row.identity.value) else G.Refused;
    Ended(rows - {row.id}, outcome, d);
  }

  lemma AloneIsExchanging(rows: Rows, id: string, digest: string, d: G.Draw)
    ensures var (rows', outcome) := Exchanging(rows, id, digest, d.now, d.accepted);
      Alone(rows, G.ExchangeFind(id, digest), d) == (rows', G.Done(outcome))
  {
    var found := ByDigest(rows, digest);
    if found.None? || found.value.id != id {
      MissAlone(rows, id, d);
    } else if !found.value.purpose.SignIn? || !G.InTime(found.value, d.now) {
      Ended(rows, G.Refused, d);
    } else {
      var row := found.value;
      var (rows', attempts) := Counting(rows, row.id);
      if attempts > G.MAX_EXCHANGE_ATTEMPTS {
        DropAlone(rows', row.id, d);
      } else if row.user.None? || row.identity.None? {
        Ended(rows', G.Refused, d);
      } else {
        SessionAlone(rows', row, d);
      }
    }
  }

  // ---- serial runs ----

  datatype Op =
    | Start(row: Challenge)
    | Consume(id: string, at: int)
    | Attach(id: string, digest: string, user: string, identity: string)
    | AttachLink(id: string, digest: string, subject: string, email: Option<string>)
    | Exchange(id: string, code: string, now: int, accepted: bool)
    | Remove(id: string)
    | Sweep(now: int)

  /** `tried` lists the challenges of the counted attempts, `sessions` those that gave a session. */
  datatype Moment = Moment(rows: Rows, minted: set<string>, tried: seq<string>, sessions: seq<string>)

  predicate Allowed(m: Moment, op: Op) {
    match op
    case Start(row) => G.New(row) && row.id !in m.minted && row.state !in m.minted && row.id != row.state
    case Attach(_, digest, _, _) => digest !in m.minted
    case AttachLink(_, digest, _, _) => digest !in m.minted
    case _ => true
  }

  /** The attempt `exchange` counts: on the row its code finds, or on the row it was aimed at. */
  ghost predicate Counts(rows: Rows, id: string, code: string, now: int) {
    var found := ByDigest(rows, code);
    if found.None? || found.value.id != id then id in rows
    else found.value.purpose.SignIn? && G.InTime(found.value, now)
  }

  ghost function Step(m: Moment, op: Op): Moment {
    match op
    case Start(row) => m.(rows := m.rows[row.id := row], minted := m.minted + {row.id, row.state})
    case Consume(id, at) => m.(rows := Consuming(m.rows, id, at).0)
    case Attach(id, digest, user, identity) =>
      m.(rows := Attaching(m.rows, id, digest, user, identity), minted := m.minted + {digest})
    case AttachLink(id, digest, subject, email) =>
      m.(rows := AttachingLink(m.rows, id, digest, subject, email), minted := m.minted + {digest})
    case Exchange(id, code, now, accepted) =>
      var (rows, outcome) := Exchanging(m.rows, id, code, now, accepted);
      m.(rows := rows,
         tried := if Counts(m.rows, id, code, now) then m.tried + [id] else m.tried,
         sessions := if outcome.SignedIn? then m.sessions + [outcome.challenge] else m.sessions)
    case Remove(id) => m.(rows := m.rows - {id})
    case Sweep(now) => m.(rows := Purging(m.rows, now))
  }

  function Tries(tried: seq<string>, id: string): nat {
    if tried == [] then 0 else Tries(tried[..|tried| - 1], id) + if tried[|tried| - 1] == id then 1 else 0
  }

  lemma OneMoreTry(tried: seq<string>, t: string, id: string)
    ensures Tries(tried + [t], id) == Tries(tried, id) + if t == id then 1 else 0
  {
    assert (tried + [t])[..|tried|] == tried;
  }

  ghost predicate Named(m: Moment) {
    && Keyed(m.rows)
    && (forall id | id in m.rows :: id in m.minted && m.rows[id].state in m.minted
          && (m.rows[id].exchange.Some? ==> m.rows[id].exchange.value in m.minted))
  }

  ghost predicate Tallied(m: Moment) {
    && (forall id | id in m.rows :: m.rows[id].attempts == Tries(m.tried, id))
    && (forall id | id !in m.minted :: Tries(m.tried, id) == 0)
  }

  /** A challenge that gave a session is gone for good. */
  ghost predicate SpentAreGone(m: Moment) {
    && (forall k | 0 <= k < |m.sessions| :: m.sessions[k] in m.minted && m.sessions[k] !in m.rows)
    && (forall j, k | 0 <= j < k < |m.sessions| :: m.sessions[j] != m.sessions[k])
  }

  ghost predicate Good(m: Moment) { Named(m) && Tallied(m) && SpentAreGone(m) }

  lemma ExchangeNarrows(rows: Rows, id: string, code: string, now: int, accepted: bool)
    requires Keyed(rows)
    ensures var (rows', outcome) := Exchanging(rows, id, code, now, accepted);
      && rows'.Keys <= rows.Keys
      && (forall k | k in rows' :: rows'[k] == rows[k].(attempts := rows'[k].attempts))
      && (forall k | k in rows' :: rows'[k].attempts == rows[k].attempts + if k == id && Counts(rows, id, code, now) then 1 else 0)
      && (outcome.SignedIn? ==> outcome.challenge == id && id in rows && id !in rows')
  {
  }

  lemma NarrowsKeepNamed(m: Moment, rows': Rows)
    requires Named(m) && rows'.Keys <= m.rows.Keys
    requires forall k | k in rows' :: rows'[k] == m.rows[k].(attempts := rows'[k].attempts)
    ensures Named(m.(rows := rows'))
  {
  }

  lemma ExchangeKeepsGood(m: Moment, id: string, code: string, now: int, accepted: bool)
    requires Good(m)
    ensures Good(Step(m, Exchange(id, code, now, accepted)))
  {
    var m' := Step(m, Exchange(id, code, now, accepted));
    ExchangeNarrows(m.rows, id, code, now, accepted);
    NarrowsKeepNamed(m, m'.rows);
    ExchangeTallies(m, m', id, Counts(m.rows, id, code, now));
    ExchangeSpends(m, m', Exchanging(m.rows, id, code, now, accepted).1);
  }

  lemma ExchangeSpends(m: Moment, m': Moment, outcome: G.Outcome)
    requires SpentAreGone(m) && Named(m) && m'.rows.Keys <= m.rows.Keys && m'.minted == m.minted
    requires outcome.SignedIn? ==> outcome.challenge in m.rows && outcome.challenge !in m'.rows
    requires m'.sessions == if outcome.SignedIn? then m.sessions + [outcome.challenge] else m.sessions
    ensures SpentAreGone(m')
  {
  }

  lemma ExchangeTallies(m: Moment, m': Moment, id: string, counted: bool)
    requires Named(m) && Tallied(m) && m'.rows.Keys <= m.rows.Keys && m'.minted == m.minted
    requires forall k | k in m'.rows :: m'.rows[k].attempts == m.rows[k].attempts + if k == id && counted then 1 else 0
    requires m'.tried == if counted then m.tried + [id] else m.tried
    requires counted ==> id in m.minted
    ensures Tallied(m')
  {
    forall k ensures Tries(m'.tried, k) == Tries(m.tried, k) + if counted && k == id then 1 else 0 {
      OneMoreTry(m.tried, id, k);
    }
  }

  lemma StepKeepsGood(m: Moment, op: Op)
    requires Good(m) && Allowed(m, op)
    ensures Good(Step(m, op))
  {
    match op {
      case Exchange(id, code, now, accepted) => ExchangeKeepsGood(m, id, code, now, accepted);
      case Start(row) => StartKeepsGood(m, row);
      case Consume(id, at) => RewriteKeepsGood(m, op);
      case Attach(id, digest, user, identity) => RewriteKeepsGood(m, op);
      case AttachLink(id, digest, subject, email) => RewriteKeepsGood(m, op);
      case Remove(id) =>
      case Sweep(now) =>
    }
  }

  lemma RewriteKeepsGood(m: Moment, op: Op)
    requires Good(m) && Allowed(m, op) && (op.Consume? || op.Attach? || op.AttachLink?)
    ensures Good(Step(m, op))
  {
    RewriteKeepsNamed(m, op);
    assert Tallied(Step(m, op));
  }

  lemma RewriteKeepsNamed(m: Moment, op: Op)
    requires Named(m) && Allowed(m, op) && (op.Consume? || op.Attach? || op.AttachLink?)
    ensures Named(Step(m, op))
  {
    if op.id in m.rows {
      RowIsRewritten(m, op.id, Step(m, op).rows[op.id], Step(m, op).minted);
    }
  }

  lemma RowIsRewritten(m: Moment, id: string, next: Challenge, minted: set<string>)
    requires Named(m) && id in m.rows && m.minted <= minted && next.id == id && next.state == m.rows[id].state
    requires next.exchange == m.rows[id].exchange
      || (next.exchange.Some? && next.exchange.value in minted && next.exchange.value !in m.minted)
    ensures Named(m.(rows := m.rows[id := next], minted := minted))
  {
  }

  lemma StartKeepsGood(m: Moment, row: Challenge)
    requires Good(m) && Allowed(m, Start(row))
    ensures Good(Step(m, Start(row)))
  {
  }

  ghost predicate Follows(ms: seq<Moment>, ops: seq<Op>, i: nat)
    requires |ms| == |ops| + 1 && i < |ops|
  {
    Allowed(ms[i], ops[i]) && ms[i + 1] == Step(ms[i], ops[i])
  }

  ghost predicate IsRun(ms: seq<Moment>, ops: seq<Op>) {
    |ms| == |ops| + 1 && ms[0] == Moment(map[], {}, [], []) && forall i | 0 <= i < |ops| :: Follows(ms, ops, i)
  }

  lemma {:induction false} RunIsGood(ms: seq<Moment>, ops: seq<Op>, n: nat)
    requires IsRun(ms, ops) && n <= |ops|
    ensures Good(ms[n])
  {
    if n > 0 {
      RunIsGood(ms, ops, n - 1);
      assert Follows(ms, ops, n - 1);
      StepKeepsGood(ms[n - 1], ops[n - 1]);
    }
  }

  /** However often codes are presented, one after the other, a challenge gives one session. */
  lemma OneSessionEach(ms: seq<Moment>, ops: seq<Op>, n: nat, j: nat, k: nat)
    requires IsRun(ms, ops) && n <= |ops| && j < |ms[n].sessions| && k < |ms[n].sessions|
    requires ms[n].sessions[j] == ms[n].sessions[k]
    ensures j == k
  {
    RunIsGood(ms, ops, n);
  }

  /** When a code gives a session, exactly. */
  lemma ExchangeExactly(ms: seq<Moment>, ops: seq<Op>, n: nat)
    requires IsRun(ms, ops) && n < |ops| && ops[n].Exchange?
    ensures var m, op := ms[n], ops[n];
      |ms[n + 1].sessions| > |m.sessions|
      <==> op.id in m.rows && m.rows[op.id].exchange == Some(op.code)
           && m.rows[op.id].purpose.SignIn? && G.InTime(m.rows[op.id], op.now)
           && Tries(m.tried, op.id) < 3
           && m.rows[op.id].user.Some? && m.rows[op.id].identity.Some? && op.accepted
  {
    RunIsGood(ms, ops, n);
    assert Follows(ms, ops, n);
    var m, op := ms[n], ops[n];
    if op.id in m.rows && m.rows[op.id].exchange == Some(op.code) {
      DigestNames(m.rows, op.id);
    }
  }

  /** Not so when two exchanges overlap: both find the row, both count, both create a session. */
  lemma OverlappingExchanges(rows: Rows, id: string, code: string, d: G.Draw)
    requires Keyed(rows) && id in rows && rows[id].exchange == Some(code)
    requires rows[id].purpose.SignIn? && G.InTime(rows[id], d.now) && rows[id].attempts <= 1
    requires rows[id].user.Some? && rows[id].identity.Some? && d.accepted
    ensures var start := G.ExchangeFind(id, code);
      var (rows1, a1) := G.Advance(rows, start, d);
      var (rows2, b1) := G.Advance(rows1, start, d);
      var (rows3, a2) := G.Advance(rows2, a1, d);
      var (rows4, b2) := G.Advance(rows3, b1, d);
      var (rows5, a3) := G.Advance(rows4, a2, d);
      var (rows6, b3) := G.Advance(rows5, b2, d);
      var (rows7, a4) := G.Advance(rows6, a3, d);
      var (_, b4) := G.Advance(rows7, b3, d);
      a4 == b4 == G.Done(G.SignedIn(id, rows[id].user.value, rows[id].identity.value))
  {
    DigestNames(rows, id);
    var row := rows[id];
    assert G.Advance(rows, G.ExchangeFind(id, code), d) == (rows, G.ExchangeCount(row));
    var rows3, rows4 := Counting(rows, id).0, Counting(Counting(rows, id).0, id).0;
    assert G.Advance(rows, G.ExchangeCount(row), d) == (rows3, G.ExchangeSession(row));
    assert G.Advance(rows3, G.ExchangeCount(row), d) == (rows4, G.ExchangeSession(row));
  }
}
