/** Callback, exchange and link completion as programs that interleave over the challenge rows.

    Google's own answers, account resolution, session creation and the attach are drawn from
    outside: they do not touch these rows. */
module GoogleAuth {
  import opened Store
  import opened Challenges

  const MAX_EXCHANGE_ATTEMPTS := 3
  const EXCHANGE_TTL := 2 * 60 * 1000

  datatype Outcome =
    | Redirected(challenge: string)
    | SignedIn(challenge: string, user: string, identity: string)
    | Linked(challenge: string, account: string, subject: string)
    | Refused

  /** The constructor names the store call a caller makes next. */
  datatype Pc =
    | CallbackFind(state: string)
    | CallbackConsume(row: Challenge, now: int)
    | CallbackAttach(row: Challenge)
    | ExchangeFind(id: string, digest: string)
    | ExchangeCount(row: Challenge)
    | ExchangeSession(row: Challenge)
    | ExchangeDelete(row: Challenge, outcome: Outcome)
    | LinkFind(id: string, digest: string, account: string)
    | LinkCount(row: Challenge, account: string)
    | LinkDelete(row: Challenge)
    | MissRead(id: string)
    | MissCount(id: string)
    | Drop(id: string)
    | Done(outcome: Outcome)

  /** What Google proves for a redeemed code, and the account a sign-in resolves to. */
  datatype Verdict = Rejected | Proven(subject: string, email: Option<string>, user: Option<string>, identity: string)

  datatype Draw = Draw(now: int, digest: string, verdict: Verdict, accepted: bool)

  // ---- the programs ----

  /** A redeemable row: still within its own life and within the exchange window. */
  predicate InTime(row: Challenge, now: int) {
    row.expiresAt > now && (row.consumedAt.Some? ==> row.consumedAt.value + EXCHANGE_TTL > now)
  }

  function AfterConsume(row: Challenge, v: Verdict): Pc {
    if v.Rejected? || (row.purpose.Link? && row.account.None?) || (row.purpose.SignIn? && v.user.None?)
    then Done(Refused) else CallbackAttach(row)
  }

  function AfterCount(row: Challenge, attempts: int): Pc {
    if attempts > MAX_EXCHANGE_ATTEMPTS then Drop(row.id)
    else if row.user.None? || row.identity.None? then Done(Refused)
    else ExchangeSession(row)
  }

  function AfterLinkCount(row: Challenge, account: string, attempts: int): Pc {
    if attempts > MAX_EXCHANGE_ATTEMPTS then Drop(row.id)
    else if row.account != Some(account) then Drop(row.id)
    else if row.subject.None? then Done(Refused)
    else LinkDelete(row)
  }

  ghost function Advance(rows: Rows, pc: Pc, d: Draw): (Rows, Pc) {
    match pc
    case CallbackFind(state) =>
      (rows, match ByState(rows, state)
             case None => Done(Refused)
             case Some(row) => if row.expiresAt <= d.now then Done(Refused) else CallbackConsume(row, d.now))
    case CallbackConsume(row, now) =>
      var (rows', claimed) := Consuming(rows, row.id, now);
      (rows', if claimed then AfterConsume(row, d.verdict) else Done(Refused))
    case CallbackAttach(row) =>
      if d.verdict.Rejected? then (rows, Done(Refused))
      else if row.purpose.Link? then
        (AttachingLink(rows, row.id, d.digest, d.verdict.subject, d.verdict.email), Done(Redirected(row.id)))
      else if d.verdict.user.None? then (rows, Done(Refused))
      else
        (Attaching(rows, row.id, d.digest, d.verdict.user.value, d.verdict.identity), Done(Redirected(row.id)))

    case ExchangeFind(id, digest) =>
      (rows, match ByDigest(rows, digest)
             case None => MissRead(id)
             case Some(row) =>
               if row.id != id then MissRead(id)
               else if !row.purpose.SignIn? || !InTime(row, d.now) then Done(Refused)
               else ExchangeCount(row))
    case ExchangeCount(row) =>
      var (rows', attempts) := Counting(rows, row.id);
      (rows', AfterCount(row, attempts))
    case ExchangeSession(row) =>
      (rows, ExchangeDelete(row,
        if d.accepted && row.user.Some? && row.identity.Some?
        then SignedIn(row.id, row.user.value, row.identity.value) else Refused))
    case ExchangeDelete(row, outcome) => (rows - {row.id}, Done(outcome))

    case LinkFind(id, digest, account) =>
      (rows, match ByDigest(rows, digest)
             case None => MissRead(id)
             case Some(row) =>
               if row.id != id then MissRead(id)
               else if !row.purpose.Link? || !InTime(row, d.now) then Done(Refused)
               else LinkCount(row, account))
    case LinkCount(row, account) =>
      var (rows', attempts) := Counting(rows, row.id);
      (rows', AfterLinkCount(row, account, attempts))
    case LinkDelete(row) =>
      (rows - {row.id},
       Done(if d.accepted && row.account.Some? && row.subject.Some?
            then Linked(row.id, row.account.value, row.subject.value) else Refused))

    case MissRead(id) => (rows, if id in rows then MissCount(id) else Done(Refused))
    case MissCount(id) => (Counting(rows, id).0, Done(Refused))
    case Drop(id) => (rows - {id}, Done(Refused))
    case Done(_) => (rows, pc)
  }

  // ---- interleavings ----

  /** A callback that has spent a challenge. */
  datatype Win = Win(caller: nat, challenge: string)

  datatype State = State(rows: Rows, callers: map<nat, Pc>, minted: set<string>, won: set<Win>)

  datatype Event = Start(row: Challenge) | Run(caller: nat, draw: Draw) | Sweep(now: int)

  predicate New(row: Challenge) {
    && row.exchange.None? && row.user.None? && row.identity.None? && row.subject.None? && row.email.None?
    && row.attempts == 0 && row.consumedAt.None? && (row.purpose.Link? <==> row.account.Some?)
  }

  predicate Enabled(s: State, e: Event) {
    match e
    case Start(row) => New(row) && row.id !in s.minted && row.state !in s.minted && row.id != row.state
    case Run(c, d) => c in s.callers && d.digest !in s.minted
    case Sweep(_) => true
  }

  ghost function After(s: State, e: Event): State
    requires Enabled(s, e)
  {
    match e
    case Start(row) => s.(rows := s.rows[row.id := row], minted := s.minted + {row.id, row.state})
    case Run(c, d) =>
      var pc := s.callers[c];
      var (rows, pc') := Advance(s.rows, pc, d);
      State(rows, s.callers[c := pc'], s.minted + {d.digest},
            if pc.CallbackConsume? && Consuming(s.rows, pc.row.id, pc.now).1
            then s.won + {Win(c, pc.row.id)} else s.won)
    case Sweep(now) => s.(rows := Purging(s.rows, now))
  }

  predicate Entry(pc: Pc) { pc.CallbackFind? || pc.ExchangeFind? || pc.LinkFind? }

  // ---- what every state keeps ----

  ghost predicate RowsOk(s: State) {
    && Keyed(s.rows)
    && (forall id | id in s.rows :: id in s.minted && s.rows[id].state in s.minted
          && (s.rows[id].exchange.Some? ==> s.rows[id].exchange.value in s.minted))
    && (forall id | id in s.rows :: Separate(s.rows[id]))
  }

  /** The fields of the two flows are never both in use, and nothing is recorded before the
      challenge has been spent. */
  predicate Separate(row: Challenge) {
    && (row.purpose.SignIn? ==> row.subject.None? && row.email.None? && row.account.None?)
    && (row.purpose.Link? ==> row.user.None? && row.identity.None? && row.account.Some?)
    && (row.exchange.Some? ==> row.consumedAt.Some?)
  }

  /** A row remembered from an earlier read: what is fixed has not changed since. */
  ghost predicate SameFlow(s: State, row: Challenge) {
    && Separate(row) && row.id in s.minted
    && (row.id in s.rows ==> s.rows[row.id].purpose == row.purpose && s.rows[row.id].account == row.account)
  }

  predicate Holds(pc: Pc) {
    pc.CallbackConsume? || pc.CallbackAttach? || pc.ExchangeCount? || pc.ExchangeSession? || pc.ExchangeDelete?
    || pc.LinkCount? || pc.LinkDelete?
  }

  ghost predicate CallerOk(s: State, pc: Pc) {
    && (Holds(pc) ==> SameFlow(s, pc.row))
    && (pc.CallbackAttach? ==> (pc.row.id in s.rows ==> s.rows[pc.row.id].consumedAt.Some?))
    && (pc.ExchangeCount? || pc.ExchangeSession? || pc.ExchangeDelete? ==> pc.row.purpose.SignIn?)
    && (pc.LinkCount? || pc.LinkDelete? ==> pc.row.purpose.Link?)
  }

  ghost predicate WinsOk(s: State) {
    && (forall w | w in s.won :: w.challenge in s.minted
          && (w.challenge in s.rows ==> s.rows[w.challenge].consumedAt.Some?))
    && (forall v, w | v in s.won && w in s.won && v.challenge == w.challenge :: v.caller == w.caller)
  }

  ghost predicate Inv(s: State) {
    RowsOk(s) && WinsOk(s) && forall c | c in s.callers :: CallerOk(s, s.callers[c])
  }

  /** Rows are rewritten within their flow, dropped, or new. */
  ghost predicate Moves(s: State, s': State) {
    && s.minted <= s'.minted
    && (forall id | id in s'.rows && id in s.rows ::
          && s'.rows[id].purpose == s.rows[id].purpose && s'.rows[id].account == s.rows[id].account
          && (s.rows[id].consumedAt.Some? ==> s'.rows[id].consumedAt.Some?))
    && (forall id | id in s'.rows && id !in s.rows :: id !in s.minted)
  }

  // ---- a step ----

  predicate Writes(pc: Pc) {
    pc.CallbackConsume? || pc.CallbackAttach? || pc.ExchangeCount? || pc.LinkCount? || pc.MissCount?
    || pc.ExchangeDelete? || pc.LinkDelete? || pc.Drop?
  }

  lemma ReadsWriteNothing(rows: Rows, pc: Pc, d: Draw)
    requires !Writes(pc)
    ensures Advance(rows, pc, d).0 == rows
  {
  }

  /** Nothing new, and every row left is in the same flow. */
  ghost predicate Narrows(rows: Rows, rows': Rows) {
    && rows'.Keys <= rows.Keys
    && forall id | id in rows' ::
         && rows'[id].purpose == rows[id].purpose && rows'[id].account == rows[id].account
         && (rows[id].consumedAt.Some? ==> rows'[id].consumedAt.Some?)
  }

  lemma AdvanceNarrows(rows: Rows, pc: Pc, d: Draw)
    ensures Narrows(rows, Advance(rows, pc, d).0)
  {
    if !Writes(pc) {
      ReadsWriteNothing(rows, pc, d);
    } else {
      match pc {
        case CallbackConsume(row, now) =>
        case CallbackAttach(row) =>
        case ExchangeCount(row) =>
        case LinkCount(row, _) =>
        case MissCount(id) =>
        case ExchangeDelete(row, _) =>
        case LinkDelete(row) =>
        case Drop(id) =>
      }
    }
  }

  lemma StepMoves(s: State, e: Event)
    requires RowsOk(s) && Enabled(s, e)
    ensures Moves(s, After(s, e))
  {
    match e {
      case Run(c, d) => AdvanceNarrows(s.rows, s.callers[c], d);
      case Start(row) =>
      case Sweep(now) =>
    }
  }

  lemma AttachKeepsRows(s: State, row: Challenge, d: Draw, rows': Rows)
    requires RowsOk(s) && SameFlow(s, row) && d.digest !in s.minted && d.verdict.Proven?
    requires row.id in s.rows ==> s.rows[row.id].consumedAt.Some?
    requires
      || (row.purpose.Link? && rows' == AttachingLink(s.rows, row.id, d.digest, d.verdict.subject, d.verdict.email))
      || (row.purpose.SignIn? && d.verdict.user.Some?
          && rows' == Attaching(s.rows, row.id, d.digest, d.verdict.user.value, d.verdict.identity))
    ensures RowsOk(s.(rows := rows', minted := s.minted + {d.digest}))
  {
  }

  lemma DropKeepsRows(s: State, id: string, minted': set<string>)
    requires RowsOk(s) && s.minted <= minted'
    ensures RowsOk(s.(rows := s.rows - {id}, minted := minted'))
  {
  }

  lemma CountKeepsRows(s: State, id: string, minted': set<string>)
    requires RowsOk(s) && s.minted <= minted'
    ensures RowsOk(s.(rows := Counting(s.rows, id).0, minted := minted'))
  {
  }

  lemma ConsumeKeepsRows(s: State, id: string, at: int, minted': set<string>)
    requires RowsOk(s) && s.minted <= minted'
    ensures RowsOk(s.(rows := Consuming(s.rows, id, at).0, minted := minted'))
  {
  }

  lemma MintKeepsRows(s: State, minted': set<string>)
    requires RowsOk(s) && s.minted <= minted'
    ensures RowsOk(s.(minted := minted'))
  {
  }

  lemma RunKeepsRows(s: State, c: nat, d: Draw)
    requires Inv(s) && Enabled(s, Run(c, d))
    ensures RowsOk(After(s, Run(c, d)))
  {
    var pc := s.callers[c];
    var minted' := s.minted + {d.digest};
    assert CallerOk(s, pc);
    if !Writes(pc) {
      ReadsWriteNothing(s.rows, pc, d);
      MintKeepsRows(s, minted');
    } else {
      match pc {
        case CallbackConsume(row, now) => ConsumeKeepsRows(s, row.id, now, minted');
        case CallbackAttach(row) =>
          if d.verdict.Rejected? || (row.purpose.SignIn? && d.verdict.user.None?) {
            MintKeepsRows(s, minted');
          } else {
            AttachKeepsRows(s, row, d, Advance(s.rows, pc, d).0);
          }
        case ExchangeCount(row) => CountKeepsRows(s, row.id, minted');
        case LinkCount(row, _) => CountKeepsRows(s, row.id, minted');
        case MissCount(id) => CountKeepsRows(s, id, minted');
        case ExchangeDelete(row, _) => DropKeepsRows(s, row.id, minted');
        case LinkDelete(row) => DropKeepsRows(s, row.id, minted');
        case Drop(id) => DropKeepsRows(s, id, minted');
      }
    }
  }

  lemma StepKeepsRows(s: State, e: Event)
    requires Inv(s) && Enabled(s, e)
    ensures RowsOk(After(s, e))
  {
    match e {
      case Run(c, d) => RunKeepsRows(s, c, d);
      case Start(row) =>
      case Sweep(now) =>
    }
  }

  lemma OwnStep(s: State, c: nat, d: Draw)
    requires Inv(s) && Enabled(s, Run(c, d))
    ensures var s' := After(s, Run(c, d)); CallerOk(s', s'.callers[c])
  {
    var pc := s.callers[c];
    assert CallerOk(s, pc);
    if pc.CallbackFind? || pc.ExchangeFind? || pc.LinkFind? {
      LookupStep(s, pc, d);
      StepMoves(s, Run(c, d));
    } else {
      HolderStep(s, c, d);
    }
  }

  lemma LookupStep(s: State, pc: Pc, d: Draw)
    requires RowsOk(s) && (pc.CallbackFind? || pc.ExchangeFind? || pc.LinkFind?)
    ensures CallerOk(s, Advance(s.rows, pc, d).1)
  {
    match pc {
      case CallbackFind(state) =>
      case ExchangeFind(_, digest) =>
      case LinkFind(_, digest, _) =>
    }
  }

  lemma HolderStep(s: State, c: nat, d: Draw)
    requires RowsOk(s) && Enabled(s, Run(c, d)) && CallerOk(s, s.callers[c])
    requires !s.callers[c].CallbackFind? && !s.callers[c].ExchangeFind? && !s.callers[c].LinkFind?
    ensures var s' := After(s, Run(c, d)); CallerOk(s', s'.callers[c])
  {
    StepMoves(s, Run(c, d));
  }

  lemma RunKeepsWins(s: State, c: nat, d: Draw)
    requires Inv(s) && Enabled(s, Run(c, d))
    ensures WinsOk(After(s, Run(c, d)))
  {
    StepMoves(s, Run(c, d));
    assert CallerOk(s, s.callers[c]);
  }

  lemma StepKeepsInv(s: State, e: Event)
    requires Inv(s) && Enabled(s, e)
    ensures Inv(After(s, e))
  {
    var s' := After(s, e);
    StepKeepsRows(s, e);
    StepMoves(s, e);
    if e.Run? { RunKeepsWins(s, e.caller, e.draw); }
    forall c | c in s'.callers ensures CallerOk(s', s'.callers[c]) {
      if e.Run? && e.caller == c {
        OwnStep(s, c, e.draw);
      }
    }
  }

  // ---- runs ----

  datatype History = History(states: seq<State>, events: seq<Event>)

  ghost predicate Initial(s: State) {
    s.rows == map[] && s.won == {} && forall c | c in s.callers :: Entry(s.callers[c])
  }

  ghost predicate Follows(h: History, i: nat)
    requires |h.states| == |h.events| + 1 && i < |h.events|
  {
    Enabled(h.states[i], h.events[i]) && h.states[i + 1] == After(h.states[i], h.events[i])
  }

  ghost predicate IsRun(h: History) {
    |h.states| == |h.events| + 1 && Initial(h.states[0]) && forall i | 0 <= i < |h.events| :: Follows(h, i)
  }

  lemma {:induction false} RunKeepsInv(h: History, i: nat)
    requires IsRun(h) && i < |h.states|
    ensures Inv(h.states[i])
  {
    if i > 0 {
      RunKeepsInv(h, i - 1);
      assert Follows(h, i - 1);
      StepKeepsInv(h.states[i - 1], h.events[i - 1]);
    }
  }

  /** In any interleaving a challenge is spent by one callback. */
  lemma SpentOnce(h: History, i: nat, a: nat, b: nat, challenge: string)
    requires IsRun(h) && i < |h.states|
    requires Win(a, challenge) in h.states[i].won && Win(b, challenge) in h.states[i].won
    ensures a == b
  {
    RunKeepsInv(h, i);
  }

  /** Sign-in and link never carry each other's outcome, and each completes only its own kind. */
  lemma FlowsNeverMix(h: History, i: nat, c: nat)
    requires IsRun(h) && i < |h.states|
    ensures forall id | id in h.states[i].rows :: Separate(h.states[i].rows[id])
    ensures c in h.states[i].callers ==>
      var s := h.states[i]; var pc := s.callers[c];
      && (pc.ExchangeSession? || pc.ExchangeDelete? ==>
            pc.row.purpose.SignIn? && pc.row.subject.None? && (pc.row.id in s.rows ==> s.rows[pc.row.id].purpose.SignIn?))
      && (pc.LinkDelete? ==>
            pc.row.purpose.Link? && pc.row.user.None? && (pc.row.id in s.rows ==> s.rows[pc.row.id].purpose.Link?))
  {
    RunKeepsInv(h, i);
    if c in h.states[i].callers { assert CallerOk(h.states[i], h.states[i].callers[c]); }
  }
}
