/** One Google flow from the callback to its end, left alone: when the callback redirects, what it
    leaves in the row, and when the code it hands over is good. */
module GoogleJourney {
  import opened Store
  import opened Challenges
  import opened GoogleAuth
  import opened GoogleExchange

  // ---- the callback ----

  /** The challenge a callback may spend: its state, in time, unspent. */
  predicate Spendable(rows: Rows, id: string, state: string, now: int) {
    id in rows && rows[id].state == state && now < rows[id].expiresAt && rows[id].consumedAt.None?
  }

  /** What Google, and for a sign-in the resolution of the account, have to say. */
  predicate Convinces(row: Challenge, v: Verdict) {
    v.Proven? && (if row.purpose.Link? then row.account.Some? else v.user.Some?)
  }

  /** The row a convinced callback leaves. */
  predicate Leaves(row: Challenge, row': Challenge, d: Draw)
    requires d.verdict.Proven?
  {
    && row'.consumedAt == Some(d.now) && row'.exchange == Some(d.digest)
    && (if row.purpose.Link? then
          && row'.subject == Some(d.verdict.subject) && row'.email == d.verdict.email
          && row'.user == row.user && row'.identity == row.identity
        else
          && row'.user == d.verdict.user && row'.identity == Some(d.verdict.identity)
          && row'.subject == row.subject && row'.email == row.email)
    && row'.id == row.id && row'.purpose == row.purpose && row'.account == row.account && row'.state == row.state
    && row'.nonce == row.nonce && row'.verifier == row.verifier && row'.redirect == row.redirect
    && row'.createdAt == row.createdAt && row'.expiresAt == row.expiresAt && row'.attempts == row.attempts
  }

  lemma NoSuchState(rows: Rows, state: string, d: Draw)
    requires forall x | x in rows :: rows[x].state != state
    ensures Alone(rows, CallbackFind(state), d) == (rows, Done(Refused))
  {
    Ended(rows, Refused, d);
  }

  lemma TooLate(rows: Rows, id: string, d: Draw)
    requires Keyed(rows) && id in rows && rows[id].expiresAt <= d.now
    ensures Alone(rows, CallbackFind(rows[id].state), d) == (rows, Done(Refused))
  {
    StateNames(rows, id);
    Ended(rows, Refused, d);
  }

  lemma FoundRow(rows: Rows, id: string, d: Draw)
    requires Keyed(rows) && id in rows && d.now < rows[id].expiresAt
    ensures Alone(rows, CallbackFind(rows[id].state), d) == Alone(rows, CallbackConsume(rows[id], d.now), d)
  {
    StateNames(rows, id);
    assert Advance(rows, CallbackFind(rows[id].state), d) == (rows, CallbackConsume(rows[id], d.now));
  }

  lemma AlreadySpent(rows: Rows, id: string, d: Draw)
    requires Keyed(rows) && id in rows && d.now < rows[id].expiresAt && rows[id].consumedAt.Some?
    ensures Alone(rows, CallbackFind(rows[id].state), d) == (rows, Done(Refused))
  {
    FoundRow(rows, id, d);
    Ended(rows, Refused, d);
  }

  /** The row is spent first, whatever Google then says. */
  lemma Spending(rows: Rows, id: string, d: Draw)
    requires Keyed(rows) && id in rows && Spendable(rows, id, rows[id].state, d.now)
    ensures var (rows', pc) := Alone(rows, CallbackFind(rows[id].state), d);
      && rows'.Keys == rows.Keys && (forall x | x in rows && x != id :: rows'[x] == rows[x])
      && (if Convinces(rows[id], d.verdict) then pc == Done(Redirected(id)) && Leaves(rows[id], rows'[id], d)
          else pc == Done(Refused) && rows'[id] == rows[id].(consumedAt := Some(d.now)))
  {
    var row := rows[id];
    FoundRow(rows, id, d);
    var spent := rows[id := row.(consumedAt := Some(d.now))];
    assert Advance(rows, CallbackConsume(row, d.now), d) == (spent, AfterConsume(row, d.verdict));
    if Convinces(row, d.verdict) {
      var (rows', pc) := Advance(spent, CallbackAttach(row), d);
      assert pc == Done(Redirected(id));
      Ended(rows', Redirected(id), d);
    } else {
      Ended(spent, Refused, d);
    }
  }

  /** When a callback redirects, exactly, and what it leaves. A challenge that could be spent is spent,
      whatever came of it; in every other case nothing has changed. */
  lemma CallbackExactly(rows: Rows, state: string, d: Draw, id: string)
    requires Keyed(rows)
    ensures var (rows', pc) := Alone(rows, CallbackFind(state), d);
      && (pc == Done(Redirected(id)) <==> Spendable(rows, id, state, d.now) && Convinces(rows[id], d.verdict))
      && (pc == Done(Redirected(id)) ==> id in rows' && Leaves(rows[id], rows'[id], d))
      && (Spendable(rows, id, state, d.now) ==> id in rows' && rows'[id].consumedAt == Some(d.now))
      && (id in rows && !Spendable(rows, id, state, d.now) ==> id in rows' && rows'[id] == rows[id])
      && rows'.Keys == rows.Keys
  {
    if x :| x in rows && rows[x].state == state {
      if rows[x].expiresAt <= d.now {
        TooLate(rows, x, d);
      } else if rows[x].consumedAt.Some? {
        AlreadySpent(rows, x, d);
      } else {
        Spending(rows, x, d);
      }
    } else {
      NoSuchState(rows, state, d);
    }
  }

  // ---- the code ----

  /** Within the life of the challenge and two minutes of the callback. */
  predicate Timely(row: Challenge, now: int) {
    now < row.expiresAt && (row.consumedAt.Some? ==> now < row.consumedAt.value + 2 * 60 * 1000)
  }

  predicate Presents(pc: Pc, id: string, digest: string) {
    (pc.ExchangeFind? || pc.LinkFind?) && pc.id == id && pc.digest == digest
  }

  lemma MissIsRefused(rows: Rows, pc: Pc, id: string, digest: string, d: Draw)
    requires Keyed(rows) && Presents(pc, id, digest)
    requires id !in rows || rows[id].exchange != Some(digest)
    ensures Alone(rows, pc, d) == (Counting(rows, id).0, Done(Refused))
  {
    assert Advance(rows, pc, d) == (rows, MissRead(id)) by {
      var found := ByDigest(rows, digest);
      assert found.Some? ==> found.value.id != id;
    }
    MissAlone(rows, id, d);
  }

  /** When a code completes a link, exactly: it is that challenge's, for a link, in time, within its
      three attempts, presented by the account that started it, and proved. */
  lemma LinkExactly(rows: Rows, id: string, digest: string, account: string, d: Draw)
    requires Keyed(rows)
    ensures var (rows', pc) := Alone(rows, LinkFind(id, digest, account), d);
      && (pc.Done? && pc.outcome.Linked?
          <==> id in rows && rows[id].exchange == Some(digest) && rows[id].purpose == Link && Timely(rows[id], d.now)
               && rows[id].attempts < 3 && rows[id].account == Some(account) && rows[id].subject.Some? && d.accepted)
      && (pc.Done? && pc.outcome.Linked? ==>
            id !in rows' && pc.outcome == Linked(id, account, rows[id].subject.value))
  {
    if id in rows && rows[id].exchange == Some(digest) {
      DigestNames(rows, id);
      if rows[id].purpose.Link? && Timely(rows[id], d.now) {
        LinkFound(rows, id, account, d);
      } else {
        Ended(rows, Refused, d);
      }
    } else {
      MissIsRefused(rows, LinkFind(id, digest, account), id, digest, d);
    }
  }

  lemma LinkFound(rows: Rows, id: string, account: string, d: Draw)
    requires Keyed(rows) && id in rows && rows[id].exchange.Some? && rows[id].purpose == Link && Timely(rows[id], d.now)
    ensures var (rows', pc) := Alone(rows, LinkFind(id, rows[id].exchange.value, account), d);
      && (pc.Done? && pc.outcome.Linked?
          <==> rows[id].attempts < 3 && rows[id].account == Some(account) && rows[id].subject.Some? && d.accepted)
      && (pc.Done? && pc.outcome.Linked? ==>
            id !in rows' && pc.outcome == Linked(id, account, rows[id].subject.value))
  {
    var row, counted := rows[id], Counting(rows, id).0;
    DigestNames(rows, id);
    assert Advance(rows, LinkFind(id, row.exchange.value, account), d) == (rows, LinkCount(row, account));
    var pc := AfterLinkCount(row, account, row.attempts + 1);
    assert Advance(rows, LinkCount(row, account), d) == (counted, pc);
    if pc.Drop? {
      DropAlone(counted, id, d);
    } else if pc.LinkDelete? {
      LinkEnds(counted, row, d);
    } else {
      Ended(counted, Refused, d);
    }
  }

  lemma LinkEnds(rows: Rows, row: Challenge, d: Draw)
    requires row.account.Some? && row.subject.Some?
    ensures Alone(rows, LinkDelete(row), d)
         == (rows - {row.id}, Done(if d.accepted then Linked(row.id, row.account.value, row.subject.value) else Refused))
  {
    Ended(rows - {row.id}, if d.accepted then Linked(row.id, row.account.value, row.subject.value) else Refused, d);
  }

  /** When a code gives a session, exactly, in any rows. */
  lemma CodeExactly(rows: Rows, id: string, digest: string, d: Draw)
    requires Keyed(rows)
    ensures var (rows', pc) := Alone(rows, ExchangeFind(id, digest), d);
      && (pc.Done? && pc.outcome.SignedIn?
          <==> id in rows && rows[id].exchange == Some(digest) && rows[id].purpose == SignIn && Timely(rows[id], d.now)
               && rows[id].attempts < 3 && rows[id].user.Some? && rows[id].identity.Some? && d.accepted)
      && (pc.Done? && pc.outcome.SignedIn? ==>
            id !in rows' && pc.outcome == SignedIn(id, rows[id].user.value, rows[id].identity.value))
  {
    AloneIsExchanging(rows, id, digest, d);
    if id in rows && rows[id].exchange == Some(digest) { DigestNames(rows, id); }
  }

  /** What presenting the right code leaves: nothing changes for the wrong flow or too late; otherwise the
      row is gone, unless it could still be tried and has no outcome yet, which counts an attempt. */
  lemma RightCodeLeaves(rows: Rows, id: string, digest: string, d: Draw)
    requires Keyed(rows) && id in rows && rows[id].exchange == Some(digest)
    ensures var rows', row := Alone(rows, ExchangeFind(id, digest), d).0, rows[id];
      rows' == if row.purpose != SignIn || !Timely(row, d.now) then rows
               else if row.attempts < 3 && (row.user.None? || row.identity.None?) then
                 rows[id := row.(attempts := row.attempts + 1)]
               else rows - {id}
  {
    AloneIsExchanging(rows, id, digest, d);
    DigestNames(rows, id);
    assert (rows[id := rows[id].(attempts := rows[id].attempts + 1)]) - {id} == rows - {id};
  }

  /** The same of a link; presented by another account the challenge is gone as well. */
  lemma RightLinkCodeLeaves(rows: Rows, id: string, digest: string, account: string, d: Draw)
    requires Keyed(rows) && id in rows && rows[id].exchange == Some(digest)
    ensures var rows', row := Alone(rows, LinkFind(id, digest, account), d).0, rows[id];
      rows' == if row.purpose != Link || !Timely(row, d.now) then rows
               else if row.attempts < 3 && row.account == Some(account) && row.subject.None? then
                 rows[id := row.(attempts := row.attempts + 1)]
               else rows - {id}
  {
    DigestNames(rows, id);
    var row, counted := rows[id], Counting(rows, id).0;
    assert counted - {id} == rows - {id};
    if row.purpose.Link? && Timely(row, d.now) {
      assert Advance(rows, LinkFind(id, digest, account), d) == (rows, LinkCount(row, account));
      var pc := AfterLinkCount(row, account, row.attempts + 1);
      assert Advance(rows, LinkCount(row, account), d) == (counted, pc);
      if pc.Drop? {
        DropAlone(counted, id, d);
      } else if pc.LinkDelete? {
        LinkEnds(counted, row, d);
      } else {
        Ended(counted, Refused, d);
      }
    } else {
      Ended(rows, Refused, d);
    }
  }

  /** A wrong code counts against the challenge it was aimed at, and so does a code of another one. */
  lemma WrongCodeCounts(rows: Rows, pc: Pc, id: string, digest: string, d: Draw)
    requires Keyed(rows) && Presents(pc, id, digest)
    requires id in rows && rows[id].exchange != Some(digest)
    ensures var (rows', pc') := Alone(rows, pc, d);
      && pc' == Done(Refused) && rows'.Keys == rows.Keys && (forall x | x in rows && x != id :: rows'[x] == rows[x])
      && rows'[id] == rows[id].(attempts := rows[id].attempts + 1)
  {
    MissIsRefused(rows, pc, id, digest, d);
  }

  // ---- from the callback to the end ----

  lemma LeftKeyed(rows: Rows, state: string, d: Draw, id: string)
    requires Keyed(rows) && (forall x | x in rows :: rows[x].exchange != Some(d.digest))
    requires Alone(rows, CallbackFind(state), d).1 == Done(Redirected(id))
    ensures Keyed(Alone(rows, CallbackFind(state), d).0)
  {
    CallbackExactly(rows, state, d, id);
    Spending(rows, id, d);
  }

  /** The code a callback hands over for a sign-in gives a session for what the callback resolved, in the
      next two minutes and in the life of the challenge, while fewer than three attempts are counted. */
  lemma SignInComesThrough(rows: Rows, state: string, d: Draw, id: string, left: Rows, d2: Draw)
    requires Keyed(rows) && (forall x | x in rows :: rows[x].exchange != Some(d.digest))
    requires Alone(rows, CallbackFind(state), d) == (left, Done(Redirected(id)))
    requires id in rows && rows[id].purpose == SignIn && d.verdict.Proven? && d.verdict.user.Some?
    ensures Alone(left, ExchangeFind(id, d.digest), d2).1
              == Done(SignedIn(id, d.verdict.user.value, d.verdict.identity))
        <==> d2.now < rows[id].expiresAt && d2.now < d.now + 2 * 60 * 1000 && rows[id].attempts < 3 && d2.accepted
  {
    CallbackExactly(rows, state, d, id);
    LeftKeyed(rows, state, d, id);
    CodeExactly(left, id, d.digest, d2);
  }

  /** For a link it attaches the subject Google proved, and to no other account than the one that started. */
  lemma LinkComesThrough(rows: Rows, state: string, d: Draw, id: string, left: Rows, account: string, d2: Draw)
    requires Keyed(rows) && (forall x | x in rows :: rows[x].exchange != Some(d.digest))
    requires Alone(rows, CallbackFind(state), d) == (left, Done(Redirected(id)))
    requires id in rows && rows[id].purpose == Link && d.verdict.Proven?
    ensures Alone(left, LinkFind(id, d.digest, account), d2).1 == Done(Linked(id, account, d.verdict.subject))
        <==> rows[id].account == Some(account) && d2.now < rows[id].expiresAt && d2.now < d.now + 2 * 60 * 1000
             && rows[id].attempts < 3 && d2.accepted
  {
    CallbackExactly(rows, state, d, id);
    LeftKeyed(rows, state, d, id);
    LinkExactly(left, id, d.digest, account, d2);
  }
}
