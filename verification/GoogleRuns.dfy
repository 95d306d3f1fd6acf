/** A run in which one Google code gives two sessions. */
module GoogleRuns {
  import opened Store
  import opened Naming
  import opened Challenges
  import opened GoogleAuth
  import opened GoogleOverlap

  const ID := Name(0)
  const STATE := Name(1)
  const CODE := Name(4)

  const STARTED := Challenge(ID, SignIn, None, STATE, "nonce", "verifier", "redirect", 0, None, None, None, None, None,
                             0, 10 * 60 * 1000, None)
  const SPENT := STARTED.(consumedAt := Some(0))
  const RESOLVED := SPENT.(exchange := Some(CODE), user := Some("u"), identity := Some("i"))

  /** The rows after `n` events. */
  function RowsAt(n: nat): Rows {
    if n == 0 || n > 10 then map[]
    else if n < 3 then map[ID := STARTED]
    else if n == 3 then map[ID := SPENT]
    else if n < 7 then map[ID := RESOLVED]
    else if n == 7 then map[ID := RESOLVED.(attempts := 1)]
    else map[ID := RESOLVED.(attempts := 2)]
  }

  const SESSION := SignedIn(ID, "u", "i")

  function Callback(n: nat): Pc {
    if n < 2 then CallbackFind(STATE)
    else if n == 2 then CallbackConsume(STARTED, 0)
    else if n == 3 then CallbackAttach(STARTED)
    else Done(Redirected(ID))
  }

  /** An exchange that makes its steps at events `at`, `at + 2`, `at + 4` and `at + 6`. */
  function Exchange(n: nat, at: nat): Pc {
    if n <= at then ExchangeFind(ID, CODE)
    else if n <= at + 2 then ExchangeCount(RESOLVED)
    else if n <= at + 4 then ExchangeSession(RESOLVED)
    else if n <= at + 6 then ExchangeDelete(RESOLVED, SESSION)
    else Done(SESSION)
  }

  function Moment(n: nat): State {
    State(RowsAt(n), map[0 := Callback(n), 1 := Exchange(n, 4), 2 := Exchange(n, 5)],
          Names(if n == 0 then 0 else n + 1), if n < 3 then {} else {Win(0, ID)})
  }

  function DrawAt(n: nat): Draw { Draw(0, Name(n + 1), Proven("subject", None, Some("u"), "i"), true) }

  function Nth(n: nat): Event {
    if n == 0 then Start(STARTED) else Run(if n < 4 then 0 else if n % 2 == 0 then 1 else 2, DrawAt(n))
  }

  ghost predicate Leads(n: nat) { Enabled(Moment(n), Nth(n)) && Moment(n + 1) == After(Moment(n), Nth(n)) }

  lemma OneName(n: nat)
    requires n > 0
    ensures Name(n + 1) !in Names(n + 1) && Names(n + 2) == Names(n + 1) + {Name(n + 1)}
  {
    NamesUpTo(n + 1, n + 1);
  }

  lemma Starting()
    ensures Leads(0)
  {
    NamesDiffer(0, 1);
  }

  /** There is one row, so there is nothing to choose. */
  lemma OneRow(row: Challenge)
    requires row.id == ID
    ensures Keyed(map[ID := row]) && ByState(map[ID := row], row.state) == Some(row)
    ensures row.exchange.Some? ==> ByDigest(map[ID := row], row.exchange.value) == Some(row)
  {
    var rows := map[ID := row];
    assert ID in rows && Keyed(rows);
    StateNames(rows, ID);
    if row.exchange.Some? { DigestNames(rows, ID); }
  }

  lemma CallingBack(n: nat)
    requires 1 <= n < 4
    ensures Leads(n)
  {
    OneName(n);
    OneRow(STARTED);
  }

  lemma Finding(n: nat)
    requires 4 <= n < 6
    ensures Leads(n)
  {
    OneName(n);
    OneRow(RESOLVED);
  }

  lemma CountingUp(n: nat)
    requires 6 <= n < 8
    ensures Leads(n)
  {
    OneName(n);
  }

  lemma Ending(n: nat)
    requires 8 <= n < 12
    ensures Leads(n)
  {
    OneName(n);
  }

  ghost function Twice(): History {
    History(seq(13, n requires 0 <= n < 13 => Moment(n)), seq(12, n requires 0 <= n < 12 => Nth(n)))
  }

  lemma TwiceIsRun()
    ensures IsRun(Twice())
  {
    forall n | 0 <= n < 12 ensures Follows(Twice(), n) {
      if n == 0 { Starting(); }
      else if n < 4 { CallingBack(n); }
      else if n < 6 { Finding(n); }
      else if n < 8 { CountingUp(n); }
      else { Ending(n); }
      assert Leads(n);
    }
  }

  /** From empty tables: one challenge, redeemed once, and two exchanges of its code that overlap. Both
      callers end with a session. */
  lemma OneCodeTwoSessions()
    ensures var s := Twice().states[12];
      IsRun(Twice()) && Through(s.callers[1], ID) && Through(s.callers[2], ID)
  {
    TwiceIsRun();
    assert Twice().states[12] == Moment(12);
  }
}
