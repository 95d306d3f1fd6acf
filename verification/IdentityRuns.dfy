/** Two runs: one that leaves a bootstrap session unrevoked, one in which a subject nobody holds is
    refused as if somebody did, for the address that comes with it. */
module IdentityRuns {
  import opened Store
  import opened Naming
  import opened Identity
  import opened IdentitySafety
  import BootstrapFate
  import Secrecy = BootstrapSecrecy
  import EmailAddress

  // ---- draws ----

  /** The draw of the `n`-th step: three names not drawn before. */
  function NthDraw(n: nat): Draw { Draw(0, Name(3 * n), Name(3 * n + 1), Name(3 * n + 2)) }

  lemma DrawIsFresh(s: State, n: nat)
    requires s.minted == Names(3 * n)
    ensures FreshDraw(s, NthDraw(n))
    ensures s.minted + {NthDraw(n).id, NthDraw(n).family, NthDraw(n).digest} == Names(3 * (n + 1))
  {
    NamesUpTo(3 * n, 3 * n);
    NamesUpTo(3 * n, 3 * n + 1);
    NamesUpTo(3 * n, 3 * n + 2);
    NamesDiffer(3 * n, 3 * n + 1);
    NamesDiffer(3 * n, 3 * n + 2);
    NamesDiffer(3 * n + 1, 3 * n + 2);
    ThreeMore(3 * n);
  }

  // ---- a flow that is resumed when its session has run out ----

  const NEWCOMER := Assertion(Store.Google, Some("subject"), None, false)
  const ACCOUNT := Name(3)
  const SESSION := Name(9)
  const AGENT := Agent(ACCOUNT, SESSION, true)
  const OPEN := UserRow(ACCOUNT, 0, Active, None)
  const BOOT := SessionRow(SESSION, ACCOUNT, None, Name(10), Name(11), 1, 0, REFRESH_TTL, None, None, None, 0)

  /** The tables after `n` steps. */
  function Tables(n: nat): Db {
    Db(if n < 2 then map[] else map[ACCOUNT := OPEN], map[], if n < 4 then map[] else map[SESSION := BOOT])
  }

  function Counter(n: nat): Pc {
    match n
    case 0 => Find(NEWCOMER)
    case 1 => MakeUser(NEWCOMER)
    case 2 => BootRead(NEWCOMER, ACCOUNT)
    case 3 => BootInsert(NEWCOMER, ACCOUNT)
    case 4 => BootSession(NEWCOMER, AGENT)
    case _ => Done(NEWCOMER, Unverified(SESSION))
  }

  function Moment(n: nat): State {
    State(Tables(n), map[0 := Counter(n)], Names(3 * n), if n < 4 then map[] else map[SESSION := 0], {})
  }

  /** The last step comes a whole session's life after the others. */
  function Nth(n: nat): Event { Run(0, NthDraw(n).(now := if n < 4 then 0 else REFRESH_TTL)) }

  lemma Opening(n: nat)
    requires n < 3
    ensures Enabled(Moment(n), Nth(n)) && Moment(n + 1) == After(Moment(n), Nth(n))
  {
    DrawIsFresh(Moment(n), n);
  }

  lemma Inserting()
    ensures Enabled(Moment(3), Nth(3)) && Moment(4) == After(Moment(3), Nth(3))
  {
    DrawIsFresh(Moment(3), 3);
    assert AdmitsSession(Tables(3), BootRow(ACCOUNT, NthDraw(3)));
  }

  lemma Expiring()
    ensures Enabled(Moment(4), Nth(4)) && Moment(5) == After(Moment(4), Nth(4))
  {
    DrawIsFresh(Moment(4), 4);
  }

  ghost function Survivor(): History {
    History(seq(6, n requires 0 <= n < 6 => Moment(n)), seq(5, n requires 0 <= n < 5 => Nth(n)))
  }

  lemma StartsEmpty()
    ensures Initial(Moment(0)) && Secrecy.Tied(Moment(0))
  {
  }

  lemma SurvivorIsRun()
    ensures IsRun(Survivor())
  {
    var h := Survivor();
    StartsEmpty();
    forall n | 0 <= n < 5 ensures Follows(h, n) {
      if n < 3 { Opening(n); } else if n == 3 { Inserting(); } else { Expiring(); }
    }
  }

  lemma SurvivorIsDisclosed()
    ensures Secrecy.AllDisclosed(Survivor())
  {
    var h := Survivor();
    forall n | 0 <= n < 5 ensures Secrecy.Disclosed(h.states[n], h.events[n]) {
      assert h.states[n] == Moment(n) && h.events[n] == Nth(n);
    }
  }

  /** A first sign-in that is resumed only when its bootstrap session has expired leaves that session
      unrevoked when everybody is done. Nobody else has done anything. */
  lemma ExpiryLeavesASession()
    ensures var h := Survivor();
      && IsRun(h) && Secrecy.Tied(h.states[0]) && Secrecy.AllDisclosed(h)
      && BootstrapFate.Quiet(h.states[5]) && SESSION in h.states[5].boots
      && SESSION in h.states[5].db.sessions && h.states[5].db.sessions[SESSION].revokedAt.None?
  {
    StartsEmpty();
    SurvivorIsRun();
    SurvivorIsDisclosed();
    assert Survivor().states[5] == Moment(5) && Survivor().states[0] == Moment(0);
  }

  // ---- a subject nobody holds is refused as taken ----

  /** What a token of Google's with that address as a verified one proves. */
  const BARE := Assertion(Store.Google, Some("subject"), Some("@EXAMPLE.COM"), true)
  const HOST := Name(1)
  const PRINCIPAL := Agent(HOST, Name(2), false)

  function Linking(n: nat): State {
    State(Db(map[HOST := UserRow(HOST, 0, Active, None)], map[], map[]),
          map[0 := if n == 0 then AttachUser(BARE, PRINCIPAL) else if n == 1 then AttachFind(BARE, PRINCIPAL)
                   else AttachInsert(BARE, PRINCIPAL)],
          Names(3 * (n + 1)), map[], {})
  }

  ghost function Link(): History {
    History(seq(3, n requires 0 <= n < 3 => Linking(n)), seq(2, n requires 0 <= n < 2 => Run(0, NthDraw(n + 1))))
  }

  lemma LinkStep(n: nat)
    requires n < 2
    ensures Enabled(Linking(n), Run(0, NthDraw(n + 1))) && Linking(n + 1) == After(Linking(n), Run(0, NthDraw(n + 1)))
  {
    DrawIsFresh(Linking(n), n + 1);
  }

  lemma BareIsUsable()
    ensures Proves(BARE) && Usable(BARE) && BareCapitals(BARE.email.value)
  {
    EmailAddress.BareDomain();
  }

  lemma LinkStarts()
    ensures Initial(Linking(0))
  {
    BareIsUsable();
    NamesUpTo(3, 1);
  }

  lemma LinkIsRun()
    ensures IsRun(Link())
  {
    LinkStarts();
    forall n | 0 <= n < 2 ensures Follows(Link(), n) { LinkStep(n); }
  }

  /** A reachable write that is refused although no identity is stored at all. */
  lemma FreeSubjectRefused()
    ensures var s := Link().states[2];
      && IsRun(Link()) && s.db.identities == map[] && s.callers[0] == AttachInsert(BARE, PRINCIPAL)
      && FreshDraw(s, NthDraw(3))
      && Advance(s.db, s.callers[0], NthDraw(3)).1 == Done(BARE, Refused(InUse))
  {
    LinkIsRun();
    DrawIsFresh(Linking(2), 3);
    BareIsUsable();
    AttachRefusedExactly(Link(), 2, 0, NthDraw(3));
  }
}
