/** The in-memory adapter: three maps updated in place, each call proved against the atomic write
    of `Store` that the interleaving proofs use. */
module MemoryStore {
  import opened Store
  import Atomic = Store
  import EmailAddress

  /** Rows sit under their own ids and the digest is unique. */
  ghost predicate WellKeyed(sessions: map<string, SessionRow>) {
    && (forall id | id in sessions :: sessions[id].id == id)
    && (forall a, b | a in sessions && b in sessions && a != b :: sessions[a].digest != sessions[b].digest)
  }

  lemma SameNamesStayKeyed(before: map<string, SessionRow>, after: map<string, SessionRow>)
    requires WellKeyed(before) && before.Keys == after.Keys
    requires forall id | id in before ::
               after[id].id == before[id].id && after[id].digest == before[id].digest
    ensures WellKeyed(after)
  {
  }

  function Marked(row: SessionRow, at: int, reason: string): SessionRow {
    row.(revokedAt := Some(at), revokedReason := Some(reason))
  }

  /** The rows a revocation still has to mark. */
  function Targets(sessions: map<string, SessionRow>, scope: Scope): set<string> {
    set id | id in sessions && Selects(scope, sessions[id]) && sessions[id].revokedAt.None?
  }

  lemma MarkedIsRevoked(before: map<string, SessionRow>, after: map<string, SessionRow>,
                        targets: set<string>, scope: Scope, at: int, reason: string)
    requires targets == Targets(before, scope) && before.Keys == after.Keys
    requires forall id | id in before ::
               after[id] == if id in targets then Marked(before[id], at, reason) else before[id]
    ensures forall db: Db | db.sessions == before :: Revoke(db, scope, at, reason).sessions == after
    ensures forall id | id in before :: after[id].id == before[id].id && after[id].digest == before[id].digest
  {
    forall db: Db | db.sessions == before ensures Revoke(db, scope, at, reason).sessions == after {
      assert Revoke(db, scope, at, reason).sessions.Keys == after.Keys;
      assert forall id | id in before :: after[id] == RevokedRow(before[id], scope, at, reason);
    }
  }

  class MemoryStore {
    var users: map<string, UserRow>
    var identities: map<string, IdentityRow>
    var sessions: map<string, SessionRow>

    ghost function Contents(): Db
      reads this
    {
      Db(users, identities, sessions)
    }

    ghost predicate Valid()
      reads this
    {
      WellKeyed(sessions)
    }

    constructor ()
      ensures Valid() && Contents() == Db(map[], map[], map[])
    {
      users, identities, sessions := map[], map[], map[];
    }

    /** Whatever other callers have written by the time this one is resumed after an `await`. */
    method Resume(written: Db)
      requires WellKeyed(written.sessions)
      modifies this
      ensures Valid() && Contents() == written
    {
      users, identities, sessions := written.users, written.identities, written.sessions;
    }

    method GetUser(id: string) returns (r: Option<UserRow>)
      ensures r == if id in users then Some(users[id]) else None
    {
      r := if id in users then Some(users[id]) else None;
    }

    method GetSession(id: string) returns (r: Option<SessionRow>)
      ensures r == if id in sessions then Some(sessions[id]) else None
    {
      r := if id in sessions then Some(sessions[id]) else None;
    }

    method InsertUser(row: UserRow) returns (ok: bool)
      requires Valid()
      modifies this
      ensures Valid()
      ensures ok <==> row.id !in old(users)
      ensures Contents() == if ok then Atomic.InsertUser(old(Contents()), row).value else old(Contents())
    {
      if row.id in users { return false; }
      users := users[row.id := row];
      ok := true;
    }

    method MarkUserDeleted(id: string, at: int)
      requires Valid()
      modifies this
      ensures Valid() && Contents() == Atomic.MarkUserDeleted(old(Contents()), id, at)
    {
      if id in users { users := users[id := users[id].(state := Deleted, deletedAt := Some(at))]; }
    }

    method TouchIdentity(id: string, at: int)
      requires Valid()
      modifies this
      ensures Valid() && Contents() == Atomic.TouchIdentity(old(Contents()), id, at)
    {
      if id in identities { identities := identities[id := identities[id].(lastUsedAt := Some(at))]; }
    }

    /** Scans for the row; `None` means no row carries the digest. */
    method FindSessionByDigest(digest: string) returns (r: Option<SessionRow>)
      ensures r.Some? ==> r.value.digest == digest && exists id :: id in sessions && sessions[id] == r.value
      ensures r.None? ==> forall id | id in sessions :: sessions[id].digest != digest
    {
      var rest := sessions.Keys;
      while rest != {}
        invariant rest <= sessions.Keys
        invariant forall id | id in sessions && id !in rest :: sessions[id].digest != digest
        decreases rest
      {
        var id :| id in rest;
        if sessions[id].digest == digest {
          return Some(sessions[id]);
        }
        rest := rest - {id};
      }
      r := None;
    }

    /** Stores the row, or refuses it and changes nothing. */
    method InsertSession(row: SessionRow) returns (ok: bool)
      requires Valid()
      modifies this
      ensures Valid()
      ensures ok <==> AdmitsSession(old(Contents()), row)
      ensures Contents() == if ok then Atomic.InsertSession(old(Contents()), row).value else old(Contents())
    {
      if row.id in sessions { return false; }
      var clash := FindSessionByDigest(row.digest);
      if clash.Some? { return false; }
      if row.owner !in users { return false; }
      if row.identity.Some? && row.identity.value !in identities { return false; }
      sessions := sessions[row.id := row];
      ok := true;
    }

    method GetIdentity(id: string) returns (r: Option<IdentityRow>)
      ensures r == if id in identities then Some(identities[id]) else None
    {
      r := if id in identities then Some(identities[id]) else None;
    }

    /** Scans for a row of the kind with the subject, or, without one, with the verified address. */
    method FindIdentity(kind: Kind, subject: Option<string>, email: Option<string>) returns (r: Option<IdentityRow>)
      ensures r.Some? ==> Answers(r.value, kind, subject, email) && exists i :: i in identities && identities[i] == r.value
      ensures r.None? ==> forall i | i in identities :: !Answers(identities[i], kind, subject, email)
    {
      var rest := identities.Keys;
      while rest != {}
        invariant rest <= identities.Keys
        invariant forall i | i in identities && i !in rest :: !Answers(identities[i], kind, subject, email)
        decreases rest
      {
        var i :| i in rest;
        if Answers(identities[i], kind, subject, email) { return Some(identities[i]); }
        rest := rest - {i};
      }
      r := None;
    }

    /** Whether some other identity of the account can be signed in with. */
    method HasOtherVerified(owner: string, except: string) returns (found: bool)
      ensures found <==> exists i | i in identities ::
                i != except && identities[i].owner == owner && Atomic.KeyOf(identities[i]).Some?
    {
      var rest := identities.Keys;
      while rest != {}
        invariant rest <= identities.Keys
        invariant forall i | i in identities && i !in rest ::
          !(i != except && identities[i].owner == owner && Atomic.KeyOf(identities[i]).Some?)
        decreases rest
      {
        var i :| i in rest;
        if i != except && identities[i].owner == owner && Atomic.KeyOf(identities[i]).Some? { return true; }
        rest := rest - {i};
      }
      found := false;
    }

    /** Stores the identity, or refuses it and changes nothing. */
    method InsertIdentity(row: IdentityRow) returns (ok: bool)
      requires Valid()
      modifies this
      ensures Valid()
      ensures ok <==> AdmitsIdentity(old(Contents()), row)
      ensures Contents() == if ok then Atomic.InsertIdentity(old(Contents()), row).value else old(Contents())
    {
      if row.id in identities { return false; }
      if row.email.Some? && !EmailAddress.DomainIsFolded(row.email.value) { return false; }
      if Atomic.KeyOf(row).Some? {
        var rest := identities.Keys;
        while rest != {}
          invariant rest <= identities.Keys
          invariant forall i | i in identities && i !in rest :: Atomic.KeyOf(identities[i]) != Atomic.KeyOf(row)
          decreases rest
        {
          var i :| i in rest;
          if Atomic.KeyOf(identities[i]) == Atomic.KeyOf(row) { return false; }
          rest := rest - {i};
        }
      }
      if row.owner !in users { return false; }
      identities := identities[row.id := row];
      ok := true;
    }

    method ClaimSessionRotation(id: string, at: int) returns (won: bool)
      requires Valid()
      modifies this
      ensures Valid()
      ensures (Contents(), won) == ClaimRotation(old(Contents()), id, at)
    {
      if id !in sessions || sessions[id].rotatedAt.Some? { return false; }
      sessions := sessions[id := sessions[id].(rotatedAt := Some(at))];
      won := true;
    }

    /** Marks every selected row that is not revoked yet and reports how many there were. */
    method RevokeWhere(scope: Scope, at: int, reason: string) returns (count: nat)
      requires Valid()
      modifies this
      ensures Valid()
      ensures Contents() == Revoke(old(Contents()), scope, at, reason)
      ensures count == |Targets(old(sessions), scope)|
    {
      ghost var before := sessions;
      var targets := Targets(sessions, scope);
      count := |targets|;
      var rest := targets;
      while rest != {}
        invariant rest <= targets
        invariant users == old(users) && identities == old(identities)
        invariant sessions.Keys == before.Keys
        invariant forall id | id in before ::
          sessions[id] == if id in targets - rest then Marked(before[id], at, reason) else before[id]
        decreases rest
      {
        var id :| id in rest;
        sessions := sessions[id := Marked(sessions[id], at, reason)];
        rest := rest - {id};
      }
      MarkedIsRevoked(before, sessions, targets, scope, at, reason);
      SameNamesStayKeyed(before, sessions);
    }

    /** Clears the provenance of the identity's sessions, then removes the identity. */
    method DeleteIdentity(identity: string)
      requires Valid()
      modifies this
      ensures Valid()
      ensures Contents() == Atomic.DeleteIdentity(old(Contents()), identity)
    {
      var rest := set id | id in sessions && sessions[id].identity == Some(identity);
      while rest != {}
        invariant rest <= sessions.Keys
        invariant forall id | id in rest :: old(sessions)[id].identity == Some(identity)
        invariant users == old(users) && identities == old(identities)
        invariant sessions.Keys == old(sessions).Keys
        invariant forall id | id in sessions ::
          sessions[id] == (if id in rest then old(sessions)[id] else Orphaned(old(sessions)[id], identity))
        decreases rest
      {
        var id :| id in rest;
        sessions := sessions[id := sessions[id].(identity := None)];
        rest := rest - {id};
      }
      identities := identities - {identity};
      assert sessions == Atomic.DeleteIdentity(old(Contents()), identity).sessions;
      SameNamesStayKeyed(old(sessions), sessions);
    }
  }
}
