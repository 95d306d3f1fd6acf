/** The challenge rows of a Google sign-in or link, and the store calls on them. */
module Challenges {
  import opened Store

  datatype Purpose = SignIn | Link

  datatype Challenge = Challenge(
    id: string, purpose: Purpose, account: Option<string>,
    state: string, nonce: string, verifier: string, redirect: string, createdAt: int,
    exchange: Option<string>, user: Option<string>, identity: Option<string>,
    subject: Option<string>, email: Option<string>,
    attempts: int, expiresAt: int, consumedAt: Option<int>)

  type Rows = map<string, Challenge>

  predicate Rivals(a: Challenge, b: Challenge) {
    a.state == b.state || (a.exchange.Some? && a.exchange == b.exchange)
  }

  /** Primary key, the unique state, the unique digest where there is one, and the account a link is
      for, which has to be one of `users`. */
  predicate Admits(rows: Rows, users: set<string>, row: Challenge) {
    && row.id !in rows && (forall id | id in rows :: !Rivals(row, rows[id]))
    && (row.account.Some? ==> row.account.value in users)
  }

  function Consuming(rows: Rows, id: string, at: int): (Rows, bool) {
    if id in rows && rows[id].consumedAt.None? then (rows[id := rows[id].(consumedAt := Some(at))], true)
    else (rows, false)
  }

  function Attaching(rows: Rows, id: string, digest: string, user: string, identity: string): Rows {
    if id in rows then rows[id := rows[id].(exchange := Some(digest), user := Some(user), identity := Some(identity))]
    else rows
  }

  function AttachingLink(rows: Rows, id: string, digest: string, subject: string, email: Option<string>): Rows {
    if id in rows then rows[id := rows[id].(exchange := Some(digest), subject := Some(subject), email := email)]
    else rows
  }

  function Counting(rows: Rows, id: string): (Rows, int) {
    if id in rows then (rows[id := rows[id].(attempts := rows[id].attempts + 1)], rows[id].attempts + 1) else (rows, 0)
  }

  function Purging(rows: Rows, now: int): Rows { map id | id in rows && rows[id].expiresAt > now :: rows[id] }

  ghost function ByState(rows: Rows, state: string): Option<Challenge> {
    if exists id :: id in rows && rows[id].state == state then
      var id :| id in rows && rows[id].state == state;
      Some(rows[id])
    else None
  }

  ghost function ByDigest(rows: Rows, digest: string): Option<Challenge> {
    if exists id :: id in rows && rows[id].exchange == Some(digest) then
      var id :| id in rows && rows[id].exchange == Some(digest);
      Some(rows[id])
    else None
  }

  /** Rows sit under their ids; a state and a digest each name one row. */
  ghost predicate Keyed(rows: Rows) {
    && (forall id | id in rows :: rows[id].id == id)
    && (forall a, b | a in rows && b in rows && rows[a].state == rows[b].state :: a == b)
    && (forall a, b | a in rows && b in rows && rows[a].exchange.Some? && rows[a].exchange == rows[b].exchange :: a == b)
  }

  lemma DigestNames(rows: Rows, id: string)
    requires Keyed(rows) && id in rows && rows[id].exchange.Some?
    ensures ByDigest(rows, rows[id].exchange.value) == Some(rows[id])
  {
  }

  lemma StateNames(rows: Rows, id: string)
    requires Keyed(rows) && id in rows
    ensures ByState(rows, rows[id].state) == Some(rows[id])
  {
  }

  class ChallengeStore {
    var rows: Rows

    constructor ()
      ensures rows == map[]
    {
      rows := map[];
    }

    /** `users` is what the parent lookup sees. */
    method Insert(users: set<string>, row: Challenge) returns (ok: bool)
      modifies this
      ensures ok <==> Admits(old(rows), users, row)
      ensures rows == if ok then old(rows)[row.id := row] else old(rows)
    {
      if row.id in rows { return false; }
      var rest := rows.Keys;
      while rest != {}
        invariant rest <= rows.Keys && rows == old(rows)
        invariant forall id | id in rows && id !in rest :: !Rivals(row, rows[id])
        decreases rest
      {
        var id :| id in rest;
        if Rivals(row, rows[id]) { return false; }
        rest := rest - {id};
      }
      if row.account.Some? && row.account.value !in users { return false; }
      rows := rows[row.id := row];
      ok := true;
    }

    method FindByState(state: string) returns (r: Option<Challenge>)
      requires Keyed(rows)
      ensures r == ByState(rows, state)
    {
      var rest := rows.Keys;
      while rest != {}
        invariant rest <= rows.Keys
        invariant forall id | id in rows && id !in rest :: rows[id].state != state
        decreases rest
      {
        var id :| id in rest;
        if rows[id].state == state {
          StateNames(rows, id);
          return Some(rows[id]);
        }
        rest := rest - {id};
      }
      r := None;
    }

    method FindByDigest(digest: string) returns (r: Option<Challenge>)
      requires Keyed(rows)
      ensures r == ByDigest(rows, digest)
    {
      var rest := rows.Keys;
      while rest != {}
        invariant rest <= rows.Keys
        invariant forall id | id in rows && id !in rest :: rows[id].exchange != Some(digest)
        decreases rest
      {
        var id :| id in rest;
        if rows[id].exchange == Some(digest) {
          DigestNames(rows, id);
          return Some(rows[id]);
        }
        rest := rest - {id};
      }
      r := None;
    }

    method Consume(id: string, at: int) returns (claimed: bool)
      modifies this
      ensures (rows, claimed) == Consuming(old(rows), id, at)
    {
      if id !in rows || rows[id].consumedAt.Some? { return false; }
      rows := rows[id := rows[id].(consumedAt := Some(at))];
      claimed := true;
    }

    method AttachOutcome(id: string, digest: string, user: string, identity: string)
      modifies this
      ensures rows == Attaching(old(rows), id, digest, user, identity)
    {
      if id in rows {
        rows := rows[id := rows[id].(exchange := Some(digest), user := Some(user), identity := Some(identity))];
      }
    }

    method AttachLinkOutcome(id: string, digest: string, subject: string, email: Option<string>)
      modifies this
      ensures rows == AttachingLink(old(rows), id, digest, subject, email)
    {
      if id in rows {
        rows := rows[id := rows[id].(exchange := Some(digest), subject := Some(subject), email := email)];
      }
    }

    method CountAttempt(id: string) returns (attempts: int)
      modifies this
      ensures (rows, attempts) == Counting(old(rows), id)
    {
      if id !in rows { return 0; }
      attempts := rows[id].attempts + 1;
      rows := rows[id := rows[id].(attempts := attempts)];
    }

    method Delete(id: string)
      modifies this
      ensures rows == old(rows) - {id}
    {
      rows := rows - {id};
    }

    method PurgeExpired(now: int) returns (count: nat)
      modifies this
      ensures rows == Purging(old(rows), now)
      ensures count == |old(rows)| - |rows|
    {
      count := 0;
      var rest := rows.Keys;
      while rest != {}
        invariant rest <= rows.Keys <= old(rows).Keys
        invariant forall k | k in rows :: rows[k] == old(rows)[k]
        invariant forall k | k in old(rows) && k !in rest :: k in rows <==> old(rows)[k].expiresAt > now
        invariant count == |old(rows)| - |rows|
        decreases rest
      {
        var id :| id in rest;
        if rows[id].expiresAt <= now {
          assert (rows - {id}).Keys == rows.Keys - {id};
          rows := rows - {id};
          count := count + 1;
        }
        rest := rest - {id};
      }
    }
  }
}
