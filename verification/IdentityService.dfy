/** `attachIdentity` and `detachIdentity` as code over the store, left undisturbed. */
module IdentityService {
  import opened Store
  import opened MemoryStore
  import Identity
  import Rotation

  function Remaining(pc: Identity.Pc): nat {
    match pc
    case AttachUser(_, _) => 4
    case AttachFind(_, _) => 3
    case AttachInsert(_, _) => 2
    case _ => 0
  }

  /** An attach left to itself. */
  ghost function Attaching(db: Db, pc: Identity.Pc, d: Identity.Draw): (Db, Identity.Pc)
    decreases Remaining(pc)
  {
    if Remaining(pc) == 0 then (db, pc)
    else
      var (db', pc') := Identity.Advance(db, pc, d);
      if Remaining(pc') < Remaining(pc) then Attaching(db', pc', d) else (db', pc')
  }

  /** At most one row answers to a proof, so the scan and the choice find the same. */
  ghost predicate OneAnswer(db: Db, v: Identity.Assertion) {
    forall a, b | a in db.identities && b in db.identities
      && Identity.Matches(db.identities[a], v) && Identity.Matches(db.identities[b], v) :: a == b
  }

  class IdentityService {
    const store: MemoryStore

    constructor (store: MemoryStore)
      ensures this.store == store
    {
      this.store := store;
    }

    /** The account of the principal gets the identity, or is refused it. */
    method AttachIdentity(v: Identity.Assertion, user: string, session: string, d: Identity.Draw)
      returns (outcome: Identity.Outcome)
      requires store.Valid() && OneAnswer(store.Contents(), v)
      modifies store
      ensures store.Valid()
      ensures var agent := Identity.Agent(user, session, false);
        Attaching(old(store.Contents()), Identity.StartAttach(v, agent), d) == (store.Contents(), Identity.Done(v, outcome))
    {
      ghost var db := store.Contents();
      ghost var agent := Identity.Agent(user, session, false);
      if !Identity.Usable(v) { return Identity.Refused(Identity.InvalidArgument); }
      var account := store.GetUser(user);
      if account.None? { return Identity.Refused(Identity.NotFound); }
      if account.value.state.Deleted? { return Identity.Refused(Identity.AccountDeleted); }
      var found := store.FindIdentity(v.kind, v.subject, v.email);
      AttachFrom(db, v, agent, d);
      if found.Some? {
        if found.value.owner == user { return Identity.Resolved(user, found.value.id); }
        return Identity.Refused(Identity.InUse);
      }
      var row := IdentityRow(d.id, user, v.kind, v.subject, v.email, v.verified, d.now, Some(session), None);
      var ok := store.InsertIdentity(row);
      outcome := if ok then Identity.Resolved(user, d.id) else Identity.Refused(Identity.InUse);
    }

    /** Unlinks, revoking first. An account that could sign in another way still can. */
    method DetachIdentity(owner: string, identity: string, now: int) returns (outcome: Rotation.Outcome, revoked: nat)
      requires store.Valid()
      modifies store
      ensures store.Valid()
      ensures var db := old(store.Contents());
        if identity !in db.identities || db.identities[identity].owner != owner then
          outcome == Rotation.Refused(Rotation.NotFound) && store.Contents() == db
        else if !Rotation.HasOtherIdentity(db, owner, identity) then
          outcome == Rotation.Refused(Rotation.LastIdentity) && store.Contents() == db
        else
          && outcome == Rotation.Accepted
          && revoked == |Targets(db.sessions, Scope.Identity(identity))|
          && store.Contents() == DeleteIdentity(Revoke(db, Scope.Identity(identity), now, "identity_unlinked"), identity)
      ensures outcome == Rotation.Accepted ==> KeepsAWayIn(store.Contents(), owner)
    {
      var found := store.GetIdentity(identity);
      if found.None? || found.value.owner != owner { return Rotation.Refused(Rotation.NotFound), 0; }
      var other := store.HasOtherVerified(owner, identity);
      if !other { return Rotation.Refused(Rotation.LastIdentity), 0; }
      DetachKeepsAWayIn(store.Contents(), owner, identity, now);
      revoked := store.RevokeWhere(Scope.Identity(identity), now, "identity_unlinked");
      store.DeleteIdentity(identity);
      outcome := Rotation.Accepted;
    }
  }

  ghost predicate KeepsAWayIn(db: Db, owner: string) {
    exists i :: i in db.identities && db.identities[i].owner == owner && KeyOf(db.identities[i]).Some?
  }

  lemma DetachKeepsAWayIn(db: Db, owner: string, identity: string, now: int)
    requires Rotation.HasOtherIdentity(db, owner, identity)
    ensures KeepsAWayIn(DeleteIdentity(Revoke(db, Scope.Identity(identity), now, "identity_unlinked"), identity), owner)
  {
    var i :| i in db.identities && i != identity && db.identities[i].owner == owner && Rotation.Verified(db.identities[i]);
    var db' := DeleteIdentity(Revoke(db, Scope.Identity(identity), now, "identity_unlinked"), identity);
    assert i in db'.identities && db'.identities[i] == db.identities[i];
  }

  lemma FindStep(db: Db, v: Identity.Assertion, agent: Identity.Agent, d: Identity.Draw)
    requires !agent.boot
    ensures Attaching(db, Identity.AttachFind(v, agent), d) ==
      match Identity.FindIdentity(db, v)
      case Some(row) =>
        (db, Identity.Done(v, if row.owner == agent.user then Identity.Resolved(row.owner, row.id)
                              else Identity.Refused(Identity.InUse)))
      case None => Attaching(db, Identity.AttachInsert(v, agent), d)
  {
    var (db', pc') := Identity.Advance(db, Identity.AttachFind(v, agent), d);
    assert db' == db;
    if Identity.FindIdentity(db, v).Some? { assert Remaining(pc') == 0 && Attaching(db, pc', d) == (db, pc'); }
  }

  lemma AttachFrom(db: Db, v: Identity.Assertion, agent: Identity.Agent, d: Identity.Draw)
    requires Identity.Usable(v) && !agent.boot && agent.user in db.users && db.users[agent.user].state.Active?
    ensures var found := Identity.FindIdentity(db, v);
      Attaching(db, Identity.AttachUser(v, agent), d) ==
        match found
        case Some(row) =>
          (db, Identity.Done(v, if row.owner == agent.user then Identity.Resolved(row.owner, row.id)
                                else Identity.Refused(Identity.InUse)))
        case None =>
          (match InsertIdentity(db, Identity.NewRow(v, agent, d))
           case Some(db') => (db', Identity.Done(v, Identity.Resolved(agent.user, d.id)))
           case None => (db, Identity.Done(v, Identity.Refused(Identity.InUse))))
  {
    assert Identity.Advance(db, Identity.AttachUser(v, agent), d) == (db, Identity.AttachFind(v, agent));
    FindStep(db, v, agent, d);
  }
}
