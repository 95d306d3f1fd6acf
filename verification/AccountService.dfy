/** The only writers of account state, as code over the store. */
module AccountService {
  import opened Store
  import opened MemoryStore
  import Rotation

  class AccountService {
    const store: MemoryStore

    constructor (store: MemoryStore)
      ensures this.store == store
    {
      this.store := store;
    }

    /** `id` is freshly drawn. */
    method CreateAccount(id: string, now: int) returns (row: UserRow)
      requires store.Valid() && id !in store.users
      modifies store
      ensures store.Valid() && row == UserRow(id, now, Active, None)
      ensures store.Contents() == old(store.Contents()).(users := old(store.users)[id := row])
    {
      row := UserRow(id, now, Active, None);
      var _ := store.InsertUser(row);
    }

    /** Afterwards the account authorises nothing: it is deleted and has no unrevoked session. */
    method MarkAccountDeleted(id: string, now: int) returns (outcome: Rotation.Outcome)
      requires store.Valid()
      modifies store
      ensures store.Valid()
      ensures var db := old(store.Contents());
        if id !in db.users then outcome == Rotation.Refused(Rotation.NotFound) && store.Contents() == db
        else if db.users[id].state.Deleted? then outcome == Rotation.Refused(Rotation.AccountDeleted) && store.Contents() == db
        else outcome == Rotation.Accepted
             && store.Contents() == Revoke(MarkUserDeleted(db, id, now), User(id), now, "account_deleted")
      ensures outcome == Rotation.Accepted ==> Closed(store.Contents(), id)
    {
      ghost var db := store.Contents();
      var existing := store.GetUser(id);
      if existing.None? { return Rotation.Refused(Rotation.NotFound); }
      if existing.value.state.Deleted? { return Rotation.Refused(Rotation.AccountDeleted); }
      store.MarkUserDeleted(id, now);
      var _ := store.RevokeWhere(User(id), now, "account_deleted");
      ClosingCloses(db, id, now);
      outcome := Rotation.Accepted;
    }
  }

  /** A deleted account none of whose sessions is left unrevoked. */
  ghost predicate Closed(db: Db, id: string) {
    && id in db.users && db.users[id].state.Deleted? && db.users[id].deletedAt.Some?
    && forall s | s in db.sessions && db.sessions[s].owner == id :: db.sessions[s].revokedAt.Some?
  }

  lemma ClosingCloses(db: Db, id: string, now: int)
    requires id in db.users
    ensures Closed(Revoke(MarkUserDeleted(db, id, now), User(id), now, "account_deleted"), id)
  {
  }

  /** The programs of the interleaving model end in the same tables when left alone. */
  lemma ClosingIsTheProgram(db: Db, id: string, d: Rotation.Draw)
    requires id in db.users && db.users[id].state.Active?
    ensures var (db1, pc1) := Rotation.Advance(db, Rotation.CloseRead(id), d);
      var (db2, pc2) := Rotation.Advance(db1, pc1, d);
      var (db3, pc3) := Rotation.Advance(db2, pc2, d);
      pc3 == Rotation.Done(Rotation.Accepted)
      && db3 == Revoke(MarkUserDeleted(db, id, d.now), User(id), d.now, "account_deleted")
  {
  }
}
