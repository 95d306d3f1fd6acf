/** Rows on which the engine's rules fall short of the declared ones: one lawful database, and the
    writes that leave it unsound. */
module SchemaGaps {
  import opened Store
  import opened Schema
  import opened Engine
  import opened StoreSchema
  import opened StoreEmbedding
  import E = EngineSafety
  import A = DdlAgreement
  import SchemaAgreement
  import StoreSafety

  // ---- an update can cut a foreign key loose ----

  lemma ProvenanceMayPatch(next: string)
    ensures Patchable(SessionTable(), map[Col.AuthIdentityId := Text(next)])
  {
    SessionMayPatch(Col.AuthIdentityId);
  }

  lemma Reattributed(row: SessionRow, next: string)
    ensures SessionRecord(row.(identity := Some(next))) == SessionRecord(row) + map[Col.AuthIdentityId := Text(next)]
  {
  }

  lemma ReattributionAccepted(db: Db, id: string, next: string)
    requires OwnIds(db) && DistinctKeys(db) && id in db.sessions
    ensures Updating(SessionTable(), Keyed(SessionRecords(db)), [Text(id)], map[Col.AuthIdentityId := Text(next)]).1
  {
    ProvenanceMayPatch(next);
    Reattributed(db.sessions[id], next);
    SessionUpdate(db, id, db.sessions[id].(identity := Some(next)), map[Col.AuthIdentityId := Text(next)]);
  }

  lemma UnderItsKey(w: Whole, id: string)
    requires id in w.db.sessions
    ensures Embed(w)[Tab.Session] == Keyed(SessionRecords(w.db))
    ensures [Text(id)] in Embed(w)[Tab.Session] && Embed(w)[Tab.Session][[Text(id)]] == SessionRecord(w.db.sessions[id])
  {
    KeyedHas(SessionRecords(w.db), id);
  }

  lemma NoSuchIdentity(w: Whole, id: string, gone: string)
    requires OwnIds(w.db) && id in w.db.sessions && gone !in w.db.identities
    ensures !ForeignsOk(SessionTable(), Embed(w), SessionRecord(w.db.sessions[id]) + map[Col.AuthIdentityId := Text(gone)])
  {
    Reattributed(w.db.sessions[id], gone);
    SessionLinks(w, w.db.sessions[id].(identity := Some(gone)));
  }

  lemma UnsoundUpdate(schema: E.Descriptor, tables: Tables, t: Tab, k: Key, patch: Row)
    requires E.Sound(schema, tables) && E.KeysAreFixed(schema) && k in tables[t]
    requires Updating(schema(t), tables[t], k, patch).1 && !ForeignsOk(schema(t), tables, tables[t][k] + patch)
    ensures !E.Sound(schema, tables[t := Updating(schema(t), tables[t], k, patch).0])
  {
    E.UpdateKeepsSoundExactly(schema, tables, t, k, patch);
  }

  /** In any lawful database the engine lets a session be attributed to an identity that is not
      there, and the database is sound no longer. */
  lemma UpdateCanDangle(w: Whole, id: string, gone: string)
    requires Lawful(w) && id in w.db.sessions && gone !in w.db.identities
    ensures var (rows, ok) := Updating(SessionTable(), Embed(w)[Tab.Session], [Text(id)], map[Col.AuthIdentityId := Text(gone)]);
      ok && E.Sound(Declared, Embed(w)) && !E.Sound(Declared, Embed(w)[Tab.Session := rows])
  {
    UnderItsKey(w, id);
    ReattributionAccepted(w.db, id, gone);
    StoreSafety.LawfulIsSound(w);
    SchemaAgreement.DeclaredKeys();
    NoSuchIdentity(w, id, gone);
    UnsoundUpdate(Declared, Embed(w), Tab.Session, [Text(id)], map[Col.AuthIdentityId := Text(gone)]);
  }

  // ---- so can a delete ----

  lemma OwnerLeads(row: SessionRow)
    ensures E.Leads(SessionTable().foreignKeys[0], SessionRecord(row), Tab.AbaUser, [Text(row.owner)])
  {
    OneValue(SessionRecord(row), Col.AbaUserId);
  }

  lemma ProvenanceLeads(row: SessionRow)
    requires row.identity.Some?
    ensures E.Leads(SessionTable().foreignKeys[1], SessionRecord(row), Tab.AuthIdentity, [Text(row.identity.value)])
  {
    OneValue(SessionRecord(row), Col.AuthIdentityId);
  }

  /** A session needs its owner's row, and the row of the identity that established it. */
  lemma SessionNeeds(w: Whole, id: string, i: nat, t: Tab, k: Key)
    requires id in w.db.sessions && i < 2 && t != Tab.Session
    requires E.Leads(SessionTable().foreignKeys[i], SessionRecord(w.db.sessions[id]), t, k)
    ensures E.Needed(Declared, Embed(w), t, k)
  {
    KeyedHas(SessionRecords(w.db), id);
    assert [Text(id)] in Embed(w)[Tab.Session];
    assert E.Leads(Declared(Tab.Session).foreignKeys[i], Embed(w)[Tab.Session][[Text(id)]], t, k);
  }

  /** Removing the account of a session, or its identity without clearing its provenance first,
      leaves the database unsound: the engine's delete carries out no referential action. */
  lemma DeleteCanDangle(w: Whole, id: string)
    requires Lawful(w) && id in w.db.sessions
    ensures var row := w.db.sessions[id];
      && !E.Sound(Declared, Embed(w)[Tab.AbaUser := Embed(w)[Tab.AbaUser] - {[Text(row.owner)]}])
      && (row.identity.Some? ==>
            !E.Sound(Declared, Embed(w)[Tab.AuthIdentity := Embed(w)[Tab.AuthIdentity] - {[Text(row.identity.value)]}]))
  {
    var row := w.db.sessions[id];
    StoreSafety.LawfulIsSound(w);
    SchemaAgreement.DeclaredKeys();
    OwnerLeads(row);
    SessionNeeds(w, id, 0, Tab.AbaUser, [Text(row.owner)]);
    E.DeleteKeepsSoundExactly(Declared, Embed(w), Tab.AbaUser, [Text(row.owner)]);
    if row.identity.Some? {
      ProvenanceLeads(row);
      SessionNeeds(w, id, 1, Tab.AuthIdentity, [Text(row.identity.value)]);
      E.DeleteKeepsSoundExactly(Declared, Embed(w), Tab.AuthIdentity, [Text(row.identity.value)]);
    }
  }

  // ---- one such database ----

  const USER := UserRow("u", 0, Active, None)
  const IDENTITY := IdentityRow("i", "u", Store.Google, Some("s"), None, false, 0, None, None)
  const SESSION := SessionRow("s", "u", Some("i"), "f", "d", 1, 0, 1, None, None, None, 0)
  const SMALL := Whole(Db(map["u" := USER], map["i" := IDENTITY], map["s" := SESSION]), map[], map[])

  lemma SmallIsLawful()
    ensures Lawful(SMALL)
  {
  }

  /** The input on which all three fail. */
  lemma SmallDangles()
    ensures Lawful(SMALL)
    ensures Updating(SessionTable(), Embed(SMALL)[Tab.Session], [Text("s")], map[Col.AuthIdentityId := Text("j")]).1
    ensures var rows := Updating(SessionTable(), Embed(SMALL)[Tab.Session], [Text("s")], map[Col.AuthIdentityId := Text("j")]).0;
      !E.Sound(Declared, Embed(SMALL)[Tab.Session := rows])
    ensures !E.Sound(Declared, Embed(SMALL)[Tab.AbaUser := Embed(SMALL)[Tab.AbaUser] - {[Text("u")]}])
    ensures !E.Sound(Declared, Embed(SMALL)[Tab.AuthIdentity := Embed(SMALL)[Tab.AuthIdentity] - {[Text("i")]}])
  {
    SmallIsLawful();
    UpdateCanDangle(SMALL, "s", "j");
    DeleteCanDangle(SMALL, "s");
  }

  // ---- a reason without a revocation ----

  const UNREVOKED := SMALL.(db := SMALL.db.(sessions := map[]))

  lemma StoredRows(db: Db)
    requires LawfulDb(db)
    ensures A.Stored(SessionTable(), Keyed(SessionRecords(db)))
  {
    forall k: Key | k in Keyed(SessionRecords(db))
      ensures var row := Keyed(SessionRecords(db))[k];
        && k == ValuesOf(row, SessionTable().primaryKey) && ShapeOk(SessionTable(), row)
        && A.Typed(SessionTable(), row)
    {
      KeyedExactly(SessionRecords(db), k);
      SessionShape(db.sessions[k[0].text]);
      SessionFreeKey(db, db.sessions[k[0].text]);
    }
  }

  lemma NotRevoked(row: SessionRow)
    requires row.revokedAt.None?
    ensures At(SessionRecord(row), Col.RevokedAt) == Null
  {
  }

  lemma OwnNames(w: Whole)
    requires Lawful(w)
    ensures OwnIds(w.db)
  {
  }

  lemma ReasonAdmittedTo(w: Whole, row: SessionRow, reason: string)
    requires Lawful(w) && AdmitsSession(w.db, row) && row.revokedAt.None?
    ensures var r := SessionRecord(row)[Col.RevokedReason := Text(reason)];
      && Admits(SessionTable(), Embed(w), Keyed(SessionRecords(w.db)), r)
      && !A.SqlChecksHold(SessionTable(), r)
  {
    NotRevoked(row);
    OwnNames(w);
    SessionShape(row);
    StoredRows(w.db);
    SessionAdmission(w, row);
    SchemaAgreement.ReasonWithoutRevocation(Embed(w), Keyed(SessionRecords(w.db)), SessionRecord(row), reason);
  }

  /** The engine admits this row into that database; the declared table refuses it. */
  lemma ReasonAdmitted()
    ensures var row := SessionRecord(SESSION)[Col.RevokedReason := Text("logout")];
      && Admits(SessionTable(), Embed(UNREVOKED), Keyed(SessionRecords(UNREVOKED.db)), row)
      && !A.SqlChecksHold(SessionTable(), row)
  {
    ReasonAdmittedTo(UNREVOKED, SESSION, "logout");
  }
}
