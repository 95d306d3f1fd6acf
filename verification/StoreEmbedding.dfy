/** The typed writes of `Store` are the engine's writes on the declared schema. */
module StoreEmbedding {
  import opened Store
  import opened Schema
  import opened Engine
  import opened StoreSchema
  import EngineSafety
  import DdlAgreement
  import C = DdlCoverage
  import D = Ddl
  import EmailAddress

  // ---- one and two columns ----

  lemma OneValue(row: Row, c: Col)
    ensures ValuesOf(row, [c]) == [At(row, c)]
    ensures AllPresent(row, [c]) <==> Present(At(row, c))
    ensures AllNull(row, [c]) <==> At(row, c) == Null
    ensures SomeNull(row, [c]) <==> At(row, c) == Null
  {
    assert [c][0] == c;
  }

  lemma TwoValues(row: Row, c: Col, d: Col)
    ensures ValuesOf(row, [c, d]) == [At(row, c), At(row, d)]
    ensures AllPresent(row, [c, d]) <==> Present(At(row, c)) && Present(At(row, d))
  {
    assert [c, d][0] == c && [c, d][1] == d;
  }

  // ---- rows under their keys ----

  lemma KeyedHas(records: Records, id: string)
    ensures [Text(id)] in Keyed(records) <==> id in records
    ensures id in records ==> Keyed(records)[[Text(id)]] == records[id]
  {
    if [Text(id)] in Keyed(records) {
      var k :| k in records && [Text(k)] == [Text(id)];
      assert [Text(k)][0] == [Text(id)][0];
    }
  }

  lemma KeyedExactly(records: Records, k: Key)
    ensures k in Keyed(records) <==> |k| == 1 && k[0].Text? && k[0].text in records
    ensures k in Keyed(records) ==> Keyed(records)[k] == records[k[0].text]
  {
    if |k| == 1 && k[0].Text? && k[0].text in records {
      assert k == [Text(k[0].text)];
      KeyedHas(records, k[0].text);
    }
  }

  lemma KeyedPut(records: Records, id: string, row: Row)
    ensures Keyed(records[id := row]) == Keyed(records)[[Text(id)] := row]
  {
    var a, b := Keyed(records[id := row]), Keyed(records)[[Text(id)] := row];
    forall k | k in a ensures k in b && a[k] == b[k] { }
    forall k | k in b ensures k in a { }
    SameMap(a, b);
  }

  lemma SameMap(a: Rows, b: Rows)
    requires forall k | k in a :: k in b && a[k] == b[k]
    requires forall k | k in b :: k in a
    ensures a == b
  {
  }

  function SkipKey(except: Option<string>): Option<Key> { if except.Some? then Some([Text(except.value)]) else None }

  lemma NoClashKeyed(u: UniqueSpec, records: Records, row: Row, except: Option<string>)
    ensures NoClash(u, Keyed(records), row, SkipKey(except))
        <==> forall id | id in records && Some(id) != except :: !Clash(u, row, records[id])
  {
    if NoClash(u, Keyed(records), row, SkipKey(except)) {
      forall id | id in records && Some(id) != except ensures !Clash(u, row, records[id]) {
        KeyedHas(records, id);
        if except.Some? { assert [Text(id)][0] != [Text(except.value)][0]; }
      }
    }
    if forall id | id in records && Some(id) != except :: !Clash(u, row, records[id]) {
      forall k | k in Keyed(records) && Some(k) != SkipKey(except) ensures !Clash(u, row, Keyed(records)[k]) {
        var id :| id in records && k == [Text(id)];
        KeyedHas(records, id);
      }
    }
  }

  /** Records carry the ids they sit under. */
  ghost predicate OwnKeys(records: Records) { forall id | id in records :: At(records[id], Col.Id) == Text(id) }

  lemma TargetIs(records: Records, id: string)
    requires OwnKeys(records)
    ensures HasTarget(Keyed(records), [Col.Id], [Text(id)]) <==> id in records
  {
    if id in records {
      KeyedHas(records, id);
      OneValue(records[id], Col.Id);
    }
    if HasTarget(Keyed(records), [Col.Id], [Text(id)]) {
      var k :| k in Keyed(records) && ValuesOf(Keyed(records)[k], [Col.Id]) == [Text(id)];
      var i :| i in records && k == [Text(i)];
      KeyedHas(records, i);
      OneValue(records[i], Col.Id);
      assert [Text(id)][0] == [At(records[i], Col.Id)][0];
    }
  }

  /** A foreign key of one column that ends at an id. */
  lemma LinkIs(fk: ForeignKey, c: Col, records: Records, tables: Tables, row: Row, target: Option<string>)
    requires fk.columns == [c] && fk.references == [Col.Id] && At(row, c) == TextOr(target)
    requires fk.table in tables && tables[fk.table] == Keyed(records) && OwnKeys(records)
    ensures ForeignOk(fk, tables, row) <==> (target.Some? ==> target.value in records)
  {
    OneValue(row, c);
    if target.Some? { TargetIs(records, target.value); }
  }

  // ---- uniqueness ----

  const DIGEST := UniqueSpec([Col.RefreshDigest], [], [])
  const SUBJECT := UniqueSpec([Col.Kind, Col.Subject], [Col.Subject], [])
  const ADDRESS := UniqueSpec([Col.Kind, Col.Email], [Col.Email, Col.EmailVerified], [Col.Subject])

  lemma DigestClash(a: SessionRow, b: SessionRow)
    ensures Clash(DIGEST, SessionRecord(a), SessionRecord(b)) <==> a.digest == b.digest
  {
    OneValue(SessionRecord(a), Col.RefreshDigest);
    OneValue(SessionRecord(b), Col.RefreshDigest);
  }

  lemma SubjectClash(a: IdentityRow, b: IdentityRow)
    ensures Clash(SUBJECT, IdentityRecord(a), IdentityRecord(b))
        <==> a.subject.Some? && a.subject == b.subject && a.kind == b.kind
  {
    OneValue(IdentityRecord(a), Col.Subject);
    OneValue(IdentityRecord(b), Col.Subject);
    TwoValues(IdentityRecord(a), Col.Kind, Col.Subject);
    TwoValues(IdentityRecord(b), Col.Kind, Col.Subject);
  }

  lemma AddressApplies(r: IdentityRow)
    ensures Applies(IdentityRecord(r), ADDRESS) <==> r.subject.None? && r.email.Some? && r.emailVerified
  {
    TwoValues(IdentityRecord(r), Col.Email, Col.EmailVerified);
    OneValue(IdentityRecord(r), Col.Subject);
  }

  lemma AddressClash(a: IdentityRow, b: IdentityRow)
    ensures Clash(ADDRESS, IdentityRecord(a), IdentityRecord(b))
        <==> a.subject.None? && b.subject.None? && a.emailVerified && b.emailVerified
             && a.email.Some? && a.email == b.email && a.kind == b.kind
  {
    AddressApplies(a);
    AddressApplies(b);
    TwoValues(IdentityRecord(a), Col.Kind, Col.Email);
    TwoValues(IdentityRecord(b), Col.Kind, Col.Email);
  }

  /** The two partial constraints on identities together say that authoritative keys differ. */
  lemma KeyClash(a: IdentityRow, b: IdentityRow)
    ensures Clash(SUBJECT, IdentityRecord(a), IdentityRecord(b)) || Clash(ADDRESS, IdentityRecord(a), IdentityRecord(b))
        <==> KeyOf(a).Some? && KeyOf(a) == KeyOf(b)
  {
    SubjectClash(a, b);
    AddressClash(a, b);
  }

  lemma SessionUnique(db: Db, row: SessionRow, except: Option<string>)
    ensures UniqueOk(SessionTable(), Keyed(SessionRecords(db)), SessionRecord(row), SkipKey(except))
        <==> forall id | id in db.sessions && Some(id) != except :: db.sessions[id].digest != row.digest
  {
    assert SessionTable().unique == [DIGEST];
    NoClashKeyed(DIGEST, SessionRecords(db), SessionRecord(row), except);
    forall id | id in db.sessions
      ensures Clash(DIGEST, SessionRecord(row), SessionRecords(db)[id]) <==> db.sessions[id].digest == row.digest
    {
      DigestClash(row, db.sessions[id]);
    }
    OneUnique(SessionTable(), DIGEST, Keyed(SessionRecords(db)), SessionRecord(row), SkipKey(except));
  }

  lemma OneUnique(spec: TableSpec, u: UniqueSpec, rows: Rows, row: Row, except: Option<Key>)
    requires spec.unique == [u]
    ensures UniqueOk(spec, rows, row, except) <==> NoClash(u, rows, row, except)
  {
    assert spec.unique[0] == u;
  }

  lemma TwoUnique(spec: TableSpec, u: UniqueSpec, v: UniqueSpec, rows: Rows, row: Row, except: Option<Key>)
    requires spec.unique == [u, v]
    ensures UniqueOk(spec, rows, row, except) <==> NoClash(u, rows, row, except) && NoClash(v, rows, row, except)
  {
    assert spec.unique[0] == u && spec.unique[1] == v;
  }

  predicate Rivals(a: IdentityRow, b: IdentityRow) { KeyOf(a).Some? && KeyOf(a) == KeyOf(b) }

  lemma IdentityUnique(db: Db, row: IdentityRow, except: Option<string>)
    ensures UniqueOk(IdentityTable(), Keyed(IdentityRecords(db)), IdentityRecord(row), SkipKey(except))
        <==> forall id | id in db.identities && Some(id) != except :: !Rivals(row, db.identities[id])
  {
    var records, r := IdentityRecords(db), IdentityRecord(row);
    NoClashKeyed(SUBJECT, records, r, except);
    NoClashKeyed(ADDRESS, records, r, except);
    TwoUnique(IdentityTable(), SUBJECT, ADDRESS, Keyed(records), r, SkipKey(except));
    forall id | id in db.identities
      ensures Clash(SUBJECT, r, records[id]) || Clash(ADDRESS, r, records[id]) <==> Rivals(row, db.identities[id])
    {
      KeyClash(row, db.identities[id]);
    }
  }

  // ---- links ----

  /** Rows carry the ids they sit under. */
  ghost predicate OwnIds(db: Db) {
    && (forall id | id in db.users :: db.users[id].id == id)
    && (forall id | id in db.identities :: db.identities[id].id == id)
    && (forall id | id in db.sessions :: db.sessions[id].id == id)
  }

  lemma OneForeign(spec: TableSpec, fk: ForeignKey, tables: Tables, row: Row)
    requires spec.foreignKeys == [fk]
    ensures ForeignsOk(spec, tables, row) <==> ForeignOk(fk, tables, row)
  {
    assert spec.foreignKeys[0] == fk;
  }

  lemma TwoForeign(spec: TableSpec, fk: ForeignKey, gk: ForeignKey, tables: Tables, row: Row)
    requires spec.foreignKeys == [fk, gk]
    ensures ForeignsOk(spec, tables, row) <==> ForeignOk(fk, tables, row) && ForeignOk(gk, tables, row)
  {
    assert spec.foreignKeys[0] == fk && spec.foreignKeys[1] == gk;
  }

  const OWNER := ForeignKey([Col.AbaUserId], Tab.AbaUser, [Col.Id], Cascade)
  const PROVENANCE := ForeignKey([Col.AuthIdentityId], Tab.AuthIdentity, [Col.Id], SetNull)

  predicate SessionLinked(db: Db, row: SessionRow) {
    row.owner in db.users && (row.identity.Some? ==> row.identity.value in db.identities)
  }

  lemma OwnerLink(tables: Tables, users: Records, row: Row, owner: string)
    requires Tab.AbaUser in tables && tables[Tab.AbaUser] == Keyed(users) && OwnKeys(users)
    requires At(row, Col.AbaUserId) == Text(owner)
    ensures ForeignOk(OWNER, tables, row) <==> owner in users
  {
    LinkIs(OWNER, Col.AbaUserId, users, tables, row, Some(owner));
  }

  lemma ProvenanceLink(tables: Tables, identities: Records, row: Row, identity: Option<string>)
    requires Tab.AuthIdentity in tables && tables[Tab.AuthIdentity] == Keyed(identities) && OwnKeys(identities)
    requires At(row, Col.AuthIdentityId) == TextOr(identity)
    ensures ForeignOk(PROVENANCE, tables, row) <==> (identity.Some? ==> identity.value in identities)
  {
    LinkIs(PROVENANCE, Col.AuthIdentityId, identities, tables, row, identity);
  }

  lemma SessionLinksIn(spec: TableSpec, tables: Tables, db: Db, row: SessionRow)
    requires OwnIds(db) && spec.foreignKeys == [OWNER, PROVENANCE]
    requires Tab.AbaUser in tables && tables[Tab.AbaUser] == Keyed(UserRecords(db))
    requires Tab.AuthIdentity in tables && tables[Tab.AuthIdentity] == Keyed(IdentityRecords(db))
    ensures ForeignsOk(spec, tables, SessionRecord(row)) <==> SessionLinked(db, row)
  {
    var users, identities, r := UserRecords(db), IdentityRecords(db), SessionRecord(row);
    OwnerLink(tables, users, r, row.owner);
    ProvenanceLink(tables, identities, r, row.identity);
    TwoForeign(spec, OWNER, PROVENANCE, tables, r);
  }

  lemma IdentityLinksIn(spec: TableSpec, tables: Tables, db: Db, row: IdentityRow)
    requires OwnIds(db) && spec.foreignKeys == [OWNER]
    requires Tab.AbaUser in tables && tables[Tab.AbaUser] == Keyed(UserRecords(db))
    ensures ForeignsOk(spec, tables, IdentityRecord(row)) <==> row.owner in db.users
  {
    OwnerLink(tables, UserRecords(db), IdentityRecord(row), row.owner);
    OneForeign(spec, OWNER, tables, IdentityRecord(row));
  }

  lemma SessionLinks(w: Whole, row: SessionRow)
    requires OwnIds(w.db)
    ensures ForeignsOk(SessionTable(), Embed(w), SessionRecord(row)) <==> SessionLinked(w.db, row)
  {
    SessionLinksIn(SessionTable(), Embed(w), w.db, row);
  }

  lemma IdentityLinks(w: Whole, row: IdentityRow)
    requires OwnIds(w.db)
    ensures ForeignsOk(IdentityTable(), Embed(w), IdentityRecord(row)) <==> row.owner in w.db.users
  {
    IdentityLinksIn(IdentityTable(), Embed(w), w.db, row);
  }

  // ---- inserting ----

  /** Accounts have neither restated checks nor unique keys nor links. */
  lemma UserIsFree(tables: Tables, rows: Rows, row: Row, except: Option<Key>)
    ensures ChecksOk(UserTable(), row) && UniqueOk(UserTable(), rows, row, except) && ForeignsOk(UserTable(), tables, row)
  {
  }

  lemma UserKey(row: UserRow)
    ensures ValuesOf(UserRecord(row), UserTable().primaryKey) == [Text(row.id)]
  {
  }

  lemma UserAdmission(w: Whole, row: UserRow)
    ensures row.id !in w.db.users <==> Admits(UserTable(), Embed(w), Keyed(UserRecords(w.db)), UserRecord(row))
  {
    UserShape(row);
    UserKey(row);
    UserIsFree(Embed(w), Keyed(UserRecords(w.db)), UserRecord(row), None);
    KeyedHas(UserRecords(w.db), row.id);
  }

  /** What `insertUser` stores is what the engine stores. */
  lemma UserInserted(w: Whole, row: UserRow)
    requires row.id !in w.db.users
    ensures Inserting(UserTable(), Embed(w), Keyed(UserRecords(w.db)), UserRecord(row))
         == (Keyed(UserRecords(InsertUser(w.db, row).value)), true)
  {
    UserAdmission(w, row);
    UserKey(row);
    UserPut(w.db, row.id, row);
    KeyedPut(UserRecords(w.db), row.id, UserRecord(row));
  }

  lemma UserPut(db: Db, id: string, row: UserRow)
    ensures UserRecords(db.(users := db.users[id := row])) == UserRecords(db)[id := UserRecord(row)]
  {
  }

  lemma SessionFreeKey(db: Db, row: SessionRow)
    ensures ValuesOf(SessionRecord(row), SessionTable().primaryKey) == [Text(row.id)]
    ensures [Text(row.id)] in Keyed(SessionRecords(db)) <==> row.id in db.sessions
  {
    KeyedHas(SessionRecords(db), row.id);
  }

  lemma IdentityFreeKey(db: Db, row: IdentityRow)
    ensures ValuesOf(IdentityRecord(row), IdentityTable().primaryKey) == [Text(row.id)]
    ensures [Text(row.id)] in Keyed(IdentityRecords(db)) <==> row.id in db.identities
  {
    KeyedHas(IdentityRecords(db), row.id);
  }

  /** The typed guard of `insertSession` is the engine's admission. */
  lemma SessionAdmission(w: Whole, row: SessionRow)
    requires OwnIds(w.db)
    ensures AdmitsSession(w.db, row) <==> Admits(SessionTable(), Embed(w), Keyed(SessionRecords(w.db)), SessionRecord(row))
  {
    SessionShape(row);
    SessionFreeKey(w.db, row);
    SessionUnique(w.db, row, None);
    SessionLinks(w, row);
  }

  lemma SessionAdded(db: Db, row: SessionRow)
    requires AdmitsSession(db, row)
    ensures SessionRecords(InsertSession(db, row).value) == SessionRecords(db)[row.id := SessionRecord(row)]
  {
  }

  lemma IdentityAdded(db: Db, row: IdentityRow)
    requires AdmitsIdentity(db, row)
    ensures IdentityRecords(InsertIdentity(db, row).value) == IdentityRecords(db)[row.id := IdentityRecord(row)]
  {
  }

  /** And what it stores is what the engine stores. */
  lemma SessionInserted(w: Whole, row: SessionRow)
    requires OwnIds(w.db) && AdmitsSession(w.db, row)
    ensures Inserting(SessionTable(), Embed(w), Keyed(SessionRecords(w.db)), SessionRecord(row))
         == (Keyed(SessionRecords(InsertSession(w.db, row).value)), true)
  {
    SessionAdmission(w, row);
    SessionFreeKey(w.db, row);
    KeyedPut(SessionRecords(w.db), row.id, SessionRecord(row));
    SessionAdded(w.db, row);
  }

  /** The same for `insertIdentity`: both partial indexes and the restated check included. */
  lemma IdentityAdmission(w: Whole, row: IdentityRow)
    requires OwnIds(w.db)
    ensures AdmitsIdentity(w.db, row) <==> Admits(IdentityTable(), Embed(w), Keyed(IdentityRecords(w.db)), IdentityRecord(row))
  {
    IdentityShape(row);
    IdentityFreeKey(w.db, row);
    IdentityTwin(row);
    IdentityUnique(w.db, row, None);
    IdentityLinks(w, row);
  }

  lemma IdentityInserted(w: Whole, row: IdentityRow)
    requires OwnIds(w.db) && AdmitsIdentity(w.db, row)
    ensures Inserting(IdentityTable(), Embed(w), Keyed(IdentityRecords(w.db)), IdentityRecord(row))
         == (Keyed(IdentityRecords(InsertIdentity(w.db, row).value)), true)
  {
    IdentityAdmission(w, row);
    IdentityFreeKey(w.db, row);
    KeyedPut(IdentityRecords(w.db), row.id, IdentityRecord(row));
    IdentityAdded(w.db, row);
  }

  // ---- updating ----

  lemma MayPatchAt(columns: seq<ColumnSpec>, i: nat)
    requires D.NamesDiffer(columns) && i < |columns| && !columns[i].writeOnce
    ensures MayPatch(columns, columns[i].name)
  {
    assert IsFirst(columns, i, columns[i].name);
  }

  /** Replacing a session by one of the same id and digest is the engine's update. */
  lemma SessionUpdate(db: Db, id: string, next: SessionRow, patch: Row)
    requires OwnIds(db) && DistinctKeys(db) && id in db.sessions
    requires next.id == id && next.digest == db.sessions[id].digest
    requires Patchable(SessionTable(), patch) && SessionRecord(next) == SessionRecord(db.sessions[id]) + patch
    ensures Updating(SessionTable(), Keyed(SessionRecords(db)), [Text(id)], patch)
         == (Keyed(SessionRecords(db.(sessions := db.sessions[id := next]))), true)
  {
    var records := SessionRecords(db);
    SessionShape(next);
    SessionUnique(db, next, Some(id));
    KeyedHas(records, id);
    KeyedPut(records, id, SessionRecord(next));
    SessionPut(db, id, next);
  }

  lemma SessionPut(db: Db, id: string, next: SessionRow)
    requires id in db.sessions
    ensures SessionRecords(db.(sessions := db.sessions[id := next])) == SessionRecords(db)[id := SessionRecord(next)]
  {
  }

  lemma SessionMayPatch(c: Col)
    requires c == Col.RotatedAt || c == Col.RevokedAt || c == Col.RevokedReason || c == Col.AuthIdentityId
    ensures MayPatch(SessionTable().columns, c)
  {
    C.SessionDiffers();
    MayPatchAt(SessionTable().columns, if c == Col.RotatedAt then 8 else if c == Col.RevokedAt then 9
                                       else if c == Col.RevokedReason then 10 else 2);
  }

  /** Claiming a rotation, marking a revocation and clearing provenance are such updates. */
  lemma ClaimIsUpdate(db: Db, id: string, at: int)
    requires OwnIds(db) && DistinctKeys(db) && ClaimRotation(db, id, at).1
    ensures Updating(SessionTable(), Keyed(SessionRecords(db)), [Text(id)], map[Col.RotatedAt := Number(at)])
         == (Keyed(SessionRecords(ClaimRotation(db, id, at).0)), true)
  {
    SessionMayPatch(Col.RotatedAt);
    ClaimedRecord(db.sessions[id], at);
    SessionUpdate(db, id, db.sessions[id].(rotatedAt := Some(at)), map[Col.RotatedAt := Number(at)]);
  }

  lemma ClaimedRecord(row: SessionRow, at: int)
    ensures SessionRecord(row.(rotatedAt := Some(at))) == SessionRecord(row) + map[Col.RotatedAt := Number(at)]
  {
  }

  lemma MarkedRecord(row: SessionRow, at: int, reason: string)
    ensures SessionRecord(row.(revokedAt := Some(at), revokedReason := Some(reason)))
         == SessionRecord(row) + map[Col.RevokedAt := Number(at), Col.RevokedReason := Text(reason)]
  {
  }

  lemma MarkIsUpdate(db: Db, id: string, scope: Scope, at: int, reason: string)
    requires OwnIds(db) && DistinctKeys(db)
    requires id in db.sessions && Selects(scope, db.sessions[id]) && db.sessions[id].revokedAt.None?
    ensures Updating(SessionTable(), Keyed(SessionRecords(db)), [Text(id)],
                     map[Col.RevokedAt := Number(at), Col.RevokedReason := Text(reason)])
         == (Keyed(SessionRecords(db.(sessions := db.sessions[id := RevokedRow(db.sessions[id], scope, at, reason)]))), true)
  {
    SessionMayPatch(Col.RevokedAt);
    SessionMayPatch(Col.RevokedReason);
    MarkedRecord(db.sessions[id], at, reason);
    SessionUpdate(db, id, RevokedRow(db.sessions[id], scope, at, reason),
                  map[Col.RevokedAt := Number(at), Col.RevokedReason := Text(reason)]);
  }

  lemma OrphanIsUpdate(db: Db, id: string, identity: string)
    requires OwnIds(db) && DistinctKeys(db)
    requires id in db.sessions && db.sessions[id].identity == Some(identity)
    ensures Updating(SessionTable(), Keyed(SessionRecords(db)), [Text(id)], map[Col.AuthIdentityId := Null])
         == (Keyed(SessionRecords(db.(sessions := db.sessions[id := Orphaned(db.sessions[id], identity)]))), true)
  {
    SessionMayPatch(Col.AuthIdentityId);
    SessionUpdate(db, id, Orphaned(db.sessions[id], identity), map[Col.AuthIdentityId := Null]);
  }

  /** An update of a table whose rows sit under their ids. */
  lemma KeyedUpdate(spec: TableSpec, records: Records, id: string, next: Row, patch: Row)
    requires id in records && next == records[id] + patch && Patchable(spec, patch)
    requires ShapeOk(spec, next) && ChecksOk(spec, next)
    ensures Updating(spec, Keyed(records), [Text(id)], patch)
         == if UniqueOk(spec, Keyed(records), next, Some([Text(id)])) then (Keyed(records[id := next]), true)
            else (Keyed(records), false)
  {
    KeyedHas(records, id);
    KeyedPut(records, id, next);
  }

  lemma AbsentUpdate(spec: TableSpec, records: Records, id: string, patch: Row)
    requires id !in records
    ensures Updating(spec, Keyed(records), [Text(id)], patch) == (Keyed(records), true)
  {
    KeyedHas(records, id);
  }

  // ---- the account mark, the use stamp, removing an identity ----

  lemma MarkedUser(row: UserRow, at: int)
    ensures UserRecord(row.(state := Deleted, deletedAt := Some(at)))
         == UserRecord(row) + map[Col.State := Text("deleted"), Col.DeletedAt := Number(at)]
  {
  }

  lemma ClosePatch(at: int)
    ensures Patchable(UserTable(), map[Col.State := Text("deleted"), Col.DeletedAt := Number(at)])
  {
    C.UserDiffers();
    MayPatchAt(UserTable().columns, 2);
    MayPatchAt(UserTable().columns, 3);
  }

  lemma UserUpdate(db: Db, id: string, next: UserRow, patch: Row)
    requires id in db.users && Patchable(UserTable(), patch) && UserRecord(next) == UserRecord(db.users[id]) + patch
    ensures Updating(UserTable(), Keyed(UserRecords(db)), [Text(id)], patch)
         == (Keyed(UserRecords(db.(users := db.users[id := next]))), true)
  {
    UserShape(next);
    UserIsFree(map[], Keyed(UserRecords(db)), UserRecord(next), Some([Text(id)]));
    UserPut(db, id, next);
    KeyedUpdate(UserTable(), UserRecords(db), id, UserRecord(next), patch);
  }

  /** `markUserDeleted`, on any id: an absent account is left absent by both. */
  lemma CloseIsUpdate(db: Db, id: string, at: int)
    ensures Updating(UserTable(), Keyed(UserRecords(db)), [Text(id)],
                     map[Col.State := Text("deleted"), Col.DeletedAt := Number(at)])
         == (Keyed(UserRecords(MarkUserDeleted(db, id, at))), true)
  {
    var patch := map[Col.State := Text("deleted"), Col.DeletedAt := Number(at)];
    if id in db.users {
      ClosePatch(at);
      MarkedUser(db.users[id], at);
      UserUpdate(db, id, db.users[id].(state := Deleted, deletedAt := Some(at)), patch);
    } else {
      AbsentUpdate(UserTable(), UserRecords(db), id, patch);
    }
  }

  lemma TouchedIdentity(row: IdentityRow, at: int)
    ensures IdentityRecord(row.(lastUsedAt := Some(at))) == IdentityRecord(row) + map[Col.LastUsedAt := Number(at)]
  {
  }

  lemma TouchPatch(at: int)
    ensures Patchable(IdentityTable(), map[Col.LastUsedAt := Number(at)])
  {
    C.IdentityDiffers();
    MayPatchAt(IdentityTable().columns, 8);
  }

  lemma IdentityPut(db: Db, id: string, next: IdentityRow)
    ensures IdentityRecords(db.(identities := db.identities[id := next]))
         == IdentityRecords(db)[id := IdentityRecord(next)]
  {
  }

  lemma IdentityUpdate(db: Db, id: string, next: IdentityRow, patch: Row)
    requires LawfulDb(db) && id in db.identities && Patchable(IdentityTable(), patch)
    requires next == db.identities[id].(lastUsedAt := next.lastUsedAt)
    requires IdentityRecord(next) == IdentityRecord(db.identities[id]) + patch
    ensures Updating(IdentityTable(), Keyed(IdentityRecords(db)), [Text(id)], patch)
         == (Keyed(IdentityRecords(db.(identities := db.identities[id := next]))), true)
  {
    IdentityShape(next);
    IdentityTwin(next);
    IdentityUnique(db, next, Some(id));
    IdentityPut(db, id, next);
    KeyedUpdate(IdentityTable(), IdentityRecords(db), id, IdentityRecord(next), patch);
  }

  /** `touchIdentity`, on any id. */
  lemma TouchIsUpdate(db: Db, id: string, at: int)
    requires LawfulDb(db)
    ensures Updating(IdentityTable(), Keyed(IdentityRecords(db)), [Text(id)], map[Col.LastUsedAt := Number(at)])
         == (Keyed(IdentityRecords(TouchIdentity(db, id, at))), true)
  {
    if id in db.identities {
      TouchPatch(at);
      TouchedIdentity(db.identities[id], at);
      IdentityUpdate(db, id, db.identities[id].(lastUsedAt := Some(at)), map[Col.LastUsedAt := Number(at)]);
    } else {
      AbsentUpdate(IdentityTable(), IdentityRecords(db), id, map[Col.LastUsedAt := Number(at)]);
    }
  }

  lemma KeyedLess(records: Records, ids: set<string>)
    ensures Keyed(records - ids) == Keyed(records) - (set id | id in ids :: [Text(id)])
  {
    var gone := set id | id in ids :: [Text(id)];
    forall k: Key ensures k in Keyed(records - ids) <==> k in Keyed(records) - gone {
      KeyedExactly(records - ids, k);
      KeyedExactly(records, k);
      if |k| == 1 && k[0].Text? { assert k == [Text(k[0].text)]; }
    }
    forall k | k in Keyed(records - ids) ensures Keyed(records - ids)[k] == Keyed(records)[k] {
      KeyedExactly(records - ids, k);
      KeyedExactly(records, k);
    }
    SameMap(Keyed(records - ids), Keyed(records) - gone);
  }

  /** `deleteIdentity`: once `OrphanIsUpdate` has been applied to each of its sessions, what is left
      to do is the engine's delete. */
  lemma UnlinkIsDelete(db: Db, id: string)
    ensures Keyed(IdentityRecords(DeleteIdentity(db, id))) == Keyed(IdentityRecords(db)) - {[Text(id)]}
    ensures DeleteIdentity(db, id).sessions.Keys == db.sessions.Keys
    ensures forall s | s in db.sessions :: DeleteIdentity(db, id).sessions[s] == Orphaned(db.sessions[s], id)
  {
    KeyedLess(IdentityRecords(db), {id});
    IdentityGone(db, id);
    OneKey(id);
  }

  lemma IdentityGone(db: Db, id: string)
    ensures IdentityRecords(DeleteIdentity(db, id)) == IdentityRecords(db) - {id}
  {
  }

  lemma OneKey(id: string)
    ensures (set i | i in {id} :: [Text(i)]) == {[Text(id)]}
  {
  }
}
