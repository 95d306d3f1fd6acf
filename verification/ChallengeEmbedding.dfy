/** The typed writes on challenge and device rows are the engine's writes on the declared schema. */
module ChallengeEmbedding {
  import opened Store
  import opened Schema
  import opened Engine
  import opened StoreSchema
  import opened StoreEmbedding
  import Challenges
  import Devices
  import C = DdlCoverage

  // ---- uniqueness and links of a challenge ----

  const STATE := UniqueSpec([Col.State], [Col.State], [])
  const CODE := UniqueSpec([Col.ExchangeDigest], [Col.ExchangeDigest], [])

  lemma StateClash(a: Challenges.Challenge, b: Challenges.Challenge)
    ensures Clash(STATE, ChallengeRecord(a), ChallengeRecord(b)) <==> a.state == b.state
  {
    OneValue(ChallengeRecord(a), Col.State);
    OneValue(ChallengeRecord(b), Col.State);
  }

  lemma CodeClash(a: Challenges.Challenge, b: Challenges.Challenge)
    ensures Clash(CODE, ChallengeRecord(a), ChallengeRecord(b)) <==> a.exchange.Some? && a.exchange == b.exchange
  {
    OneValue(ChallengeRecord(a), Col.ExchangeDigest);
    OneValue(ChallengeRecord(b), Col.ExchangeDigest);
  }

  ghost predicate Unrivalled(rows: Challenges.Rows, row: Challenges.Challenge, except: Option<string>) {
    forall id | id in rows && Some(id) != except :: !Challenges.Rivals(row, rows[id])
  }

  lemma ChallengeUnique(rows: Challenges.Rows, row: Challenges.Challenge, except: Option<string>)
    ensures UniqueOk(ChallengeTable(), Keyed(ChallengeRecords(rows)), ChallengeRecord(row), SkipKey(except))
        <==> Unrivalled(rows, row, except)
  {
    var records, r := ChallengeRecords(rows), ChallengeRecord(row);
    NoClashKeyed(STATE, records, r, except);
    NoClashKeyed(CODE, records, r, except);
    TwoUnique(ChallengeTable(), STATE, CODE, Keyed(records), r, SkipKey(except));
    forall id | id in rows
      ensures Clash(STATE, r, records[id]) || Clash(CODE, r, records[id]) <==> Challenges.Rivals(row, rows[id])
    {
      StateClash(row, rows[id]);
      CodeClash(row, rows[id]);
    }
  }

  /** A table whose one link is an owner column, empty or not. */
  lemma AccountLink(spec: TableSpec, tables: Tables, db: Db, row: Row, owner: Option<string>)
    requires OwnIds(db) && spec.foreignKeys == [OWNER]
    requires Tab.AbaUser in tables && tables[Tab.AbaUser] == Keyed(UserRecords(db))
    requires At(row, Col.AbaUserId) == TextOr(owner)
    ensures ForeignsOk(spec, tables, row) <==> (owner.Some? ==> owner.value in db.users)
  {
    LinkIs(OWNER, Col.AbaUserId, UserRecords(db), tables, row, owner);
    OneForeign(spec, OWNER, tables, row);
  }

  lemma ChallengeOwner(row: Challenges.Challenge)
    ensures At(ChallengeRecord(row), Col.AbaUserId) == TextOr(row.account)
  {
  }

  lemma OneOwner()
    ensures ChallengeTable().foreignKeys == [OWNER] && DeviceTable().foreignKeys == [OWNER]
  {
  }

  lemma ChallengeLinks(w: Whole, row: Challenges.Challenge)
    requires OwnIds(w.db)
    ensures ForeignsOk(ChallengeTable(), Embed(w), ChallengeRecord(row))
        <==> (row.account.Some? ==> row.account.value in w.db.users)
  {
    OneOwner();
    ChallengeOwner(row);
    AccountLink(ChallengeTable(), Embed(w), w.db, ChallengeRecord(row), row.account);
  }

  lemma ChallengeKey(row: Challenges.Challenge)
    ensures ValuesOf(ChallengeRecord(row), ChallengeTable().primaryKey) == [Text(row.id)]
    ensures ChecksOk(ChallengeTable(), ChallengeRecord(row))
  {
  }

  // ---- the writes ----

  lemma ChallengePut(rows: Challenges.Rows, id: string, row: Challenges.Challenge)
    ensures ChallengeRecords(rows[id := row]) == ChallengeRecords(rows)[id := ChallengeRecord(row)]
  {
  }

  /** The typed guard of `insertChallenge` is the engine's admission. */
  lemma ChallengeAdmission(w: Whole, row: Challenges.Challenge)
    requires OwnIds(w.db)
    ensures Challenges.Admits(w.challenges, w.db.users.Keys, row)
        <==> Admits(ChallengeTable(), Embed(w), Keyed(ChallengeRecords(w.challenges)), ChallengeRecord(row))
  {
    ChallengeShape(row);
    ChallengeKey(row);
    KeyedHas(ChallengeRecords(w.challenges), row.id);
    ChallengeUnique(w.challenges, row, None);
    ChallengeLinks(w, row);
  }

  lemma ChallengeInserted(w: Whole, row: Challenges.Challenge)
    requires OwnIds(w.db) && Challenges.Admits(w.challenges, w.db.users.Keys, row)
    ensures Inserting(ChallengeTable(), Embed(w), Keyed(ChallengeRecords(w.challenges)), ChallengeRecord(row))
         == (Keyed(ChallengeRecords(w.challenges[row.id := row])), true)
  {
    ChallengeAdmission(w, row);
    ChallengeKey(row);
    ChallengePut(w.challenges, row.id, row);
    KeyedPut(ChallengeRecords(w.challenges), row.id, ChallengeRecord(row));
  }

  /** The columns a challenge may have rewritten. */
  predicate Changeable(c: Col) { 8 <= ChallengePlace(c) <= 13 || ChallengePlace(c) == 16 }

  ghost predicate AllChangeable(patch: Row) { forall c | c in patch :: Changeable(c) }

  lemma ChallengePatchable(patch: Row)
    requires AllChangeable(patch)
    ensures Patchable(ChallengeTable(), patch)
  {
    C.ChallengeDiffers();
    forall c | c in patch ensures MayPatch(ChallengeTable().columns, c) {
      assert Changeable(c);
      ChallengePlaced(c);
      MayPatchAt(ChallengeTable().columns, ChallengePlace(c));
    }
  }

  /** Cell by cell, a rewritten challenge is the old one with the patch. */
  ghost predicate Rewritten(row: Challenges.Challenge, next: Challenges.Challenge, patch: Row) {
    forall c: Col | ChallengePlace(c) >= 0 ::
      ChallengeCell(next, c) == if c in patch then patch[c] else ChallengeCell(row, c)
  }

  lemma RewrittenRecord(row: Challenges.Challenge, next: Challenges.Challenge, patch: Row)
    requires Rewritten(row, next, patch) && AllChangeable(patch)
    ensures ChallengeRecord(next) == ChallengeRecord(row) + patch
  {
  }

  /** Replacing a challenge under its id is the engine's update, which looks at uniqueness again. */
  lemma ChallengeUpdate(rows: Challenges.Rows, id: string, next: Challenges.Challenge, patch: Row)
    requires id in rows && Rewritten(rows[id], next, patch) && AllChangeable(patch)
    ensures Updating(ChallengeTable(), Keyed(ChallengeRecords(rows)), [Text(id)], patch)
         == if Unrivalled(rows, next, Some(id)) then (Keyed(ChallengeRecords(rows[id := next])), true)
            else (Keyed(ChallengeRecords(rows)), false)
  {
    ChallengePatchable(patch);
    RewrittenRecord(rows[id], next, patch);
    ChallengeShape(next);
    ChallengeKey(next);
    ChallengeUnique(rows, next, Some(id));
    ChallengePut(rows, id, next);
    KeyedUpdate(ChallengeTable(), ChallengeRecords(rows), id, ChallengeRecord(next), patch);
  }

  // ---- consumeChallenge and countChallengeAttempt ----

  function ConsumePatch(at: int): Row { map[Col.ConsumedAt := Number(at)] }

  lemma ConsumedRecord(row: Challenges.Challenge, at: int)
    ensures Rewritten(row, row.(consumedAt := Some(at)), ConsumePatch(at))
  {
  }

  lemma ConsumeIsUpdate(rows: Challenges.Rows, id: string, at: int)
    requires Challenges.Keyed(rows) && Challenges.Consuming(rows, id, at).1
    ensures Updating(ChallengeTable(), Keyed(ChallengeRecords(rows)), [Text(id)], ConsumePatch(at))
         == (Keyed(ChallengeRecords(Challenges.Consuming(rows, id, at).0)), true)
  {
    ConsumedRecord(rows[id], at);
    ChallengeUpdate(rows, id, rows[id].(consumedAt := Some(at)), ConsumePatch(at));
  }

  function CountPatch(attempts: int): Row { map[Col.Attempts := Number(attempts)] }

  lemma CountedRecord(row: Challenges.Challenge, attempts: int)
    ensures Rewritten(row, row.(attempts := attempts), CountPatch(attempts))
  {
  }

  lemma SetAttemptsIsUpdate(rows: Challenges.Rows, id: string, attempts: int)
    requires Challenges.Keyed(rows) && id in rows
    ensures Updating(ChallengeTable(), Keyed(ChallengeRecords(rows)), [Text(id)], CountPatch(attempts))
         == (Keyed(ChallengeRecords(rows[id := rows[id].(attempts := attempts)])), true)
  {
    CountedRecord(rows[id], attempts);
    ChallengeUpdate(rows, id, rows[id].(attempts := attempts), CountPatch(attempts));
  }

  lemma CountIsUpdate(rows: Challenges.Rows, id: string)
    requires Challenges.Keyed(rows) && id in rows
    ensures Updating(ChallengeTable(), Keyed(ChallengeRecords(rows)), [Text(id)], CountPatch(rows[id].attempts + 1))
         == (Keyed(ChallengeRecords(Challenges.Counting(rows, id).0)), true)
  {
    SetAttemptsIsUpdate(rows, id, rows[id].attempts + 1);
  }

  // ---- attachChallengeOutcome and attachLinkOutcome ----

  /** No other challenge carries the digest. */
  ghost predicate CodeIsFree(rows: Challenges.Rows, id: string, digest: string) {
    forall k | k in rows && k != id :: rows[k].exchange != Some(digest)
  }

  lemma FreeCode(rows: Challenges.Rows, id: string, next: Challenges.Challenge, digest: string)
    requires Challenges.Keyed(rows) && id in rows && next.state == rows[id].state && next.exchange == Some(digest)
    ensures Unrivalled(rows, next, Some(id)) <==> CodeIsFree(rows, id, digest)
  {
  }

  function OutcomePatch(digest: string, user: string, identity: string): Row {
    map[Col.ExchangeDigest := Text(digest), Col.ResolvedAbaUserId := Text(user),
        Col.ResolvedAuthIdentityId := Text(identity)]
  }

  lemma AttachedRecord(row: Challenges.Challenge, digest: string, user: string, identity: string)
    ensures Rewritten(row, row.(exchange := Some(digest), user := Some(user), identity := Some(identity)),
                      OutcomePatch(digest, user, identity))
  {
  }

  lemma OutcomeIsChangeable(digest: string, user: string, identity: string)
    ensures AllChangeable(OutcomePatch(digest, user, identity))
  {
  }

  /** The typed write is the engine's as long as the digest is nobody else's; otherwise the engine
      refuses and changes nothing. */
  lemma AttachIsUpdate(rows: Challenges.Rows, id: string, digest: string, user: string, identity: string)
    requires Challenges.Keyed(rows) && id in rows
    ensures Updating(ChallengeTable(), Keyed(ChallengeRecords(rows)), [Text(id)], OutcomePatch(digest, user, identity))
         == if CodeIsFree(rows, id, digest)
            then (Keyed(ChallengeRecords(Challenges.Attaching(rows, id, digest, user, identity))), true)
            else (Keyed(ChallengeRecords(rows)), false)
  {
    var next := rows[id].(exchange := Some(digest), user := Some(user), identity := Some(identity));
    AttachedRecord(rows[id], digest, user, identity);
    OutcomeIsChangeable(digest, user, identity);
    FreeCode(rows, id, next, digest);
    ChallengeUpdate(rows, id, next, OutcomePatch(digest, user, identity));
  }

  function LinkPatch(digest: string, subject: string, email: Option<string>): Row {
    map[Col.ExchangeDigest := Text(digest), Col.ResolvedSubject := Text(subject), Col.ResolvedEmail := TextOr(email)]
  }

  lemma LinkedRecord(row: Challenges.Challenge, digest: string, subject: string, email: Option<string>)
    ensures Rewritten(row, row.(exchange := Some(digest), subject := Some(subject), email := email),
                      LinkPatch(digest, subject, email))
  {
  }

  lemma LinkIsChangeable(digest: string, subject: string, email: Option<string>)
    ensures AllChangeable(LinkPatch(digest, subject, email))
  {
  }

  lemma AttachLinkIsUpdate(rows: Challenges.Rows, id: string, digest: string, subject: string, email: Option<string>)
    requires Challenges.Keyed(rows) && id in rows
    ensures Updating(ChallengeTable(), Keyed(ChallengeRecords(rows)), [Text(id)], LinkPatch(digest, subject, email))
         == if CodeIsFree(rows, id, digest)
            then (Keyed(ChallengeRecords(Challenges.AttachingLink(rows, id, digest, subject, email))), true)
            else (Keyed(ChallengeRecords(rows)), false)
  {
    var next := rows[id].(exchange := Some(digest), subject := Some(subject), email := email);
    LinkedRecord(rows[id], digest, subject, email);
    LinkIsChangeable(digest, subject, email);
    FreeCode(rows, id, next, digest);
    ChallengeUpdate(rows, id, next, LinkPatch(digest, subject, email));
  }

  // ---- deleteChallenge and purgeExpiredChallenges ----

  lemma ChallengesLess(rows: Challenges.Rows, ids: set<string>)
    ensures ChallengeRecords(rows - ids) == ChallengeRecords(rows) - ids
  {
  }

  lemma DropIsDelete(rows: Challenges.Rows, id: string)
    ensures Keyed(ChallengeRecords(rows - {id})) == Keyed(ChallengeRecords(rows)) - {[Text(id)]}
  {
    ChallengesLess(rows, {id});
    KeyedLess(ChallengeRecords(rows), {id});
    OneKey(id);
  }

  /** The sweep is one engine delete for every row past its life. */
  lemma PurgeIsDeletes(rows: Challenges.Rows, now: int)
    ensures Keyed(ChallengeRecords(Challenges.Purging(rows, now)))
         == Keyed(ChallengeRecords(rows)) - (set id | id in rows && rows[id].expiresAt <= now :: [Text(id)])
  {
    var gone := set id | id in rows && rows[id].expiresAt <= now;
    assert Challenges.Purging(rows, now) == rows - gone;
    ChallengesLess(rows, gone);
    KeyedLess(ChallengeRecords(rows), gone);
    assert (set id | id in gone :: [Text(id)]) == set id | id in rows && rows[id].expiresAt <= now :: [Text(id)];
  }

  // ---- devices ----

  lemma PairsDiffer(a: Devices.DeviceKey, b: Devices.DeviceKey)
    ensures PairKey(a) == PairKey(b) <==> a == b
  {
    assert PairKey(a)[0] == Text(a.0) && PairKey(a)[1] == Text(a.1);
    assert PairKey(b)[0] == Text(b.0) && PairKey(b)[1] == Text(b.1);
  }

  lemma DeviceHas(rows: Devices.Rows, k: Devices.DeviceKey)
    ensures PairKey(k) in DeviceRecords(rows) <==> k in rows
    ensures k in rows ==> DeviceRecords(rows)[PairKey(k)] == DeviceRecord(rows[k])
  {
    if PairKey(k) in DeviceRecords(rows) {
      var j :| j in rows && PairKey(j) == PairKey(k);
      PairsDiffer(j, k);
    }
  }

  lemma DevicePut(rows: Devices.Rows, k: Devices.DeviceKey, row: Devices.DeviceRow)
    ensures DeviceRecords(rows[k := row]) == DeviceRecords(rows)[PairKey(k) := DeviceRecord(row)]
  {
    var a, b := DeviceRecords(rows[k := row]), DeviceRecords(rows)[PairKey(k) := DeviceRecord(row)];
    forall x | x in a ensures x in b && a[x] == b[x] {
      var j :| j in rows[k := row] && PairKey(j) == x;
      DeviceHas(rows[k := row], j);
      DeviceHas(rows, j);
      PairsDiffer(j, k);
    }
    forall x | x in b ensures x in a {
      if x == PairKey(k) {
        DeviceHas(rows[k := row], k);
      } else {
        var j :| j in rows && PairKey(j) == x;
        DeviceHas(rows[k := row], j);
      }
    }
    SameMap(a, b);
  }

  lemma DeviceLinks(w: Whole, row: Devices.DeviceRow)
    requires OwnIds(w.db)
    ensures ForeignsOk(DeviceTable(), Embed(w), DeviceRecord(row)) <==> row.user in w.db.users
  {
    OneOwner();
    AccountLink(DeviceTable(), Embed(w), w.db, DeviceRecord(row), Some(row.user));
  }

  /** Devices have neither checks nor unique keys besides the primary key. */
  lemma DeviceIsFree(rows: Rows, row: Devices.DeviceRow, except: Option<Key>)
    ensures ChecksOk(DeviceTable(), DeviceRecord(row)) && UniqueOk(DeviceTable(), rows, DeviceRecord(row), except)
    ensures ValuesOf(DeviceRecord(row), DeviceTable().primaryKey) == PairKey((row.user, row.device))
  {
    TwoValues(DeviceRecord(row), Col.AbaUserId, Col.DeviceId);
  }

  lemma DeviceAdmission(w: Whole, row: Devices.DeviceRow)
    requires OwnIds(w.db)
    ensures Devices.Admits(w.devices, w.db.users.Keys, row)
        <==> Admits(DeviceTable(), Embed(w), DeviceRecords(w.devices), DeviceRecord(row))
  {
    DeviceShape(row);
    DeviceIsFree(DeviceRecords(w.devices), row, None);
    DeviceHas(w.devices, (row.user, row.device));
    DeviceLinks(w, row);
  }

  /** `insertDevice`, refused or not. */
  lemma DeviceInserted(w: Whole, row: Devices.DeviceRow)
    requires OwnIds(w.db)
    ensures Inserting(DeviceTable(), Embed(w), DeviceRecords(w.devices), DeviceRecord(row)).0
         == DeviceRecords(Devices.Inserting(w.devices, w.db.users.Keys, row))
  {
    DeviceAdmission(w, row);
    DeviceIsFree(DeviceRecords(w.devices), row, None);
    DevicePut(w.devices, (row.user, row.device), row);
  }

  predicate DeviceChangeable(c: Col) { 3 <= DevicePlace(c) <= 5 }

  lemma DevicePlaced(c: Col)
    requires DevicePlace(c) >= 0
    ensures DevicePlace(c) < 6 && DeviceColumn(DevicePlace(c)).name == c
  {
  }

  lemma DevicePatchable(patch: Row)
    requires forall c | c in patch :: DeviceChangeable(c)
    ensures Patchable(DeviceTable(), patch)
  {
    C.DeviceDiffers();
    forall c | c in patch ensures MayPatch(DeviceTable().columns, c) {
      assert DeviceChangeable(c);
      DevicePlaced(c);
      MayPatchAt(DeviceTable().columns, DevicePlace(c));
    }
  }

  lemma DeviceUpdate(rows: Devices.Rows, k: Devices.DeviceKey, next: Devices.DeviceRow, patch: Row)
    requires k in rows && Patchable(DeviceTable(), patch) && DeviceRecord(next) == DeviceRecord(rows[k]) + patch
    ensures Updating(DeviceTable(), DeviceRecords(rows), PairKey(k), patch) == (DeviceRecords(rows[k := next]), true)
  {
    DeviceShape(next);
    DeviceIsFree(DeviceRecords(rows), next, Some(PairKey(k)));
    DeviceHas(rows, k);
    DevicePut(rows, k, next);
  }

  function RetirePatch(at: Option<int>, reactivatedAt: Option<int>): Row {
    map[Col.RetiredAt := TimeOr(at), Col.ReactivatedAt := TimeOr(reactivatedAt)]
  }

  lemma RetiredRecord(row: Devices.DeviceRow, at: Option<int>, reactivatedAt: Option<int>)
    ensures DeviceRecord(row.(retiredAt := at, reactivatedAt := reactivatedAt))
         == DeviceRecord(row) + RetirePatch(at, reactivatedAt)
  {
  }

  lemma RetireIsUpdate(rows: Devices.Rows, k: Devices.DeviceKey, at: Option<int>, reactivatedAt: Option<int>)
    ensures Updating(DeviceTable(), DeviceRecords(rows), PairKey(k), RetirePatch(at, reactivatedAt))
         == (DeviceRecords(Devices.Retiring(rows, k, at, reactivatedAt)), true)
  {
    if k in rows {
      DevicePatchable(RetirePatch(at, reactivatedAt));
      RetiredRecord(rows[k], at, reactivatedAt);
      DeviceUpdate(rows, k, rows[k].(retiredAt := at, reactivatedAt := reactivatedAt), RetirePatch(at, reactivatedAt));
    } else {
      DeviceHas(rows, k);
    }
  }

  function SeenPatch(at: int): Row { map[Col.LastSeenAt := Number(at)] }

  lemma SeenRecord(row: Devices.DeviceRow, at: int)
    ensures DeviceRecord(row.(lastSeenAt := at)) == DeviceRecord(row) + SeenPatch(at)
  {
  }

  lemma SeenIsUpdate(rows: Devices.Rows, k: Devices.DeviceKey, at: int)
    ensures Updating(DeviceTable(), DeviceRecords(rows), PairKey(k), SeenPatch(at))
         == (DeviceRecords(Devices.Touching(rows, k, at)), true)
  {
    if k in rows {
      DevicePatchable(SeenPatch(at));
      SeenRecord(rows[k], at);
      DeviceUpdate(rows, k, rows[k].(lastSeenAt := at), SeenPatch(at));
    } else {
      DeviceHas(rows, k);
    }
  }
}
