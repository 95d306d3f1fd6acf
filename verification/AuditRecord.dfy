/** One audit record, and the canonical form its digest is taken over. */
module AuditRecord {
  import opened Store
  import opened Json

  /** A stored record. The six fields the checker reads have a slot each (`None` when the field is
      missing), everything else is in `rest`. What is no object at all has every slot empty. */
  datatype Record = Record(
    id: Option<Value>, at: Option<Value>, seqNo: Option<Value>, kind: Option<Value>,
    prev: Option<Value>, version: Option<Value>, rest: map<Text, Value>)

  const ID := U("id")
  const AT := U("at")
  const SEQ := U("seq")
  const KIND := U("type")
  const PREV := U("prevDigest")
  const VERSION := U("eventVersion")

  lemma NamesDiffer()
    ensures ID != AT && ID != SEQ && ID != KIND && ID != PREV && ID != VERSION
    ensures AT != SEQ && AT != KIND && AT != PREV && AT != VERSION
    ensures SEQ != KIND && SEQ != PREV && SEQ != VERSION
    ensures KIND != PREV && KIND != VERSION && PREV != VERSION
  {
    assert ID[0] != AT[0];
  }

  // ---- the order of names ----

  predicate Less(a: Text, b: Text) {
    b != [] && (a == [] || a[0] < b[0] || (a[0] == b[0] && Less(a[1..], b[1..])))
  }

  lemma {:induction false} LessTotal(a: Text, b: Text)
    requires a != b
    ensures Less(a, b) != Less(b, a)
  {
    if a != [] && b != [] && a[0] == b[0] {
      if a[1..] == b[1..] { HeadAndTail(a, b); }
      LessTotal(a[1..], b[1..]);
    }
  }

  lemma {:induction false} LessTransitive(a: Text, b: Text, c: Text)
    requires Less(a, b) && Less(b, c)
    ensures Less(a, c)
  {
    if a != [] && a[0] == b[0] && b[0] == c[0] {
      LessTransitive(a[1..], b[1..], c[1..]);
    }
  }

  lemma {:induction false} LessIrreflexive(a: Text)
    ensures !Less(a, a)
  {
    if a != [] { LessIrreflexive(a[1..]); }
  }

  ghost predicate Ascending(fs: seq<Field>) {
    forall i, j | 0 <= i < j < |fs| :: Less(fs[i].name, fs[j].name)
  }

  // ---- the sort ----

  function InsertField(f: Field, fs: seq<Field>): (r: seq<Field>)
    ensures multiset(r) == multiset(fs) + multiset{f}
  {
    if fs == [] || Less(f.name, fs[0].name) then [f] + fs
    else assert fs == [fs[0]] + fs[1..]; [fs[0]] + InsertField(f, fs[1..])
  }

  function SortFields(fs: seq<Field>): (r: seq<Field>)
    ensures multiset(r) == multiset(fs)
  {
    if fs == [] then [] else assert fs == [fs[0]] + fs[1..]; InsertField(fs[0], SortFields(fs[1..]))
  }

  lemma {:induction false} InsertKeepsAscending(f: Field, fs: seq<Field>)
    requires Ascending(fs) && forall g | g in fs :: g.name != f.name
    ensures Ascending(InsertField(f, fs))
  {
    if fs != [] {
      LessTotal(f.name, fs[0].name);
      if Less(f.name, fs[0].name) {
        forall j | 0 < j < |fs| ensures Less(f.name, fs[j].name) {
          LessTransitive(f.name, fs[0].name, fs[j].name);
        }
      } else {
        InsertKeepsAscending(f, fs[1..]);
        var r := InsertField(f, fs[1..]);
        forall j | 0 <= j < |r| ensures Less(fs[0].name, r[j].name) {
          assert r[j] in multiset(r);
          assert r[j] == f || r[j] in fs[1..];
        }
      }
    }
  }

  ghost predicate DistinctNames(fs: seq<Field>) {
    forall i, j | 0 <= i < j < |fs| :: fs[i].name != fs[j].name
  }

  lemma {:induction false} SortAscends(fs: seq<Field>)
    requires DistinctNames(fs)
    ensures Ascending(SortFields(fs))
  {
    if fs != [] {
      SortAscends(fs[1..]);
      forall g | g in SortFields(fs[1..]) ensures g.name != fs[0].name {
        assert g in multiset(fs[1..]);
      }
      InsertKeepsAscending(fs[0], SortFields(fs[1..]));
    }
  }

  /** An ascending sequence is determined by what it holds. */
  lemma {:induction false} AscendingUnique(a: seq<Field>, b: seq<Field>)
    requires Ascending(a) && Ascending(b) && forall f :: f in a <==> f in b
    ensures a == b
  {
    assert (a != [] ==> a[0] in b) && (b != [] ==> b[0] in a);
    if a != [] {
      SameLeast(a, b);
      RestSame(a, b);
      RestSame(b, a);
      AscendingUnique(a[1..], b[1..]);
      HeadAndTail(a, b);
    }
  }

  lemma SameLeast(a: seq<Field>, b: seq<Field>)
    requires a != [] && b != [] && Ascending(a) && Ascending(b) && forall f :: f in a <==> f in b
    ensures a[0] == b[0]
  {
    if a[0] != b[0] {
      assert a[0] in b && b[0] in a;
      LessTransitive(a[0].name, b[0].name, a[0].name);
      LessIrreflexive(a[0].name);
    }
  }

  lemma RestSame(a: seq<Field>, b: seq<Field>)
    requires a != [] && b != [] && Ascending(a) && a[0] == b[0] && forall f | f in a :: f in b
    ensures forall f | f in a[1..] :: f in b[1..]
  {
    forall f | f in a[1..] ensures f in b[1..] {
      LessIrreflexive(f.name);
      assert f in a && f in b;
      assert f != b[0];
    }
  }

  // ---- the canonical form ----

  function WithoutDigest(fs: seq<Field>): (r: seq<Field>)
    ensures forall f :: f in r <==> f in fs && f.name != PREV
  {
    if fs == [] then []
    else if fs[0].name == PREV then WithoutDigest(fs[1..])
    else [fs[0]] + WithoutDigest(fs[1..])
  }

  /** Entries without the digest, sorted by name, as one object text. */
  function CanonicalForm(entries: seq<Field>): Text {
    RenderObject(SortFields(WithoutDigest(entries)))
  }

  /** `entries` lists the named values of `m`, in whatever order they were set. */
  ghost predicate Lists(entries: seq<Field>, m: map<Text, Value>) {
    && DistinctNames(entries)
    && (forall f | f in entries :: f.name in m && m[f.name] == f.value)
    && (forall name | name in m :: Field(name, m[name]) in entries)
  }

  lemma {:induction false} WithoutKeepsDistinct(fs: seq<Field>)
    requires DistinctNames(fs)
    ensures DistinctNames(WithoutDigest(fs))
  {
    if fs != [] {
      WithoutKeepsDistinct(fs[1..]);
      var rest := WithoutDigest(fs[1..]);
      forall j | 0 <= j < |rest| ensures rest[j].name != fs[0].name {
        assert rest[j] in fs[1..];
      }
    }
  }

  lemma SortedIsHashed(entries: seq<Field>, m: map<Text, Value>, f: Field)
    requires Lists(entries, m)
    ensures f in SortFields(WithoutDigest(entries)) <==> f.name in m - {PREV} && m[f.name] == f.value
  {
    var w := WithoutDigest(entries);
    assert f in SortFields(w) <==> f in multiset(SortFields(w));
    if f.name in m - {PREV} && m[f.name] == f.value {
      assert f == Field(f.name, m[f.name]);
    }
  }

  /** Two objects share a canonical form exactly when they agree on everything but `prevDigest`.
      In particular the form does not depend on the order the fields were set in. */
  lemma CanonicalExactly(a: seq<Field>, m: map<Text, Value>, b: seq<Field>, n: map<Text, Value>)
    requires Lists(a, m) && Lists(b, n)
    ensures CanonicalForm(a) == CanonicalForm(b) <==> m - {PREV} == n - {PREV}
  {
    var x, y := SortFields(WithoutDigest(a)), SortFields(WithoutDigest(b));
    forall f ensures f in x <==> f.name in m - {PREV} && m[f.name] == f.value {
      SortedIsHashed(a, m, f);
    }
    forall f ensures f in y <==> f.name in n - {PREV} && n[f.name] == f.value {
      SortedIsHashed(b, n, f);
    }
    if m - {PREV} == n - {PREV} {
      assert forall name | name in m - {PREV} :: m[name] == (m - {PREV})[name] == n[name];
      WithoutKeepsDistinct(a);
      WithoutKeepsDistinct(b);
      SortAscends(WithoutDigest(a));
      SortAscends(WithoutDigest(b));
      AscendingUnique(x, y);
    }
    if CanonicalForm(a) == CanonicalForm(b) {
      ObjectUnique(x, y);
      SameRemainder(x, m, n);
    }
  }

  lemma SameRemainder(x: seq<Field>, m: map<Text, Value>, n: map<Text, Value>)
    requires forall f :: f in x <==> f.name in m - {PREV} && m[f.name] == f.value
    requires forall f :: f in x <==> f.name in n - {PREV} && n[f.name] == f.value
    ensures m - {PREV} == n - {PREV}
  {
    forall name ensures name in m - {PREV} <==> name in n - {PREV}
      ensures name in m - {PREV} ==> m[name] == n[name]
    {
      if name in m - {PREV} { assert Field(name, m[name]) in x; }
      if name in n - {PREV} { assert Field(name, n[name]) in x; }
    }
  }

  lemma {:induction false} SomeListing(m: map<Text, Value>) returns (entries: seq<Field>)
    ensures Lists(entries, m)
    decreases |m|
  {
    if m == map[] {
      entries := [];
    } else {
      var name :| name in m;
      var rest := SomeListing(m - {name});
      entries := [Field(name, m[name])] + rest;
      assert forall n | n in m && n != name :: Field(n, (m - {name})[n]) in rest;
    }
  }

  // ---- records as objects ----

  function Slot(name: Text, v: Option<Value>): map<Text, Value> {
    if v.Some? then map[name := v.value] else map[]
  }

  /** The object a record is. */
  function Object(r: Record): map<Text, Value> {
    r.rest + Slot(ID, r.id) + Slot(AT, r.at) + Slot(SEQ, r.seqNo) + Slot(KIND, r.kind)
    + Slot(PREV, r.prev) + Slot(VERSION, r.version)
  }

  /** The named slots are the only place for their six fields. */
  predicate Tidy(r: Record) {
    ID !in r.rest && AT !in r.rest && SEQ !in r.rest && KIND !in r.rest && PREV !in r.rest && VERSION !in r.rest
  }

  /** The record as far as its digest can see. */
  function Hashed(r: Record): Record { r.(prev := None) }

  function Lookup(m: map<Text, Value>, name: Text): Option<Value> {
    if name in m then Some(m[name]) else None
  }

  /** The value a record has under a name. */
  function Named(r: Record, name: Text): Option<Value> {
    if name == ID then r.id else if name == AT then r.at else if name == SEQ then r.seqNo
    else if name == KIND then r.kind else if name == PREV then r.prev else if name == VERSION then r.version
    else Lookup(r.rest, name)
  }

  lemma SlotLookup(m: map<Text, Value>, slot: Text, v: Option<Value>, name: Text)
    requires slot !in m
    ensures Lookup(m + Slot(slot, v), name) == if name == slot then v else Lookup(m, name)
  {
  }

  lemma ObjectNames(r: Record, name: Text)
    requires Tidy(r)
    ensures Lookup(Object(r), name) == Named(r, name)
  {
    NamesDiffer();
    var m1 := r.rest + Slot(ID, r.id);
    var m2 := m1 + Slot(AT, r.at);
    var m3 := m2 + Slot(SEQ, r.seqNo);
    var m4 := m3 + Slot(KIND, r.kind);
    var m5 := m4 + Slot(PREV, r.prev);
    SlotLookup(r.rest, ID, r.id, name);
    SlotLookup(m1, AT, r.at, name);
    SlotLookup(m2, SEQ, r.seqNo, name);
    SlotLookup(m3, KIND, r.kind, name);
    SlotLookup(m4, PREV, r.prev, name);
    SlotLookup(m5, VERSION, r.version, name);
  }

  lemma SameLookups(m: map<Text, Value>, n: map<Text, Value>)
    requires forall name :: Lookup(m, name) == Lookup(n, name)
    ensures m == n
  {
    assert forall name :: name in m <==> Lookup(m, name).Some?;
    assert forall name :: name in n <==> Lookup(n, name).Some?;
    assert forall name | name in m :: Some(m[name]) == Lookup(m, name) == Lookup(n, name);
  }

  /** Leaving the digest out of the object is leaving it out of the record. */
  lemma HashedObject(r: Record)
    requires Tidy(r)
    ensures Object(r) - {PREV} == Object(Hashed(r))
  {
    var m := Object(r) - {PREV};
    forall name ensures Lookup(m, name) == Lookup(Object(Hashed(r)), name) {
      HashedName(r, name);
    }
    SameLookups(m, Object(Hashed(r)));
  }

  lemma HashedName(r: Record, name: Text)
    requires Tidy(r)
    ensures Lookup(Object(r) - {PREV}, name) == Lookup(Object(Hashed(r)), name)
  {
    ObjectNames(r, name);
    ObjectNames(Hashed(r), name);
    NamesDiffer();
    assert Lookup(Object(r) - {PREV}, name) == if name == PREV then None else Lookup(Object(r), name);
  }

  lemma ObjectTellsRecords(r: Record, q: Record)
    requires Tidy(r) && Tidy(q)
    ensures Object(r) == Object(q) <==> r == q
  {
    if Object(r) == Object(q) {
      forall name ensures Named(r, name) == Named(q, name) {
        ObjectNames(r, name);
        ObjectNames(q, name);
      }
      SameNamesSameRecord(r, q);
    }
  }

  lemma SameNamesSameRecord(r: Record, q: Record)
    requires Tidy(r) && Tidy(q) && forall name :: Named(r, name) == Named(q, name)
    ensures r == q
  {
    NamesDiffer();
    forall name ensures Lookup(r.rest, name) == Lookup(q.rest, name) {
      assert Named(r, name) == Named(q, name);
    }
    SameLookups(r.rest, q.rest);
    assert Named(r, ID) == r.id && Named(r, AT) == r.at && Named(r, SEQ) == r.seqNo;
    assert Named(r, KIND) == r.kind && Named(r, PREV) == r.prev && Named(r, VERSION) == r.version;
  }

  /** What `canonicalForm` returns for a record. */
  ghost function Canonical(r: Record): Text {
    ListingExists(Object(r));
    var entries :| Lists(entries, Object(r));
    CanonicalForm(entries)
  }

  lemma ListingExists(m: map<Text, Value>)
    ensures exists entries :: Lists(entries, m)
  {
    var entries := SomeListing(m);
  }

  /** A digest that tells records apart exactly as far as the canonical form does. */
  ghost predicate CollisionFree(digest: Record -> Text) {
    forall r, q | Tidy(r) && Tidy(q) :: digest(r) == digest(q) <==> Hashed(r) == Hashed(q)
  }

  /** Hashing the canonical form with a collision-free hash is such a digest. */
  lemma HashOfCanonical(hash: Text -> Text, digest: Record -> Text)
    requires forall x, y :: hash(x) == hash(y) ==> x == y
    requires forall r :: digest(r) == hash(Canonical(r))
    ensures CollisionFree(digest)
  {
    forall r, q | Tidy(r) && Tidy(q) ensures digest(r) == digest(q) <==> Hashed(r) == Hashed(q) {
      ListingExists(Object(r));
      ListingExists(Object(q));
      var a :| Lists(a, Object(r)) && Canonical(r) == CanonicalForm(a);
      var b :| Lists(b, Object(q)) && Canonical(q) == CanonicalForm(b);
      CanonicalExactly(a, Object(r), b, Object(q));
      HashedObject(r);
      HashedObject(q);
      ObjectTellsRecords(Hashed(r), Hashed(q));
    }
  }
}
