/** Switching protection on and off over records already stored, with a stop possible before every
    storage call. */
module ProtectExisting {
  import opened Store
  import opened Envelope
  import B = Base64

  type Items = map<string, Stored>

  /** The unlocked key; none while the installation is locked. */
  datatype Material = Material(key: int, kid: string)

  /** How the protected area names a record's place. */
  function Location(area: string, key: string): string { area + "/" + key }

  /** `ProtectedStorageArea.get` on what is stored. */
  function ReadBack(s: Stored, k1: Option<Material>, location: string): Option<Stored> {
    if s.Plain? then Some(s)
    else if k1.None? then None
    else match Open(k1.value.key, location, s) case Value(v) => Some(v) case Failed(_) => None
  }

  function InsideOf(s: Stored, k1: Option<Material>, location: string): Stored {
    match ReadBack(s, k1, location)
    case Some(v) => v
    case None => s
  }

  /** What a record is worth to its owner: the value it reads as, or what is stored when it cannot
      be read. */
  datatype Worth = Reads(value: Stored) | Lost(raw: Stored)

  function WorthOf(s: Stored, k1: Option<Material>, location: string): Worth {
    match ReadBack(s, k1, location)
    case Some(v) => Reads(v)
    case None => Lost(s)
  }

  ghost predicate SealedAs(s: Stored, m: Material, location: string, value: Stored) {
    exists iv: B.Bytes :: IsNonce(iv) && s == Seal(m.key, m.kid, location, iv, value)
  }

  lemma SealedReads(s: Stored, m: Material, location: string, value: Stored)
    requires SealedAs(s, m, location, value) && m.kid != ""
    ensures ReadBack(s, Some(m), location) == Some(value) && s.Shaped?
  {
    var iv: B.Bytes :| IsNonce(iv) && s == Seal(m.key, m.kid, location, iv, value);
    OpensExactly(m.key, m.kid, location, iv, value, m.key, location);
  }

  /** Some plain records have been sealed in place; nothing else has happened. */
  ghost predicate Converted(before: Items, after: Items, k1: Option<Material>, area: string) {
    && after.Keys == before.Keys
    && forall k | k in before :: Turned(before[k], after[k], k1, Location(area, k))
  }

  /** Some envelopes have been replaced by what they open to; nothing else has happened. */
  ghost predicate Reverted(before: Items, after: Items, k1: Option<Material>, area: string) {
    && after.Keys == before.Keys
    && forall k | k in before ::
         after[k] == before[k] || (before[k].Shaped? && ReadBack(before[k], k1, Location(area, k)) == Some(after[k]))
  }

  datatype Protected = Protected(encrypted: nat, alreadyProtected: nat, failed: nat, unreadable: nat)

  /** What becomes of one record; `Stop` when the process ended before it was through. */
  datatype Fate = Stop | Encrypted | Already | Failed | Unreadable

  function FateOf(s: Stored, k1: Option<Material>, location: string, lands: bool): Fate {
    if s.Plain? then (if k1.Some? && lands then Encrypted else Fate.Failed)
    else if ReadBack(s, k1, location).Some? then Already
    else Fate.Unreadable
  }

  ghost predicate Turned(before: Stored, after: Stored, k1: Option<Material>, location: string) {
    after == before || (k1.Some? && before.Plain? && SealedAs(after, k1.value, location, before))
  }

  function Fated(items: Items, k1: Option<Material>, area: string, lands: string -> bool, fate: Fate): set<string> {
    set k | k in items && FateOf(items[k], k1, Location(area, k), lands(k)) == fate
  }

  datatype Unprotected = Stopped | Restored(decrypted: nat) | Refused(unreadable: nat)

  /** The records of one class, by what protecting makes of them. */
  function Readable(items: Items, k1: Option<Material>, area: string): set<string> {
    set k | k in items && items[k].Shaped? && ReadBack(items[k], k1, Location(area, k)).Some?
  }

  function Broken(items: Items, k1: Option<Material>, area: string): set<string> {
    set k | k in items && items[k].Shaped? && ReadBack(items[k], k1, Location(area, k)).None?
  }

  class StorageArea {
    var items: Items

    constructor (items: Items)
      ensures this.items == items
    {
      this.items := items;
    }

    /** One record: read, sealed in place where it is plain, and read back. `calls` storage calls are
        left before the process stops; `lands` says whether the write takes. */
    method ProtectRecord(k1: Option<Material>, area: string, key: string, calls: nat, lands: bool, nonce: B.Bytes)
      returns (fate: Fate, left: nat)
      requires (k1.Some? ==> k1.value.kid != "") && IsNonce(nonce) && key in items
      modifies this
      ensures key in items && items == old(items)[key := items[key]]
      ensures Turned(old(items)[key], items[key], k1, Location(area, key))
      ensures fate != Stop ==> fate == FateOf(old(items)[key], k1, Location(area, key), lands)
      ensures fate != Stop ==> (items[key] != old(items)[key] <==> fate == Encrypted)
      ensures calls >= 3 ==> fate != Stop && left >= calls - 3
    {
      left := calls;
      if left == 0 { return Stop, 0; }
      left := left - 1;
      var stored := items[key];
      if left == 0 { return Stop, 0; }
      left := left - 1;
      if IsEnvelope(stored) {
        fate := if ReadBack(stored, k1, Location(area, key)).Some? then Already else Fate.Unreadable;
        return;
      }
      if k1.None? || !lands { return Fate.Failed, left; }
      var sealed := Seal(k1.value.key, k1.value.kid, Location(area, key), nonce, stored);
      assert SealedAs(sealed, k1.value, Location(area, key), stored);
      SealedReads(sealed, k1.value, Location(area, key), stored);
      items := items[key := sealed];
      if left == 0 { return Stop, 0; }
      left := left - 1;
      var readBack := ReadBack(items[key], k1, Location(area, key));
      fate := if readBack != Some(stored) then Fate.Failed else Encrypted;
    }

    method ProtectExistingRecords(k1: Option<Material>, area: string, calls: nat, lands: string -> bool,
                                  nonces: string -> B.Bytes)
      returns (outcome: Protected, finished: bool)
      requires k1.Some? ==> k1.value.kid != ""
      requires forall k | k in items :: IsNonce(nonces(k))
      modifies this
      ensures Converted(old(items), items, k1, area)
      ensures finished ==> Counted(outcome, old(items), k1, area, lands, {})
      ensures finished ==> forall k | k in items :: items[k] != old(items)[k] <==> k in Fated(old(items), k1, area, lands, Encrypted)
      ensures finished ==> Accounts(outcome, old(items), k1, area, lands)
      ensures finished ==> forall k | k in items :: items[k].Plain? <==> old(items)[k].Plain? && (k1.None? || !lands(k))
      ensures calls >= 1 + 3 * |old(items)| ==> finished
    {
      outcome, finished := Protected(0, 0, 0, 0), false;
      if calls == 0 { return; }
      var left: nat := calls - 1;
      var rest := items.Keys;
      ghost var was := items;
      NothingCounted(items, k1, area, lands);
      while rest != {}
        invariant rest <= was.Keys && was == old(items)
        invariant Underway(was, items, k1, area, lands, rest)
        invariant Counted(outcome, was, k1, area, lands, rest)
        invariant calls >= 1 + 3 * |was| ==> left >= 3 * |rest|
        decreases rest
      {
        var key :| key in rest;
        ghost var before := items;
        OneFewer(rest, key);
        var fate;
        fate, left := ProtectRecord(k1, area, key, left, lands(key), nonces(key));
        RecordDone(was, before, items, k1, area, lands, rest, key, fate);
        if fate == Stop { return; }
        CountOne(outcome, was, k1, area, lands, rest, key);
        outcome := Tally(outcome, fate);
        rest := rest - {key};
      }
      finished := true;
      FatesAccount(outcome, was, k1, area, lands);
      PlainIsLeft(was, items, k1, area, lands);
    }

    /** Reads every envelope and writes nothing. `None` when the process stops on the way. */
    method Recover(k1: Option<Material>, area: string, calls: nat)
      returns (recovered: Items, unreadable: nat, left: Option<nat>)
      ensures left.Some? ==>
        && recovered.Keys == Readable(items, k1, area) && unreadable == |Broken(items, k1, area)|
        && forall k | k in recovered :: recovered[k] == InsideOf(items[k], k1, Location(area, k))
      ensures calls >= 1 + 2 * |items| ==> left.Some? && left.value >= calls - 1 - 2 * |items|
    {
      recovered, unreadable, left := map[], 0, None;
      if calls == 0 { return; }
      var calls': nat := calls - 1;
      var rest := items.Keys;
      NothingRead(items, k1, area);
      while rest != {}
        invariant rest <= items.Keys
        invariant ReadSoFar(recovered, unreadable, items, k1, area, rest)
        invariant calls >= 1 + 2 * |items| ==> calls' >= calls - 1 - 2 * (|items| - |rest|)
        decreases rest
      {
        if calls' < 2 {
          assert |rest| > 0;
          return;
        }
        calls' := calls' - 2;
        var key :| key in rest;
        OneFewer(rest, key);
        var stored := items[key];
        ReadOne(recovered, unreadable, items, k1, area, rest, key);
        rest := rest - {key};
        if IsEnvelope(stored) {
          var read := ReadBack(stored, k1, Location(area, key));
          if read.Some? {
            recovered := recovered[key := read.value];
          } else {
            unreadable := unreadable + 1;
          }
        }
      }
      left := Some(calls');
    }

    /** Writes the values back, one after the other. */
    method WriteBack(recovered: Items, calls: nat) returns (finished: bool)
      requires recovered.Keys <= items.Keys
      modifies this
      ensures items.Keys == old(items).Keys
      ensures forall k | k in items :: items[k] == old(items)[k] || (k in recovered && items[k] == recovered[k])
      ensures finished ==> forall k | k in items :: items[k] == if k in recovered then recovered[k] else old(items)[k]
      ensures calls >= |recovered| ==> finished
    {
      var left := calls;
      finished := false;
      var todo := recovered.Keys;
      while todo != {}
        invariant todo <= recovered.Keys && items.Keys == old(items).Keys
        invariant calls >= |recovered| ==> left >= |todo|
        invariant forall k | k in items :: items[k] == if k in recovered && k !in todo then recovered[k] else old(items)[k]
        decreases todo
      {
        if left == 0 { return; }
        left := left - 1;
        var key :| key in todo;
        OneFewer(todo, key);
        items := items[key := recovered[key]];
        todo := todo - {key};
      }
      finished := true;
    }

    /** Everything is read before anything is written, and one unreadable record refuses all. */
    method UnprotectExistingRecords(k1: Option<Material>, area: string, calls: nat) returns (outcome: Unprotected)
      modifies this
      ensures Reverted(old(items), items, k1, area)
      ensures outcome.Refused? ==> items == old(items) && outcome.unreadable == |Broken(old(items), k1, area)| > 0
      ensures outcome.Restored? ==>
        && Broken(old(items), k1, area) == {} && outcome.decrypted == |Readable(old(items), k1, area)|
        && Emptied(old(items), items, k1, area)
      ensures calls >= 1 + 3 * |old(items)| ==> (outcome.Refused? <==> Broken(old(items), k1, area) != {})
      ensures calls >= 1 + 3 * |old(items)| ==> !outcome.Stopped?
    {
      var recovered, unreadable, left := Recover(k1, area, calls);
      if left.None? { return Stopped; }
      FewerOf(Readable(items, k1, area), items.Keys);
      if unreadable > 0 { return Refused(unreadable); }
      var finished := WriteBack(recovered, left.value);
      assert Broken(old(items), k1, area) == {};
      AllClassified(old(items), k1, area);
      outcome := if finished then Restored(|recovered|) else Stopped;
    }
  }

  /** Every record is what it read as. */
  ghost predicate Emptied(before: Items, after: Items, k1: Option<Material>, area: string) {
    && after.Keys == before.Keys
    && forall k | k in before :: after[k] == InsideOf(before[k], k1, Location(area, k))
  }

  lemma OneFewer<T>(s: set<T>, x: T)
    requires x in s
    ensures |s - {x}| == |s| - 1
  {
  }

  lemma FewerOf<T>(a: set<T>, b: set<T>)
    requires a <= b
    ensures |a| <= |b|
  {
    assert b == a + (b - a);
  }

  /** What the four counters mean. */
  ghost predicate Accounts(p: Protected, items: Items, k1: Option<Material>, area: string, lands: string -> bool) {
    && p.encrypted == |set k | k in items && items[k].Plain? && k1.Some? && lands(k)|
    && p.failed == |set k | k in items && items[k].Plain? && !(k1.Some? && lands(k))|
    && p.alreadyProtected == |Readable(items, k1, area)| && p.unreadable == |Broken(items, k1, area)|
  }

  lemma PlainFates(items: Items, k1: Option<Material>, area: string, lands: string -> bool)
    ensures Fated(items, k1, area, lands, Encrypted) == set k | k in items && items[k].Plain? && k1.Some? && lands(k)
    ensures Fated(items, k1, area, lands, Fate.Failed) == set k | k in items && items[k].Plain? && !(k1.Some? && lands(k))
  {
  }

  lemma ShapedFates(items: Items, k1: Option<Material>, area: string, lands: string -> bool)
    ensures Fated(items, k1, area, lands, Already) == Readable(items, k1, area)
    ensures Fated(items, k1, area, lands, Fate.Unreadable) == Broken(items, k1, area)
  {
  }

  lemma CountedFate(p: Protected, items: Items, k1: Option<Material>, area: string, lands: string -> bool, f: Fate)
    requires Counted(p, items, k1, area, lands, {}) && f != Stop
    ensures CountOf(p, f) == |Fated(items, k1, area, lands, f)|
  {
    assert Fated(items, k1, area, lands, f) - {} == Fated(items, k1, area, lands, f);
  }

  lemma FatesAccount(p: Protected, items: Items, k1: Option<Material>, area: string, lands: string -> bool)
    requires Counted(p, items, k1, area, lands, {})
    ensures Accounts(p, items, k1, area, lands)
  {
    PlainFates(items, k1, area, lands);
    ShapedFates(items, k1, area, lands);
    CountedFate(p, items, k1, area, lands, Encrypted);
    CountedFate(p, items, k1, area, lands, Fate.Failed);
    CountedFate(p, items, k1, area, lands, Already);
    CountedFate(p, items, k1, area, lands, Fate.Unreadable);
  }

  /** A plain record is left plain only without a key or where the write did not take. */
  lemma PlainIsLeft(was: Items, items: Items, k1: Option<Material>, area: string, lands: string -> bool)
    requires Underway(was, items, k1, area, lands, {})
    ensures forall k | k in items :: items[k].Plain? <==> was[k].Plain? && (k1.None? || !lands(k))
  {
    forall k | k in items ensures items[k].Plain? <==> was[k].Plain? && (k1.None? || !lands(k)) {
      assert Turned(was[k], items[k], k1, Location(area, k));
      FatedHas(was, k1, area, lands, Encrypted, k);
    }
  }

  function Tally(p: Protected, fate: Fate): Protected {
    match fate
    case Encrypted => p.(encrypted := p.encrypted + 1)
    case Already => p.(alreadyProtected := p.alreadyProtected + 1)
    case Failed => p.(failed := p.failed + 1)
    case Unreadable => p.(unreadable := p.unreadable + 1)
    case Stop => p
  }

  /** The records still to do are as they were, the others are what their fate says. */
  ghost predicate Underway(was: Items, items: Items, k1: Option<Material>, area: string, lands: string -> bool, rest: set<string>) {
    && Converted(was, items, k1, area)
    && (forall k | k in was && k in rest :: items[k] == was[k])
    && (forall k | k in was && k !in rest :: items[k] != was[k] <==> k in Fated(was, k1, area, lands, Encrypted))
  }

  lemma RecordDone(was: Items, before: Items, items: Items, k1: Option<Material>, area: string, lands: string -> bool,
                   rest: set<string>, key: string, fate: Fate)
    requires Underway(was, before, k1, area, lands, rest) && key in rest && key in was && key in items
    requires items == before[key := items[key]] && Turned(before[key], items[key], k1, Location(area, key))
    requires fate != Stop ==> fate == FateOf(before[key], k1, Location(area, key), lands(key))
                              && (items[key] != before[key] <==> fate == Encrypted)
    ensures Converted(was, items, k1, area)
    ensures fate != Stop ==> fate == FateOf(was[key], k1, Location(area, key), lands(key))
    ensures fate != Stop ==> Underway(was, items, k1, area, lands, rest - {key})
  {
    forall k | k in was ensures Turned(was[k], items[k], k1, Location(area, k)) {
      assert Turned(was[k], before[k], k1, Location(area, k));
    }
    FatedHas(was, k1, area, lands, Encrypted, key);
  }

  /** What was recovered is what the records read as. */
  ghost predicate Faithful(recovered: Items, items: Items, k1: Option<Material>, area: string) {
    forall k | k in recovered :: k in items && recovered[k] == InsideOf(items[k], k1, Location(area, k))
  }

  ghost predicate ReadSoFar(recovered: Items, unreadable: nat, items: Items, k1: Option<Material>, area: string, rest: set<string>) {
    && recovered.Keys == Readable(items, k1, area) - rest
    && Faithful(recovered, items, k1, area)
    && unreadable == |Broken(items, k1, area) - rest|
  }

  lemma NothingRead(items: Items, k1: Option<Material>, area: string)
    ensures ReadSoFar(map[], 0, items, k1, area, items.Keys)
  {
    assert Readable(items, k1, area) - items.Keys == {} && Broken(items, k1, area) - items.Keys == {};
  }

  lemma AddFaithful(recovered: Items, items: Items, k1: Option<Material>, area: string, key: string, value: Stored)
    requires Faithful(recovered, items, k1, area) && key in items && value == InsideOf(items[key], k1, Location(area, key))
    ensures Faithful(recovered[key := value], items, k1, area)
    ensures recovered[key := value].Keys == recovered.Keys + {key}
  {
  }

  lemma ReadOne(recovered: Items, unreadable: nat, items: Items, k1: Option<Material>, area: string, rest: set<string>, key: string)
    requires ReadSoFar(recovered, unreadable, items, k1, area, rest) && key in rest && key in items
    ensures var read := ReadBack(items[key], k1, Location(area, key));
      if items[key].Plain? then ReadSoFar(recovered, unreadable, items, k1, area, rest - {key})
      else if read.Some? then ReadSoFar(recovered[key := read.value], unreadable, items, k1, area, rest - {key})
      else ReadSoFar(recovered, unreadable + 1, items, k1, area, rest - {key})
  {
    Classified(items, k1, area, key);
    var readable, broken := Readable(items, k1, area), Broken(items, k1, area);
    OneGone(readable, rest, key);
    LetOneGo(broken, rest, key);
    var read := ReadBack(items[key], k1, Location(area, key));
    if items[key].Shaped? && read.Some? {
      AddFaithful(recovered, items, k1, area, key, read.value);
      assert readable - (rest - {key}) == (readable - rest) + {key};
    } else {
      assert (readable - rest) + {} == readable - rest;
    }
  }

  function CountOf(p: Protected, fate: Fate): nat {
    match fate
    case Encrypted => p.encrypted
    case Already => p.alreadyProtected
    case Failed => p.failed
    case Unreadable => p.unreadable
    case Stop => 0
  }

  ghost predicate Counted(p: Protected, items: Items, k1: Option<Material>, area: string, lands: string -> bool, rest: set<string>) {
    forall f: Fate | f != Stop :: CountOf(p, f) == |Fated(items, k1, area, lands, f) - rest|
  }

  lemma CountOne(p: Protected, items: Items, k1: Option<Material>, area: string, lands: string -> bool, rest: set<string>, key: string)
    requires Counted(p, items, k1, area, lands, rest) && key in rest && key in items
    ensures Counted(Tally(p, FateOf(items[key], k1, Location(area, key), lands(key))), items, k1, area, lands, rest - {key})
  {
    var fate := FateOf(items[key], k1, Location(area, key), lands(key));
    forall f: Fate | f != Stop
      ensures CountOf(Tally(p, fate), f) == |Fated(items, k1, area, lands, f) - (rest - {key})|
    {
      FatedHas(items, k1, area, lands, f, key);
      LetOneGo(Fated(items, k1, area, lands, f), rest, key);
      TallyCounts(p, fate, f);
    }
  }

  lemma FatedHas(items: Items, k1: Option<Material>, area: string, lands: string -> bool, f: Fate, key: string)
    requires key in items
    ensures key in Fated(items, k1, area, lands, f) <==> FateOf(items[key], k1, Location(area, key), lands(key)) == f
  {
  }

  lemma TallyCounts(p: Protected, fate: Fate, f: Fate)
    requires f != Stop
    ensures CountOf(Tally(p, fate), f) == CountOf(p, f) + if f == fate then 1 else 0
  {
  }

  lemma Classified(items: Items, k1: Option<Material>, area: string, key: string)
    requires key in items
    ensures key in Readable(items, k1, area) <==> items[key].Shaped? && ReadBack(items[key], k1, Location(area, key)).Some?
    ensures key in Broken(items, k1, area) <==> items[key].Shaped? && ReadBack(items[key], k1, Location(area, key)).None?
  {
  }

  lemma OneGone(s: set<string>, rest: set<string>, key: string)
    requires key in rest
    ensures s - (rest - {key}) == (s - rest) + if key in s then {key} else {}
  {
  }

  lemma NothingCounted(items: Items, k1: Option<Material>, area: string, lands: string -> bool)
    ensures Counted(Protected(0, 0, 0, 0), items, k1, area, lands, items.Keys)
  {
    forall f: Fate | f != Stop
      ensures CountOf(Protected(0, 0, 0, 0), f) == |Fated(items, k1, area, lands, f) - items.Keys|
    {
      assert Fated(items, k1, area, lands, f) - items.Keys == {};
    }
  }

  lemma LetOneGo(s: set<string>, rest: set<string>, key: string)
    requires key in rest
    ensures |s - (rest - {key})| == |s - rest| + if key in s then 1 else 0
  {
    assert s - (rest - {key}) == (s - rest) + if key in s then {key} else {};
  }

  lemma AllClassified(items: Items, k1: Option<Material>, area: string)
    ensures forall k | k in items && items[k].Shaped? :: k in Readable(items, k1, area) || k in Broken(items, k1, area)
  {
  }

  // ---- stopping and running again ----

  /** What is kept by one run, however far it got, is kept by the next one on top of it. */
  lemma RerunConverts(a: Items, b: Items, c: Items, k1: Option<Material>, area: string)
    requires Converted(a, b, k1, area) && Converted(b, c, k1, area)
    ensures Converted(a, c, k1, area)
  {
    forall k | k in a && c[k] != a[k]
      ensures k1.Some? && a[k].Plain? && SealedAs(c[k], k1.value, Location(area, k), a[k])
    {
      assert Turned(a[k], b[k], k1, Location(area, k)) && Turned(b[k], c[k], k1, Location(area, k));
    }
  }

  /** No record is worth more or less than before, wherever the process stopped, and no envelope has
      gone into another. */
  lemma ConvertingKeepsWorth(a: Items, b: Items, k1: Option<Material>, area: string, k: string)
    requires Converted(a, b, k1, area) && (k1.Some? ==> k1.value.kid != "") && k in a
    ensures WorthOf(b[k], k1, Location(area, k)) == WorthOf(a[k], k1, Location(area, k))
    ensures b[k] != a[k] ==> a[k].Plain? && b[k].Shaped?
  {
    if b[k] != a[k] { SealedReads(b[k], k1.value, Location(area, k), a[k]); }
  }

  /** However far a restore got, a record reads as before exactly when it has not been reached or the
      value inside its envelope is not envelope-shaped itself. */
  lemma RevertingKeepsWorthExactly(a: Items, b: Items, k1: Option<Material>, area: string, k: string)
    requires Reverted(a, b, k1, area) && k in a
    ensures WorthOf(b[k], k1, Location(area, k)) == WorthOf(a[k], k1, Location(area, k))
        <==> b[k] == a[k] || InsideOf(a[k], k1, Location(area, k)).Plain?
  {
    if b[k] != a[k] && b[k].Shaped? && ReadBack(b[k], k1, Location(area, k)).Some? {
      NeverItself(k1.value.key, Location(area, k), b[k]);
    }
  }

  lemma FinishedRecord(a: Items, b: Items, k1: Option<Material>, area: string, k: string)
    requires Emptied(a, b, k1, area) && Broken(a, k1, area) == {} && k in a
    ensures WorthOf(b[k], k1, Location(area, k)) == WorthOf(a[k], k1, Location(area, k))
        <==> (k in Readable(a, k1, area) ==> InsideOf(a[k], k1, Location(area, k)).Plain?)
  {
    AllClassified(a, k1, area);
    if b[k].Shaped? && ReadBack(b[k], k1, Location(area, k)).Some? {
      NeverItself(k1.value.key, Location(area, k), b[k]);
    }
  }

  /** A finished restore keeps what every record reads as exactly when no readable envelope holds a
      value shaped like one. */
  lemma RestoringKeepsAllExactly(a: Items, b: Items, k1: Option<Material>, area: string)
    requires Emptied(a, b, k1, area) && Broken(a, k1, area) == {}
    ensures (forall k | k in a :: WorthOf(b[k], k1, Location(area, k)) == WorthOf(a[k], k1, Location(area, k)))
        <==> forall k | k in Readable(a, k1, area) :: InsideOf(a[k], k1, Location(area, k)).Plain?
  {
    AllClassified(a, k1, area);
    forall k | k in a
      ensures WorthOf(b[k], k1, Location(area, k)) == WorthOf(a[k], k1, Location(area, k))
          <==> (k in Readable(a, k1, area) ==> InsideOf(a[k], k1, Location(area, k)).Plain?)
    {
      FinishedRecord(a, b, k1, area, k);
    }
  }

  /** A sealed record that is no envelope of ours but has the shape of one: restored, it cannot be read. */
  lemma SealedEnvelopeLost(m: Material, area: string, iv: B.Bytes)
    requires IsNonce(iv) && m.kid != ""
    ensures var inner := Shaped(0, "", None, None, None);
      var a := map["k" := Seal(m.key, m.kid, Location(area, "k"), iv, inner)];
      var b := map["k" := inner];
      && Emptied(a, b, Some(m), area) && Broken(a, Some(m), area) == {}
      && WorthOf(a["k"], Some(m), Location(area, "k")) == Reads(inner)
      && WorthOf(b["k"], Some(m), Location(area, "k")) == Lost(inner)
  {
    OpensExactly(m.key, m.kid, Location(area, "k"), iv, Shaped(0, "", None, None, None), m.key, Location(area, "k"));
  }

  /** A finished restore leaves no envelope exactly when no value inside was shaped like one. */
  lemma NothingShapedLeftExactly(a: Items, b: Items, k1: Option<Material>, area: string)
    requires Emptied(a, b, k1, area) && Broken(a, k1, area) == {}
    ensures (forall k | k in b :: b[k].Plain?)
        <==> forall k | k in Readable(a, k1, area) :: InsideOf(a[k], k1, Location(area, k)).Plain?
  {
    AllClassified(a, k1, area);
  }

  /** On then off is the identity on records that are not envelope-shaped. */
  lemma OnThenOff(a: Items, b: Items, c: Items, k1: Option<Material>, area: string)
    requires k1.Some? && k1.value.kid != ""
    requires forall k | k in a :: a[k].Plain?
    requires Converted(a, b, k1, area) && Emptied(b, c, k1, area)
    ensures c == a && Broken(b, k1, area) == {}
  {
    forall k | k in a
      ensures c[k] == a[k] && (b[k].Shaped? ==> ReadBack(b[k], k1, Location(area, k)) == Some(a[k]))
    {
      if b[k] != a[k] { SealedReads(b[k], k1.value, Location(area, k), a[k]); }
    }
  }
}
