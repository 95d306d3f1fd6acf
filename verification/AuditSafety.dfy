/** The producer always satisfies the checker, and what the checker is bound to notice. */
module AuditSafety {
  import opened Store
  import opened Json
  import opened AuditRecord
  import opened AuditTrail

  // ---- record ids ----

  function Value36(t: Text): int {
    if t == [] then 0
    else Value36(t[..|t| - 1]) * 36 + (if t[|t| - 1] < 58 then t[|t| - 1] - 48 else t[|t| - 1] - 87)
  }

  lemma {:induction false} Base36Reads(n: nat)
    ensures Value36(Base36(n)) == n && forall i | 0 <= i < |Base36(n)| :: 48 <= Base36(n)[i] < 58 || Base36(n)[i] >= 97
    ensures 95 !in Base36(n)
  {
    var t := Base36(n);
    if n >= 36 {
      Base36Reads(n / 36);
      assert t[..|t| - 1] == Base36(n / 36);
    } else {
      assert t[..0] == [];
    }
  }

  lemma SplitLast(a: Text, x: Text, b: Text, y: Text)
    requires a + [95] + x == b + [95] + y && 95 !in x && 95 !in y
    ensures x == y
  {
    LastNotLonger(a, x, b, y);
    LastNotLonger(b, y, a, x);
    Cancel(a + [95], b + [95], x, y);
  }

  lemma LastNotLonger(a: Text, x: Text, b: Text, y: Text)
    requires a + [95] + x == b + [95] + y && 95 !in x
    ensures |x| <= |y|
  {
    var t := b + [95] + y;
    assert t[|b|] == 95;
    assert forall i | |a| < i < |t| :: (a + [95] + x)[i] in x;
  }

  /** Two records with different positive numbers have different ids, whatever their times. */
  lemma IdsDiffer(at1: int, n1: nat, at2: int, n2: nat)
    requires MintId(at1, n1) == MintId(at2, n2)
    ensures n1 == n2
  {
    assert U("_") == [95];
    Base36Reads(n1);
    Base36Reads(n2);
    SplitLast(U("aud_") + Signed36(at1), Base36(n1), U("aud_") + Signed36(at2), Base36(n2));
  }

  // ---- what every append keeps ----

  /** Times descend along the trail, which is stored newest first. */
  ghost predicate Descending(events: seq<Record>)
    requires AllUsable(events)
  {
    forall i, j | 0 <= i < j < |events| :: At(events[i]) >= At(events[j])
  }

  ghost predicate Good(c: Config, events: seq<Record>, digest: Record -> Text) {
    && Sound(events, digest)
    && |events| <= c.maxEvents
    && (events != [] ==> Seq(events[|events| - 1]) >= 1)
    && (forall i | 0 <= i < |events| :: Id(events[i]) == MintId(At(events[i]), Seq(events[i])))
    && Descending(events)
  }

  /** In a sound trail the numbers count down by one. */
  lemma {:induction false} SeqAt(events: seq<Record>, digest: Record -> Text, i: nat)
    requires Sound(events, digest) && i < |events|
    ensures Seq(events[i]) == Seq(events[0]) - i
  {
    if i > 0 {
      SeqAt(events, digest, i - 1);
      assert Follows(events[i - 1], events[i], digest);
    }
  }

  lemma SoundPart(events: seq<Record>, digest: Record -> Text, lo: nat, hi: nat)
    requires Sound(events, digest) && lo <= hi <= |events|
    ensures Sound(events[lo..hi], digest)
  {
    var part := events[lo..hi];
    forall i | 0 <= i < |part| - 1 ensures Follows(part[i], part[i + 1], digest) {
      assert Follows(events[lo + i], events[lo + i + 1], digest);
    }
  }

  lemma {:induction false} SeqRange(events: seq<Record>, digest: Record -> Text)
    requires Sound(events, digest) && events != []
    ensures MaxSeq(events) == Seq(events[0]) && MinSeq(events) == Seq(events[|events| - 1])
    ensures Seq(events[|events| - 1]) == Seq(events[0]) - |events| + 1
  {
    if |events| > 1 {
      SoundPart(events, digest, 1, |events|);
      SeqRange(events[1..], digest);
      assert Follows(events[0], events[1], digest);
    }
  }

  /** The first `n` records are unexpired, so they head the filtered list. */
  lemma {:induction false} FreshHead(events: seq<Record>, cutoff: int, n: nat)
    requires AllUsable(events) && n <= |events| && forall i | 0 <= i < n :: At(events[i]) >= cutoff
    ensures n <= |Fresh(events, cutoff)| && Fresh(events, cutoff)[..n] == events[..n]
  {
    if n > 0 {
      FreshHead(events[1..], cutoff, n - 1);
      assert events[..n] == [events[0]] + events[1..][..n - 1];
    }
  }

  /** With times descending along the trail the expired records are its tail. */
  lemma {:induction false} ExpiredIsTail(events: seq<Record>, cutoff: int)
    requires AllUsable(events) && Descending(events)
    ensures events == Fresh(events, cutoff) + Expired(events, cutoff)
  {
    if events != [] {
      ExpiredIsTail(events[1..], cutoff);
      assert events == [events[0]] + events[1..];
      if At(events[0]) < cutoff { AllExpired(events, cutoff); }
    }
  }

  lemma {:induction false} AllExpired(events: seq<Record>, cutoff: int)
    requires AllUsable(events) && forall i | 0 <= i < |events| :: At(events[i]) < cutoff
    ensures Fresh(events, cutoff) == [] && Expired(events, cutoff) == events
  {
    if events != [] {
      AllExpired(events[1..], cutoff);
      HeadAndTail(Expired(events, cutoff), events);
    }
  }

  lemma KeepCountFits(c: Config, n: nat)
    ensures KeepCount(c, n) + 2 <= Max(2, c.maxEvents)
  {
  }

  lemma CutAt<T>(xs: seq<T>, a: seq<T>, b: seq<T>, m: nat)
    requires xs == a + b && m <= |a|
    ensures a[..m] == xs[..m] && a[m..] + b == xs[m..]
  {
  }

  /** Eviction cuts a tail: survivors and evicted records are the two parts of the trail. */
  lemma EvictionCutsTail(c: Config, events: seq<Record>, at: int)
    requires AllUsable(events) && Descending(events)
    ensures var m := |Survivors(c, events, at)|;
      m <= |events| && Survivors(c, events, at) == events[..m] && Evicted(c, events, at) == events[m..]
      && m + 2 <= Max(2, c.maxEvents)
  {
    var kept, expired := Fresh(events, at - c.retentionMs), Expired(events, at - c.retentionMs);
    ExpiredIsTail(events, at - c.retentionMs);
    PartsAre(c, events, at, kept, expired);
    CutAt(events, kept, expired, |Survivors(c, events, at)|);
  }

  lemma PartsAre(c: Config, events: seq<Record>, at: int, kept: seq<Record>, expired: seq<Record>)
    requires AllUsable(events)
    requires kept == Fresh(events, at - c.retentionMs) && expired == Expired(events, at - c.retentionMs)
    ensures var m := |Survivors(c, events, at)|;
      && m <= |kept| && Survivors(c, events, at) == kept[..m] && Evicted(c, events, at) == kept[m..] + expired
      && m + 2 <= Max(2, c.maxEvents)
  {
    KeepCountFits(c, |kept|);
  }

  predicate MarkerSays(r: Record, count: int, from: int, to: int) {
    && COUNT in r.rest && r.rest[COUNT] == Num(count)
    && FROM in r.rest && r.rest[FROM] == Num(from)
    && TO in r.rest && r.rest[TO] == Num(to)
  }

  /** The marker covers the numbers from the oldest record there was up to just below the oldest
      survivor, or below the marker itself, and counts them all. */
  ghost predicate CoversTail(events: seq<Record>, m: nat, marker: Record)
    requires AllUsable(events)
  {
    && m < |events| && Usable(marker) && Seq(marker) == Highest(events) + 1
    && var bottom, top := Seq(events[|events| - 1]), Edge(events, m);
      |events| - m == top - bottom && MarkerSays(marker, top - bottom, bottom, top - 1)
  }

  /** What a marker says is exact: survivors and evicted records are the two parts of the trail, and
      the marker covers the second. */
  lemma MarkerExact(c: Config, events: seq<Record>, digest: Record -> Text, at: int)
    requires Good(c, events, digest) && Marker(c, events, digest, at).Some?
    ensures var m := |Survivors(c, events, at)|;
      && m <= |events| && Survivors(c, events, at) == events[..m] && Evicted(c, events, at) == events[m..]
      && CoversTail(events, m, Marker(c, events, digest, at).value)
  {
    var m := |Survivors(c, events, at)|;
    EvictionCutsTail(c, events, at);
    RemovalMarkerExact(events, digest, m, at, ChainHead(events, digest));
  }

  lemma RemovalMarkerExact(events: seq<Record>, digest: Record -> Text, m: nat, at: int, head: Text)
    requires Sound(events, digest) && m <= |events| && RemovalMarker(events[m..], Highest(events), head, at).Some?
    ensures CoversTail(events, m, RemovalMarker(events[m..], Highest(events), head, at).value)
  {
    TailRange(events, digest, m);
    MarkerReads(|events| - m, MinSeq(events[m..]), MaxSeq(events[m..]), at, Highest(events) + 1, head);
  }

  /** The number just above a tail that starts at `m`: the oldest survivor's, or the next one. */
  function Edge(events: seq<Record>, m: nat): int
    requires AllUsable(events) && m < |events|
  {
    if m == 0 then Seq(events[0]) + 1 else Seq(events[m - 1])
  }

  lemma HighestIsFirst(c: Config, events: seq<Record>, digest: Record -> Text)
    requires Good(c, events, digest)
    ensures Highest(events) == if events == [] then 0 else Seq(events[0])
  {
    if events != [] { SeqRange(events, digest); }
  }

  /** The numbers of a tail of the trail. */
  lemma TailRange(events: seq<Record>, digest: Record -> Text, m: nat)
    requires Sound(events, digest) && m < |events|
    ensures var (bottom, top) := (Seq(events[|events| - 1]), Edge(events, m));
      MinSeq(events[m..]) == bottom && MaxSeq(events[m..]) == top - 1 && |events| - m == top - bottom
  {
    SoundPart(events, digest, m, |events|);
    SeqRange(events[m..], digest);
    SeqAt(events, digest, m);
    if m > 0 { SeqAt(events, digest, m - 1); }
  }

  lemma MarkerReads(count: int, from: int, to: int, at: int, seqNo: int, prev: Text)
    ensures MarkerSays(Stamp(MarkerBody(count, from, to), at, seqNo, prev), count, from, to)
  {
    assert |U("outcome")| == 7 && |COUNT| == 12 && |FROM| == 14 && |TO| == 12;
    assert COUNT[7] != TO[7];
  }

  // ---- the producer satisfies the checker ----

  /** A freshly stamped record may be put in front of a good trail it continues. */
  lemma PushKeepsGood(c: Config, r: Record, events: seq<Record>, digest: Record -> Text)
    requires Good(c, events, digest) && |events| < c.maxEvents
    requires Readable(r) && Seq(r) >= 1 && Id(r) == MintId(At(r), Seq(r))
    requires events != [] ==> Follows(r, events[0], digest) && At(r) >= At(events[0])
    ensures Good(c, [r] + events, digest)
  {
    var all := [r] + events;
    forall i | 0 <= i < |all| - 1 ensures Follows(all[i], all[i + 1], digest) {
      if i > 0 { assert Follows(events[i - 1], events[i], digest); }
    }
  }

  lemma StampPushes(c: Config, rest: seq<Record>, digest: Record -> Text, body: Body, at: int, n: int, prev: Text)
    requires Good(c, rest, digest) && |rest| < c.maxEvents && n >= 1
    requires rest != [] ==> n == Seq(rest[0]) + 1 && prev == digest(rest[0]) && At(rest[0]) <= at
    ensures Good(c, [Stamp(body, at, n, prev)] + rest, digest)
    ensures var r := Stamp(body, at, n, prev); Usable(r) && Seq(r) == n && At(r) == at
  {
    PushKeepsGood(c, Stamp(body, at, n, prev), rest, digest);
  }

  lemma PartKeepsGood(c: Config, events: seq<Record>, digest: Record -> Text, n: nat)
    requires Good(c, events, digest) && n <= |events|
    ensures Good(c, events[..n], digest)
  {
    SoundPart(events, digest, 0, n);
    var part := events[..n];
    assert events[0..n] == part;
    forall i | 0 <= i < n ensures Id(part[i]) == MintId(At(part[i]), Seq(part[i])) { assert part[i] == events[i]; }
    assert Descending(part);
    if n > 0 { PartBottom(events, digest, n); }
  }

  lemma PartBottom(events: seq<Record>, digest: Record -> Text, n: nat)
    requires Sound(events, digest) && 0 < n <= |events| && Seq(events[|events| - 1]) >= 1
    ensures Seq(events[n - 1]) >= 1
  {
    SeqAt(events, digest, n - 1);
    SeqAt(events, digest, |events| - 1);
  }

  /** A record stamped with the next number goes on top of a good trail, or of nothing. */
  lemma StampedIsGood(c: Config, base: seq<Record>, digest: Record -> Text, body: Body, at: int, n: int, prev: Text)
    requires Good(c, base, digest) && |base| < c.maxEvents && n >= 1
    requires base != [] ==> n == Seq(base[0]) + 1 && prev == digest(base[0]) && At(base[0]) <= at
    ensures var r := [Stamp(body, at, n, prev)] + base;
      && Good(c, r, digest) && |r| == |base| + 1 && At(r[0]) == at && Seq(r[0]) == n
  {
    StampPushes(c, base, digest, body, at, n, prev);
  }

  lemma OnTopOf(m: Record, survivors: seq<Record>)
    ensures |[m] + survivors| == |survivors| + 1 && ([m] + survivors)[0] == m
  {
  }

  lemma MarkedIsGood(c: Config, survivors: seq<Record>, m: Record, highest: int, head: Text,
                     digest: Record -> Text, body: Body, at: int)
    requires Good(c, [m] + survivors, digest) && |survivors| + 1 < c.maxEvents && highest >= 0
    requires Usable(m) && Seq(m) == highest + 1 && At(m) == at
    ensures var r := Assembled(survivors, Some(m), highest, head, digest, body, at);
      && Good(c, r, digest) && At(r[0]) == at && Seq(r[0]) == highest + |r| - |survivors|
  {
    OnTopOf(m, survivors);
    StampedIsGood(c, [m] + survivors, digest, body, at, highest + 2, digest(m));
  }

  lemma UnmarkedIsGood(c: Config, survivors: seq<Record>, highest: int, head: Text,
                       digest: Record -> Text, body: Body, at: int)
    requires Good(c, survivors, digest) && |survivors| < c.maxEvents && highest >= 0
    requires survivors != [] ==> highest == Seq(survivors[0]) && head == digest(survivors[0]) && At(survivors[0]) <= at
    ensures var r := Assembled(survivors, None, highest, head, digest, body, at);
      && Good(c, r, digest) && At(r[0]) == at && Seq(r[0]) == highest + |r| - |survivors|
  {
    StampedIsGood(c, survivors, digest, body, at, highest + 1, head);
  }

  /** Whatever an append evicts, the trail it leaves is good again, and its highest number has
      grown by the records it put in front. */
  lemma AppendKeepsGood(c: Config, events: seq<Record>, digest: Record -> Text, body: Body, at: int)
    requires Good(c, events, digest) && c.maxEvents >= 2
    requires events != [] ==> At(events[0]) <= at
    ensures var r := Appended(c, events, digest, body, at);
      && Good(c, r, digest) && r != [] && At(r[0]) == at
      && |r| + |Evicted(c, events, at)| - |events| == Seq(r[0]) - Highest(events)
  {
    HighestIsFirst(c, events, digest);
    EvictionCutsTail(c, events, at);
    var survivors, marker := Survivors(c, events, at), Marker(c, events, digest, at);
    if marker.Some? {
      MarkerPushes(c, events, digest, at);
      MarkedIsGood(c, survivors, marker.value, Highest(events), ChainHead(events, digest), digest, body, at);
    } else {
      NothingEvicted(c, events, digest, at);
      UnmarkedIsGood(c, survivors, Highest(events), ChainHead(events, digest), digest, body, at);
    }
  }

  lemma NothingEvicted(c: Config, events: seq<Record>, digest: Record -> Text, at: int)
    requires Good(c, events, digest) && Marker(c, events, digest, at).None?
    ensures Survivors(c, events, at) == events
  {
    EvictionCutsTail(c, events, at);
  }

  lemma MarkerPushes(c: Config, events: seq<Record>, digest: Record -> Text, at: int)
    requires Good(c, events, digest) && c.maxEvents >= 2
    requires Marker(c, events, digest, at).Some?
    requires events != [] ==> At(events[0]) <= at
    ensures var marker := Marker(c, events, digest, at).value;
      && Good(c, [marker] + Survivors(c, events, at), digest)
      && Usable(marker) && Seq(marker) == Highest(events) + 1 && At(marker) == at
  {
    EvictionCutsTail(c, events, at);
    var survivors := Survivors(c, events, at);
    var evicted := Evicted(c, events, at);
    PartKeepsGood(c, events, digest, |survivors|);
    HighestIsFirst(c, events, digest);
    StampPushes(c, survivors, digest, MarkerBody(|evicted|, MinSeq(evicted), MaxSeq(evicted)), at,
                Highest(events) + 1, ChainHead(events, digest));
  }

  lemma {:induction false} WithinBytesIsHead(events: seq<Record>, width: seq<Record> -> nat, maxBytes: nat)
    ensures var r := WithinBytes(events, width, maxBytes);
      |r| <= |events| && r == events[..|r|] && (events != [] ==> r != [])
      && (|r| <= 1 || width(r) <= maxBytes)
    decreases |events|
  {
    if |events| > 1 && width(events) > maxBytes {
      WithinBytesIsHead(events[..Max(1, Floor(|events|))], width, maxBytes);
    }
  }

  // ---- whole runs ----

  datatype Op = Append(body: Body, at: int) | Compact | Clear

  /** `marked` adds up what the markers written so far say was removed. */
  datatype Trail = Trail(events: seq<Record>, marked: int)

  /** The `removedCount` of a marker, as it is stored. */
  function CountIn(r: Record): int {
    if COUNT in r.rest && r.rest[COUNT].Num? then r.rest[COUNT].n else 0
  }

  function MarkedBy(marker: Option<Record>): int { if marker.Some? then CountIn(marker.value) else 0 }

  ghost function Apply(c: Config, digest: Record -> Text, width: seq<Record> -> nat, t: Trail, op: Op): Trail
    requires AllUsable(t.events)
  {
    match op
    case Append(body, at) =>
      Trail(WithinBytes(Appended(c, t.events, digest, body, at), width, c.maxBytes),
            t.marked + MarkedBy(Marker(c, t.events, digest, at)))
    case Compact => Trail(Compacted(c, t.events), t.marked)
    case Clear => Trail([], 0)
  }

  /** The trails a list of operations goes through, from the empty one. */
  ghost predicate Runs(c: Config, digest: Record -> Text, width: seq<Record> -> nat, ops: seq<Op>, trails: seq<Trail>) {
    && |trails| == |ops| + 1 && trails[0] == Trail([], 0)
    && forall i | 0 <= i < |ops| :: Steps(c, digest, width, ops, trails, i)
  }

  ghost predicate Steps(c: Config, digest: Record -> Text, width: seq<Record> -> nat, ops: seq<Op>, trails: seq<Trail>, i: nat)
    requires |trails| == |ops| + 1 && i < |ops|
  {
    AllUsable(trails[i].events) && trails[i + 1] == Apply(c, digest, width, trails[i], ops[i])
  }

  ghost predicate TimesAscend(ops: seq<Op>) {
    forall i, j | 0 <= i < j < |ops| :: ops[i].Append? && ops[j].Append? ==> ops[i].at <= ops[j].at
  }

  /** The newest record carries the time of some append made so far. */
  ghost predicate Dated(events: seq<Record>, ops: seq<Op>, n: nat)
    requires n <= |ops|
  {
    events != [] ==>
      Usable(events[0]) && exists i :: 0 <= i < n && ops[i].Append? && ops[i].at == At(events[0])
  }

  lemma TrimmedAppendIsGood(c: Config, events: seq<Record>, digest: Record -> Text, width: seq<Record> -> nat,
                            body: Body, at: int)
    requires Good(c, events, digest) && c.maxEvents >= 2 && (events != [] ==> At(events[0]) <= at)
    ensures AllUsable(events)
    ensures var r := WithinBytes(Appended(c, events, digest, body, at), width, c.maxBytes);
      Good(c, r, digest) && r != [] && r[0] == Appended(c, events, digest, body, at)[0]
  {
    AppendKeepsGood(c, events, digest, body, at);
    var all := Appended(c, events, digest, body, at);
    WithinBytesIsHead(all, width, c.maxBytes);
    PartKeepsGood(c, all, digest, |WithinBytes(all, width, c.maxBytes)|);
  }

  /** What an operation leaves on top: the record just written, or the same as before. */
  ghost predicate Tops(before: seq<Record>, after: seq<Record>, op: Op) {
    after != [] ==>
      && Usable(after[0])
      && if op.Append? then At(after[0]) == op.at else before != [] && after[0] == before[0]
  }

  lemma CompactIsGood(c: Config, events: seq<Record>, digest: Record -> Text)
    requires Good(c, events, digest)
    ensures Good(c, Compacted(c, events), digest) && Tops(events, Compacted(c, events), Compact)
  {
    PartKeepsGood(c, events, digest, Min(c.maxEvents / 2, |events|));
  }

  lemma AppendIsGood(c: Config, digest: Record -> Text, width: seq<Record> -> nat, events: seq<Record>, body: Body, at: int)
    requires Good(c, events, digest) && c.maxEvents >= 2 && (events != [] ==> At(events[0]) <= at)
    ensures AllUsable(events)
    ensures var r := WithinBytes(Appended(c, events, digest, body, at), width, c.maxBytes);
      Good(c, r, digest) && Tops(events, r, Append(body, at))
  {
    TrimmedAppendIsGood(c, events, digest, width, body, at);
    AppendKeepsGood(c, events, digest, body, at);
  }

  /** One operation keeps the trail good. */
  lemma StepKeepsGood(c: Config, digest: Record -> Text, width: seq<Record> -> nat, ops: seq<Op>, trails: seq<Trail>, n: nat)
    requires Runs(c, digest, width, ops, trails) && n < |ops| && c.maxEvents >= 2
    requires Good(c, trails[n].events, digest)
    requires ops[n].Append? && trails[n].events != [] ==> At(trails[n].events[0]) <= ops[n].at
    ensures Good(c, trails[n + 1].events, digest) && Tops(trails[n].events, trails[n + 1].events, ops[n])
  {
    assert Steps(c, digest, width, ops, trails, n);
    match ops[n] {
      case Append(body, at) => AppendIsGood(c, digest, width, trails[n].events, body, at);
      case Compact => CompactIsGood(c, trails[n].events, digest);
      case Clear =>
    }
  }

  lemma {:induction false} RunKeepsGood(c: Config, digest: Record -> Text, width: seq<Record> -> nat,
                                        ops: seq<Op>, trails: seq<Trail>, n: nat)
    requires Runs(c, digest, width, ops, trails) && TimesAscend(ops) && c.maxEvents >= 2 && n <= |ops|
    ensures Good(c, trails[n].events, digest) && Dated(trails[n].events, ops, n)
  {
    if n > 0 {
      RunKeepsGood(c, digest, width, ops, trails, n - 1);
      StepKeepsGood(c, digest, width, ops, trails, n - 1);
    }
  }

  /** Over any run with ascending times the checker never finds a fault, the trail never outgrows
      its bound, and no two of its records share an id. */
  lemma ProducerSatisfiesChecker(c: Config, digest: Record -> Text, width: seq<Record> -> nat,
                                 ops: seq<Op>, trails: seq<Trail>, n: nat)
    requires Runs(c, digest, width, ops, trails) && TimesAscend(ops) && c.maxEvents >= 2 && n <= |ops|
    ensures Judge(trails[n].events, digest) in {Empty, IsOk, Truncated}
    ensures |trails[n].events| <= c.maxEvents
    ensures AllUsable(trails[n].events)
    ensures forall i, j | 0 <= i < j < |trails[n].events| :: Id(trails[n].events[i]) != Id(trails[n].events[j])
  {
    RunKeepsGood(c, digest, width, ops, trails, n);
    var events := trails[n].events;
    if events != [] { JudgeExactly(events, digest); }
    forall i, j | 0 <= i < j < |events| ensures Id(events[i]) != Id(events[j]) {
      SeqAt(events, digest, i);
      SeqAt(events, digest, j);
      SeqAt(events, digest, |events| - 1);
      if Id(events[i]) == Id(events[j]) {
        IdsDiffer(At(events[i]), Seq(events[i]), At(events[j]), Seq(events[j]));
      }
    }
  }

  /** Operation `i` is an append whose trail fits its byte bound as it is. */
  ghost predicate FitsAsItIs(c: Config, digest: Record -> Text, width: seq<Record> -> nat, ops: seq<Op>, trails: seq<Trail>, i: nat)
    requires i < |ops| && i < |trails|
  {
    ops[i].Append? && AllUsable(trails[i].events)
    && width(Appended(c, trails[i].events, digest, ops[i].body, ops[i].at)) <= c.maxBytes
  }

  /** The marker an append writes counts what the append evicts; without one nothing is evicted. */
  lemma MarkedIsEvicted(c: Config, events: seq<Record>, digest: Record -> Text, at: int)
    requires Good(c, events, digest)
    ensures MarkedBy(Marker(c, events, digest, at)) == |Evicted(c, events, at)|
  {
    if Marker(c, events, digest, at).Some? { MarkerExact(c, events, digest, at); }
  }

  /** One append: what is held plus what its marker says left grows as the highest number does. */
  lemma AppendCounts(c: Config, digest: Record -> Text, width: seq<Record> -> nat, ops: seq<Op>, trails: seq<Trail>, n: nat)
    requires Runs(c, digest, width, ops, trails) && c.maxEvents >= 2 && n < |ops|
    requires FitsAsItIs(c, digest, width, ops, trails, n) && Good(c, trails[n].events, digest)
    requires trails[n].events != [] ==> At(trails[n].events[0]) <= ops[n].at
    ensures AllUsable(trails[n].events) && AllUsable(trails[n + 1].events)
    ensures |trails[n + 1].events| + trails[n + 1].marked - Highest(trails[n + 1].events)
         == |trails[n].events| + trails[n].marked - Highest(trails[n].events)
  {
    assert Steps(c, digest, width, ops, trails, n);
    MarkedIsEvicted(c, trails[n].events, digest, ops[n].at);
    AppendKeepsGood(c, trails[n].events, digest, ops[n].body, ops[n].at);
    HighestIsFirst(c, Appended(c, trails[n].events, digest, ops[n].body, ops[n].at), digest);
  }

  /** What is held and what the markers say was removed make up everything there ever was. */
  ghost predicate Accounted(t: Trail) {
    AllUsable(t.events) && |t.events| + t.marked == Highest(t.events)
  }

  lemma StepIsAccounted(c: Config, digest: Record -> Text, width: seq<Record> -> nat, ops: seq<Op>, trails: seq<Trail>, n: nat)
    requires Runs(c, digest, width, ops, trails) && TimesAscend(ops) && c.maxEvents >= 2 && n < |ops|
    requires FitsAsItIs(c, digest, width, ops, trails, n) && Accounted(trails[n])
    ensures Accounted(trails[n + 1])
  {
    RunKeepsGood(c, digest, width, ops, trails, n);
    AppendCounts(c, digest, width, ops, trails, n);
  }

  /** While the byte bound does not bind and nothing is compacted or cleared, the records held and
      the counts of all markers ever written add up to the highest number. */
  lemma {:induction false} RetentionAccounted(c: Config, digest: Record -> Text, width: seq<Record> -> nat,
                                              ops: seq<Op>, trails: seq<Trail>, n: nat)
    requires Runs(c, digest, width, ops, trails) && TimesAscend(ops) && c.maxEvents >= 2 && n <= |ops|
    requires forall i | 0 <= i < n :: FitsAsItIs(c, digest, width, ops, trails, i)
    ensures Accounted(trails[n])
  {
    if n == 0 {
    } else {
      RetentionAccounted(c, digest, width, ops, trails, n - 1);
      StepIsAccounted(c, digest, width, ops, trails, n - 1);
    }
  }
}
