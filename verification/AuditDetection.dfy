/** What the checker is bound to notice, and exactly what it cannot. */
module AuditDetection {
  import opened Store
  import opened Json
  import opened AuditRecord
  import opened AuditTrail
  import opened AuditSafety

  lemma SeqsDescend(events: seq<Record>, digest: Record -> Text, i: nat, j: nat)
    requires Sound(events, digest) && i < j < |events|
    ensures Seq(events[i]) == Seq(events[j]) + (j - i)
  {
    SeqAt(events, digest, i);
    SeqAt(events, digest, j);
  }

  /** A record missing from the middle. */
  lemma DeletionNoticed(events: seq<Record>, digest: Record -> Text, i: nat)
    requires Sound(events, digest) && 0 < i < |events| - 1
    ensures Judge(events[..i] + events[i + 1..], digest) !in {IsOk, Truncated}
  {
    var left := events[..i] + events[i + 1..];
    assert left[i - 1] == events[i - 1] && left[i] == events[i + 1];
    SeqsDescend(events, digest, i - 1, i + 1);
    JudgeExactly(left, digest);
    if Sound(left, digest) { SeqsDescend(left, digest, i - 1, i); }
  }

  /** A record stored twice, wherever the copy went. */
  lemma DuplicationNoticed(events: seq<Record>, digest: Record -> Text, i: nat, j: nat)
    requires Sound(events, digest) && i < |events| && j <= |events|
    ensures Judge(events[..j] + [events[i]] + events[j..], digest) !in {IsOk, Truncated}
  {
    var more := events[..j] + [events[i]] + events[j..];
    JudgeExactly(more, digest);
    if Sound(more, digest) {
      var k := if i < j then i else i + 1;
      assert more[k] == events[i] && more[j] == events[i];
      SeqsDescend(more, digest, if k < j then k else j, if k < j then j else k);
    }
  }

  /** Two records exchanged. */
  lemma SwapNoticed(events: seq<Record>, digest: Record -> Text, i: nat, j: nat)
    requires Sound(events, digest) && i < j < |events|
    ensures Judge(events[i := events[j]][j := events[i]], digest) !in {IsOk, Truncated}
  {
    var other := events[i := events[j]][j := events[i]];
    SeqsDescend(events, digest, i, j);
    JudgeExactly(other, digest);
    if Sound(other, digest) { SeqsDescend(other, digest, i, j); }
  }

  /** When one record is replaced, the trail still passes exactly if the new record is readable,
      is the same as far as its newer neighbour's digest can see, and chains to its older one. */
  lemma ReplacementExactly(events: seq<Record>, digest: Record -> Text, i: nat, r: Record)
    requires Sound(events, digest) && CollisionFree(digest) && i < |events|
    requires Tidy(r) && Tidy(events[i])
    ensures Sound(events[i := r], digest) <==>
      && Readable(r)
      && (i > 0 ==> Hashed(r) == Hashed(events[i]))
      && (i < |events| - 1 ==> Seq(r) == Seq(events[i]) && Prev(r) == Prev(events[i]))
  {
    var other := events[i := r];
    var n := |events|;
    if i > 0 { assert Follows(events[i - 1], events[i], digest); }
    if i < n - 1 { assert Follows(events[i], events[i + 1], digest); }
    if Sound(other, digest) {
      assert Readable(other[i]);
      if i > 0 { assert Follows(other[i - 1], other[i], digest); }
      if i < n - 1 { assert Follows(other[i], other[i + 1], digest); }
    }
    if Readable(r) && (i > 0 ==> Hashed(r) == Hashed(events[i]))
       && (i < n - 1 ==> Seq(r) == Seq(events[i]) && Prev(r) == Prev(events[i])) {
      forall k | 0 <= k < n - 1 ensures Follows(other[k], other[k + 1], digest) {
        assert Follows(events[k], events[k + 1], digest);
      }
    }
  }

  /** Changing any hashed field of a record that is not the newest is reported. */
  lemma ChangeNoticed(events: seq<Record>, digest: Record -> Text, i: nat, r: Record)
    requires Sound(events, digest) && CollisionFree(digest) && 0 < i < |events|
    requires Tidy(r) && Tidy(events[i]) && Hashed(r) != Hashed(events[i])
    ensures Judge(events[i := r], digest) !in {IsOk, Truncated}
  {
    ReplacementExactly(events, digest, i, r);
    JudgeExactly(events[i := r], digest);
  }

  /** The newest record has no newer neighbour, so what it says can be changed unnoticed. */
  lemma NewestIsUnprotected(events: seq<Record>, digest: Record -> Text, kind: Text, rest: map<Text, Value>)
    requires Sound(events, digest) && events != []
    ensures var r := events[0].(kind := Some(Str(kind)), rest := rest);
      Judge(events[0 := r], digest) == Judge(events, digest)
  {
    var r := events[0].(kind := Some(Str(kind)), rest := rest);
    var other := events[0 := r];
    forall k | 0 <= k < |events| - 1 ensures Follows(other[k], other[k + 1], digest) {
      assert Follows(events[k], events[k + 1], digest);
    }
    JudgeExactly(events, digest);
    JudgeExactly(other, digest);
  }

  // ---- why times must ascend ----

  lemma FreshIsSome(events: seq<Record>, cutoff: int, k: nat)
    requires AllUsable(events) && k < |Fresh(events, cutoff)|
    ensures FromTrail(events, cutoff, Fresh(events, cutoff)[k])
  {
    if At(events[0]) < cutoff || k > 0 {
      var k' := if At(events[0]) < cutoff then k else k - 1;
      FreshIsSome(events[1..], cutoff, k');
      var i :| 0 <= i < |events[1..]| && events[1..][i] == Fresh(events[1..], cutoff)[k'] && At(events[1..][i]) >= cutoff;
      assert events[i + 1] == Fresh(events, cutoff)[k];
    }
  }

  /** The record is an unexpired one of the trail. */
  ghost predicate FromTrail(events: seq<Record>, cutoff: int, r: Record)
    requires AllUsable(events)
  {
    exists i :: 0 <= i < |events| && events[i] == r && At(events[i]) >= cutoff
  }

  lemma SurvivorsFromTrail(c: Config, events: seq<Record>, at: int)
    requires AllUsable(events)
    ensures forall k | 0 <= k < |Survivors(c, events, at)| ::
              FromTrail(events, at - c.retentionMs, Survivors(c, events, at)[k])
  {
    forall k | 0 <= k < |Survivors(c, events, at)|
      ensures FromTrail(events, at - c.retentionMs, Survivors(c, events, at)[k])
    {
      FreshIsSome(events, at - c.retentionMs, k);
    }
  }

  /** Consecutive numbers on top of the trail leave a survivor no other place than its old one. */
  lemma NumbersForceHead(events: seq<Record>, survivors: seq<Record>, r: seq<Record>, digest: Record -> Text, cutoff: int)
    requires Sound(events, digest) && Sound(r, digest)
    requires |survivors| < |r| && r[|r| - |survivors|..] == survivors
    requires events != [] ==> Seq(r[0]) == Seq(events[0]) + |r| - |survivors|
    requires forall k | 0 <= k < |survivors| :: FromTrail(events, cutoff, survivors[k])
    ensures |survivors| <= |events| && survivors == events[..|survivors|]
    ensures forall i | 0 <= i < |survivors| :: At(events[i]) >= cutoff
  {
    var lead := |r| - |survivors|;
    forall k | 0 <= k < |survivors| ensures k < |events| && survivors[k] == events[k] && At(events[k]) >= cutoff {
      assert r[lead + k] == survivors[k];
      SeqAt(r, digest, lead + k);
      var i :| 0 <= i < |events| && events[i] == survivors[k] && At(events[i]) >= cutoff;
      SeqAt(events, digest, i);
    }
    if survivors != [] {
      var k := |survivors| - 1;
      assert survivors[k] == survivors[k] && k < |events|;
    }
  }

  lemma AssembledIsSound(survivors: seq<Record>, marker: Option<Record>, highest: int, head: Text,
                         digest: Record -> Text, body: Body, at: int)
    requires Sound(survivors, digest)
    requires survivors != [] ==> highest == Seq(survivors[0]) && head == digest(survivors[0])
    requires marker.Some? ==> Readable(marker.value) && Seq(marker.value) == highest + 1 && Prev(marker.value) == head
    ensures Sound(Assembled(survivors, marker, highest, head, digest, body, at), digest)
  {
    match marker {
      case Some(x) =>
      case None =>
    }
  }

  lemma HighestOfSound(events: seq<Record>, digest: Record -> Text)
    requires Sound(events, digest) && (events != [] ==> Seq(events[|events| - 1]) >= 1)
    ensures Highest(events) == if events == [] then 0 else Seq(events[0])
  {
    if events != [] { SeqRange(events, digest); }
  }

  /** The first `|Survivors|` records are all unexpired. */
  ghost predicate KeepsTheNewest(c: Config, events: seq<Record>, at: int)
    requires AllUsable(events)
  {
    var m := |Survivors(c, events, at)|;
    m <= |events| && forall i | 0 <= i < m :: At(events[i]) >= at - c.retentionMs
  }

  lemma NewestAreHead(c: Config, events: seq<Record>, at: int)
    requires AllUsable(events) && KeepsTheNewest(c, events, at)
    ensures Survivors(c, events, at) == events[..|Survivors(c, events, at)|]
  {
    FreshHead(events, at - c.retentionMs, |Survivors(c, events, at)|);
  }

  lemma KeepingNewestIsSound(c: Config, events: seq<Record>, digest: Record -> Text, body: Body, at: int)
    requires Sound(events, digest) && (events != [] ==> Seq(events[|events| - 1]) >= 1)
    requires KeepsTheNewest(c, events, at)
    ensures Sound(Appended(c, events, digest, body, at), digest)
  {
    var survivors, marker := Survivors(c, events, at), Marker(c, events, digest, at);
    HighestOfSound(events, digest);
    NewestAreHead(c, events, at);
    SoundPart(events, digest, 0, |survivors|);
    assert events[0..|survivors|] == survivors;
    AssembledIsSound(survivors, marker, Highest(events), ChainHead(events, digest), digest, body, at);
  }

  lemma SoundKeepsTheNewest(c: Config, events: seq<Record>, digest: Record -> Text, body: Body, at: int)
    requires Sound(events, digest) && (events != [] ==> Seq(events[|events| - 1]) >= 1)
    requires Sound(Appended(c, events, digest, body, at), digest)
    ensures KeepsTheNewest(c, events, at)
  {
    HighestOfSound(events, digest);
    SurvivorsFromTrail(c, events, at);
    NumbersForceHead(events, Survivors(c, events, at), Appended(c, events, digest, body, at), digest, at - c.retentionMs);
  }

  /** An append keeps a sound trail sound exactly when the records it keeps are the newest ones:
      no expired record stands among the first `|Survivors|`. */
  lemma AppendSoundExactly(c: Config, events: seq<Record>, digest: Record -> Text, body: Body, at: int)
    requires Sound(events, digest) && (events != [] ==> Seq(events[|events| - 1]) >= 1)
    ensures Sound(Appended(c, events, digest, body, at), digest) <==> KeepsTheNewest(c, events, at)
  {
    if KeepsTheNewest(c, events, at) { KeepingNewestIsSound(c, events, digest, body, at); }
    if Sound(Appended(c, events, digest, body, at), digest) { SoundKeepsTheNewest(c, events, digest, body, at); }
  }

  /** Two records, the older one dated after the newer. The newer expires first, from the middle
      of the trail, and the checker reports a gap no one made. */
  lemma ExpiryOutOfOrderLooksLikeAGap(digest: Record -> Text, body: Body)
    ensures
      var events := [Stamp(body, 10, 2, digest(Stamp(body, 50, 1, GENESIS))), Stamp(body, 50, 1, GENESIS)];
      && Judge(events, digest) == IsOk
      && Judge(Appended(Config(100, 0, 20), events, digest, body, 60), digest) == Gap
  {
    var first := Stamp(body, 50, 1, GENESIS);
    var second := Stamp(body, 10, 2, digest(first));
    var c := Config(100, 0, 20);
    assert Sound([second, first], digest);
    JudgeExactly([second, first], digest);
    OlderOutlivesNewer(c, second, first);
    var marker := Marker(c, [second, first], digest, 60);
    HighestOfSound([second, first], digest);
    assert marker.Some?;
    JumpIsAGap(Stamp(body, 60, 4, digest(marker.value)), marker.value, first, digest);
    assert Appended(c, [second, first], digest, body, 60)
        == [Stamp(body, 60, 4, digest(marker.value)), marker.value, first];
  }

  lemma OlderOutlivesNewer(c: Config, second: Record, first: Record)
    requires c == Config(100, 0, 20) && Usable(first) && Usable(second) && At(first) == 50 && At(second) == 10
    ensures Survivors(c, [second, first], 60) == [first] && Evicted(c, [second, first], 60) == [second]
  {
    var events := [second, first];
    assert events[1..] == [first] && [first][1..] == [];
    assert Fresh([first], 40) == [first] && Expired([first], 40) == [];
    assert Fresh(events, 40) == [first] && Expired(events, 40) == [second];
  }

  lemma JumpIsAGap(r: Record, marker: Record, first: Record, digest: Record -> Text)
    requires Readable(first) && Readable(marker) && Seq(marker) > Seq(first) + 1
    ensures Judge([r, marker, first], digest) == Gap
  {
    var ordered := Reverse([r, marker, first]);
    assert ordered[0] == first && ordered[1] == marker;
    assert Fault(ordered, digest, 0).None? && Fault(ordered, digest, 1) == Some(Gap);
    assert FirstFault(ordered, digest, 1) == Some(Gap);
    assert FirstFault(ordered, digest, 0) == FirstFault(ordered, digest, 1);
  }
}
