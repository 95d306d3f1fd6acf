/** What an append keeps and writes, what the byte bound takes away, and what each verdict means. */
module AuditRetention {
  import opened Store
  import opened Json
  import opened AuditRecord
  import opened AuditTrail

  // ---- which records an append keeps ----

  predicate Unexpired(r: Record, cutoff: int)
    requires Usable(r)
  {
    At(r) >= cutoff
  }

  function HowManyUnexpired(events: seq<Record>, cutoff: int): nat
    requires AllUsable(events)
  {
    if events == [] then 0
    else HowManyUnexpired(events[..|events| - 1], cutoff) + if Unexpired(events[|events| - 1], cutoff) then 1 else 0
  }

  /** `places` are the first of the unexpired records, in order: the trail is stored newest first. */
  ghost predicate Newest(events: seq<Record>, cutoff: int, places: seq<int>)
    requires AllUsable(events)
  {
    && (forall k | 0 <= k < |places| :: 0 <= places[k] < |events| && Unexpired(events[places[k]], cutoff))
    && (forall j, k | 0 <= j < k < |places| :: places[j] < places[k])
    && (forall i, k | 0 <= i < |events| && Unexpired(events[i], cutoff) && 0 <= k < |places| && i < places[k] :: i in places)
  }

  /** How many may stay: all of them where there is room for two more, otherwise nine tenths of the bound,
      and never so many that no two places are left. */
  function Allowance(maxEvents: nat, unexpired: nat): int {
    if unexpired + 2 <= maxEvents then unexpired else Min(9 * maxEvents / 10, Max(0, maxEvents - 2))
  }

  lemma {:induction false} CountedFromFront(events: seq<Record>, cutoff: int)
    requires AllUsable(events) && events != []
    ensures HowManyUnexpired(events, cutoff)
         == HowManyUnexpired(events[1..], cutoff) + if Unexpired(events[0], cutoff) then 1 else 0
  {
    if |events| > 1 {
      CountedFromFront(events[..|events| - 1], cutoff);
      assert events[1..][..|events| - 2] == events[..|events| - 1][1..];
    }
  }

  /** The places in the whole trail of what stands in its rest. */
  function Shifted(rest: seq<int>): (r: seq<int>)
    ensures |r| == |rest| && forall k | 0 <= k < |rest| :: r[k] == rest[k] + 1
  {
    seq(|rest|, k requires 0 <= k < |rest| => rest[k] + 1)
  }

  /** All unexpired records but the first that come before a chosen one are chosen. */
  ghost predicate NoneMissed(events: seq<Record>, cutoff: int, places: seq<int>, from: int)
    requires AllUsable(events)
  {
    forall i, k | from <= i < |events| && 0 <= i && Unexpired(events[i], cutoff) && 0 <= k < |places| && i < places[k] ::
      i in places
  }

  lemma ShiftedMissesNone(events: seq<Record>, cutoff: int, rest: seq<int>)
    requires AllUsable(events) && events != [] && Newest(events[1..], cutoff, rest)
    ensures NoneMissed(events, cutoff, Shifted(rest), 1)
  {
    var places := Shifted(rest);
    forall i, k | 1 <= i < |events| && 0 <= i && Unexpired(events[i], cutoff) && 0 <= k < |places| && i < places[k]
      ensures i in places
    {
      assert events[1..][i - 1] == events[i] && i - 1 < rest[k];
      var m :| 0 <= m < |rest| && rest[m] == i - 1;
      assert places[m] == i;
    }
  }

  lemma ShiftedReads(events: seq<Record>, cutoff: int, rest: seq<int>)
    requires AllUsable(events) && events != [] && Newest(events[1..], cutoff, rest)
    ensures var places := Shifted(rest);
      && (forall k | 0 <= k < |places| :: 1 <= places[k] < |events| && events[places[k]] == events[1..][rest[k]]
                                          && Unexpired(events[places[k]], cutoff))
      && (forall j, k | 0 <= j < k < |places| :: places[j] < places[k])
  {
  }

  lemma WithFirst(events: seq<Record>, cutoff: int, later: seq<int>)
    requires AllUsable(events) && events != [] && Unexpired(events[0], cutoff) && NoneMissed(events, cutoff, later, 1)
    requires forall k | 0 <= k < |later| :: 1 <= later[k] < |events| && Unexpired(events[later[k]], cutoff)
    requires forall j, k | 0 <= j < k < |later| :: later[j] < later[k]
    ensures Newest(events, cutoff, [0] + later)
  {
    var places := [0] + later;
    forall i, k | 0 <= i < |events| && Unexpired(events[i], cutoff) && 0 <= k < |places| && i < places[k]
      ensures i in places
    {
      if i > 0 { assert later[k - 1] == places[k] && i in later; }
    }
  }

  lemma WithoutFirst(events: seq<Record>, cutoff: int, later: seq<int>)
    requires AllUsable(events) && events != [] && !Unexpired(events[0], cutoff) && NoneMissed(events, cutoff, later, 1)
    requires forall k | 0 <= k < |later| :: 1 <= later[k] < |events| && Unexpired(events[later[k]], cutoff)
    requires forall j, k | 0 <= j < k < |later| :: later[j] < later[k]
    ensures Newest(events, cutoff, later)
  {
    forall i, k | 0 <= i < |events| && Unexpired(events[i], cutoff) && 0 <= k < |later| && i < later[k]
      ensures i in later
    {
      assert i > 0;
    }
  }

  ghost predicate Picks(events: seq<Record>, places: seq<int>, chosen: seq<Record>) {
    |chosen| == |places| && forall k | 0 <= k < |places| :: 0 <= places[k] < |events| && chosen[k] == events[places[k]]
  }

  lemma ShiftedPicks(events: seq<Record>, rest: seq<int>, chosen: seq<Record>)
    requires events != [] && Picks(events[1..], rest, chosen)
    ensures Picks(events, Shifted(rest), chosen) && Picks(events, [0] + Shifted(rest), [events[0]] + chosen)
  {
  }

  lemma Onwards(events: seq<Record>, cutoff: int, rest: seq<int>) returns (places: seq<int>)
    requires AllUsable(events) && events != [] && Newest(events[1..], cutoff, rest)
    requires Picks(events[1..], rest, Fresh(events[1..], cutoff))
    ensures Newest(events, cutoff, places) && Picks(events, places, Fresh(events, cutoff))
    ensures |places| == |rest| + if Unexpired(events[0], cutoff) then 1 else 0
  {
    ShiftedMissesNone(events, cutoff, rest);
    ShiftedReads(events, cutoff, rest);
    ShiftedPicks(events, rest, Fresh(events[1..], cutoff));
    if Unexpired(events[0], cutoff) {
      places := [0] + Shifted(rest);
      WithFirst(events, cutoff, Shifted(rest));
    } else {
      places := Shifted(rest);
      WithoutFirst(events, cutoff, Shifted(rest));
    }
  }

  /** The places of the filtered records. */
  lemma {:induction false} FreshPlaces(events: seq<Record>, cutoff: int) returns (places: seq<int>)
    requires AllUsable(events)
    ensures Newest(events, cutoff, places) && |places| == HowManyUnexpired(events, cutoff)
    ensures Picks(events, places, Fresh(events, cutoff))
  {
    if events == [] {
      places := [];
    } else {
      var rest := FreshPlaces(events[1..], cutoff);
      CountedFromFront(events, cutoff);
      places := Onwards(events, cutoff, rest);
    }
  }

  lemma NewestHead(events: seq<Record>, cutoff: int, places: seq<int>, n: nat)
    requires AllUsable(events) && Newest(events, cutoff, places) && n <= |places|
    ensures Newest(events, cutoff, places[..n])
  {
    var head := places[..n];
    forall i, k | 0 <= i < |events| && Unexpired(events[i], cutoff) && 0 <= k < |head| && i < head[k] ensures i in head {
      var m :| 0 <= m < |places| && places[m] == i;
      assert m < k;
      assert head[m] == i;
    }
  }

  // ---- what an append leaves ----

  /** The record that is written: the caller's type and fields, stamped with the log's own. */
  predicate Written(r: Record, body: Body, at: int, seqNo: int, prev: Text) {
    && r.kind == Some(Str(body.kind)) && r.rest == body.rest
    && r.at == Some(Num(at)) && r.seqNo == Some(Num(seqNo)) && r.prev == Some(Str(prev)) && r.version == Some(Num(1))
    && r.id == Some(Str(MintId(at, seqNo)))
  }

  /** The highest number there is. */
  ghost predicate IsHighest(events: seq<Record>, n: int)
    requires AllUsable(events)
  {
    && n >= 0 && (forall i | 0 <= i < |events| :: Seq(events[i]) <= n)
    && (n > 0 ==> exists i | 0 <= i < |events| :: Seq(events[i]) == n)
  }

  lemma {:induction false} MaxSeqIsMost(events: seq<Record>)
    requires AllUsable(events) && events != []
    ensures forall i | 0 <= i < |events| :: Seq(events[i]) <= MaxSeq(events)
    ensures exists i | 0 <= i < |events| :: Seq(events[i]) == MaxSeq(events)
  {
    if |events| == 1 {
      assert Seq(events[0]) == MaxSeq(events);
    } else {
      MaxSeqIsMost(events[1..]);
      var i :| 0 <= i < |events[1..]| && Seq(events[1..][i]) == MaxSeq(events[1..]);
      assert events[1..][i] == events[i + 1];
      forall k | 0 < k < |events| ensures Seq(events[k]) <= MaxSeq(events[1..]) { assert events[1..][k - 1] == events[k]; }
      assert Seq(events[0]) == MaxSeq(events) || Seq(events[i + 1]) == MaxSeq(events);
    }
  }

  lemma HighestIs(events: seq<Record>)
    requires AllUsable(events)
    ensures IsHighest(events, Highest(events))
  {
    if events != [] { MaxSeqIsMost(events); }
  }

  lemma SurvivorsAre(c: Config, events: seq<Record>, at: int) returns (places: seq<int>)
    requires AllUsable(events)
    ensures var cutoff := at - c.retentionMs;
      && Newest(events, cutoff, places) && |places| == Allowance(c.maxEvents, HowManyUnexpired(events, cutoff))
      && Picks(events, places, Survivors(c, events, at))
  {
    var cutoff := at - c.retentionMs;
    var all := FreshPlaces(events, cutoff);
    places := all[..Allowance(c.maxEvents, |all|)];
    NewestHead(events, cutoff, all, |places|);
  }

  lemma {:induction false} PartsMakeAll(events: seq<Record>, cutoff: int)
    requires AllUsable(events)
    ensures |Fresh(events, cutoff)| + |Expired(events, cutoff)| == |events|
  {
    if events != [] { PartsMakeAll(events[1..], cutoff); }
  }

  /** One marker in front of the survivors if something was evicted, and the caller's record in front of all. */
  ghost predicate Layout(r: seq<Record>, survivors: seq<Record>, marked: bool, digest: Record -> Text, body: Body,
                         at: int, highest: int, head: Text)
  {
    if marked then
      && |r| == |survivors| + 2 && r[2..] == survivors && Written(r[0], body, at, highest + 2, digest(r[1]))
      && r[1].kind == Some(Str(U("retention.compacted"))) && r[1].at == Some(Num(at))
      && r[1].seqNo == Some(Num(highest + 1)) && r[1].prev == Some(Str(head))
    else
      |r| == |survivors| + 1 && r[1..] == survivors && Written(r[0], body, at, highest + 1, head)
  }

  lemma AppendLaysOut(c: Config, events: seq<Record>, digest: Record -> Text, body: Body, at: int)
    requires AllUsable(events)
    ensures Layout(Appended(c, events, digest, body, at), Survivors(c, events, at), Evicted(c, events, at) != [], digest,
                   body, at, Highest(events), if events == [] then GENESIS else digest(events[0]))
  {
  }

  /** An append keeps the newest of the unexpired records, as many as are allowed and no fewer, evicts the
      others, and puts in front a marker, if there were any, and the caller's record. */
  lemma AppendKeepsExactly(c: Config, events: seq<Record>, digest: Record -> Text, body: Body, at: int)
    returns (places: seq<int>, highest: int, survivors: seq<Record>)
    requires AllUsable(events)
    ensures IsHighest(events, highest)
    ensures Newest(events, at - c.retentionMs, places)
    ensures |places| == Allowance(c.maxEvents, HowManyUnexpired(events, at - c.retentionMs))
    ensures Picks(events, places, survivors) && |places| <= |events|
    ensures Layout(Appended(c, events, digest, body, at), survivors, |places| < |events|, digest, body, at, highest,
                   if events == [] then GENESIS else digest(events[0]))
  {
    highest := Highest(events);
    HighestIs(events);
    places := SurvivorsAre(c, events, at);
    survivors := Survivors(c, events, at);
    EvictedAreTheOthers(c, events, at);
    AppendLaysOut(c, events, digest, body, at);
  }

  lemma EvictedAreTheOthers(c: Config, events: seq<Record>, at: int)
    requires AllUsable(events)
    ensures |Survivors(c, events, at)| + |Evicted(c, events, at)| == |events|
  {
    PartsMakeAll(events, at - c.retentionMs);
  }

  /** With nothing expired and room for two, an append only puts its record in front. */
  lemma NothingIsEvicted(c: Config, events: seq<Record>, digest: Record -> Text, body: Body, at: int)
    requires AllUsable(events) && |events| + 2 <= c.maxEvents
    requires forall i | 0 <= i < |events| :: At(events[i]) >= at - c.retentionMs
    ensures var r := Appended(c, events, digest, body, at);
      && |r| == |events| + 1 && r[1..] == events
      && r[0].kind == Some(Str(body.kind)) && r[0].rest == body.rest
  {
    var survivors, highest := Undisturbed(c, events, digest, body, at);
    PlainLayout(Appended(c, events, digest, body, at), survivors, digest, body, at, highest,
                if events == [] then GENESIS else digest(events[0]));
  }

  lemma PlainLayout(r: seq<Record>, survivors: seq<Record>, digest: Record -> Text, body: Body, at: int, highest: int, head: Text)
    requires Layout(r, survivors, false, digest, body, at, highest, head)
    ensures |r| == |survivors| + 1 && r[1..] == survivors && r[0].kind == Some(Str(body.kind)) && r[0].rest == body.rest
  {
  }

  lemma Undisturbed(c: Config, events: seq<Record>, digest: Record -> Text, body: Body, at: int)
    returns (survivors: seq<Record>, highest: int)
    requires AllUsable(events) && |events| + 2 <= c.maxEvents
    requires forall i | 0 <= i < |events| :: At(events[i]) >= at - c.retentionMs
    ensures survivors == events
    ensures Layout(Appended(c, events, digest, body, at), survivors, false, digest, body, at, highest,
                   if events == [] then GENESIS else digest(events[0]))
  {
    var places, n, kept := AppendKeepsExactly(c, events, digest, body, at);
    survivors, highest := kept, n;
    Everything(events, at - c.retentionMs);
    InOrder(events, at - c.retentionMs, places);
    AllPicked(events, places, survivors);
  }

  lemma AllPicked(events: seq<Record>, places: seq<int>, survivors: seq<Record>)
    requires Picks(events, places, survivors) && |places| == |events| && forall k | 0 <= k < |places| :: places[k] == k
    ensures survivors == events
  {
  }

  lemma Everything(events: seq<Record>, cutoff: int)
    requires AllUsable(events) && forall i | 0 <= i < |events| :: At(events[i]) >= cutoff
    ensures HowManyUnexpired(events, cutoff) == |events|
  {
    var places := FreshPlaces(events, cutoff);
    PartsMakeAll(events, cutoff);
    NoneExpired(events, cutoff);
  }

  lemma {:induction false} NoneExpired(events: seq<Record>, cutoff: int)
    requires AllUsable(events) && forall i | 0 <= i < |events| :: At(events[i]) >= cutoff
    ensures Expired(events, cutoff) == []
  {
    if events != [] { NoneExpired(events[1..], cutoff); }
  }

  /** As many increasing places as there are records are all of them. */
  lemma {:induction false} InOrder(events: seq<Record>, cutoff: int, places: seq<int>)
    requires AllUsable(events) && Newest(events, cutoff, places) && |places| == |events|
    ensures forall k | 0 <= k < |places| :: places[k] == k
  {
    forall k | 0 <= k < |places| ensures places[k] == k {
      AtLeast(places, k);
      AtMost(places, |events|, k);
    }
  }

  lemma {:induction false} AtLeast(places: seq<int>, k: nat)
    requires k < |places| && (forall j | 0 <= j < |places| :: 0 <= places[j])
    requires forall i, j | 0 <= i < j < |places| :: places[i] < places[j]
    ensures places[k] >= k
  {
    if k > 0 { AtLeast(places, k - 1); }
  }

  lemma {:induction false} AtMost(places: seq<int>, n: nat, k: nat)
    requires |places| == n && k < n && (forall j | 0 <= j < n :: places[j] < n)
    requires forall i, j | 0 <= i < j < |places| :: places[i] < places[j]
    ensures places[k] <= k
    decreases n - k
  {
    if k < n - 1 { AtMost(places, n, k + 1); }
  }

  // ---- what the byte bound takes ----

  /** The trail is cut only while it does not fit, and each time to nine tenths: it is as it was if it
      fits, and otherwise what was there before the last cut did not fit. */
  lemma {:induction false} CutOnlyToFit(events: seq<Record>, width: seq<Record> -> nat, maxBytes: nat)
    ensures var r := WithinBytes(events, width, maxBytes);
      && |r| <= |events| && r == events[..|r|]
      && (|events| <= 1 || width(events) <= maxBytes ==> r == events)
      && (|r| < |events| ==>
            exists n | |r| < n <= |events| :: |r| == Max(1, n * 9 / 10) && width(events[..n]) > maxBytes)
    decreases |events|
  {
    if |events| > 1 && width(events) > maxBytes {
      var next := events[..Max(1, |events| * 9 / 10)];
      CutOnlyToFit(next, width, maxBytes);
      var r := WithinBytes(events, width, maxBytes);
      assert events[..|events|] == events;
      if |r| < |next| {
        var n :| |r| < n <= |next| && |r| == Max(1, n * 9 / 10) && width(next[..n]) > maxBytes;
        assert next[..n] == events[..n];
      }
    }
  }

  /** A compaction keeps the newest half of the bound, and everything if that is enough. */
  lemma CompactionKeeps(c: Config, events: seq<Record>)
    ensures var r := Compacted(c, events);
      && (2 * |events| <= c.maxEvents ==> r == events)
      && (|r| < |events| ==> r == events[..|r|] && 2 * |r| <= c.maxEvents < 2 * (|r| + 1))
  {
  }

  // ---- what each verdict means ----

  /** Record `i` is readable and continues its older neighbour. */
  ghost predicate Clean(events: seq<Record>, digest: Record -> Text, i: nat)
    requires i < |events|
  {
    && Readable(events[i])
    && (i + 1 < |events| ==> Usable(events[i + 1]) && Follows(events[i], events[i + 1], digest))
  }

  lemma {:induction false} FirstFaultIs(ordered: seq<Record>, digest: Record -> Text, i: nat, j: nat)
    requires i <= j < |ordered| && (forall k | 0 <= k < j :: Usable(ordered[k]))
    requires forall k | i <= k < j :: Fault(ordered, digest, k).None?
    requires Fault(ordered, digest, j).Some?
    ensures FirstFault(ordered, digest, i) == Fault(ordered, digest, j)
    decreases j - i
  {
    if i < j { FirstFaultIs(ordered, digest, i + 1, j); }
  }

  /** Until the oldest record out of order the checker has no objection. */
  lemma CleanBefore(events: seq<Record>, digest: Record -> Text, i: nat)
    requires i < |events| && forall j | i < j < |events| :: Clean(events, digest, j)
    ensures forall k | 0 <= k < |events| - 1 - i :: Usable(Reverse(events)[k])
    ensures forall k | 0 <= k < |events| - 1 - i :: Fault(Reverse(events), digest, k).None?
  {
    var ordered, n := Reverse(events), |events|;
    forall k | 0 <= k < n - 1 - i ensures Usable(ordered[k]) { assert Clean(events, digest, n - 1 - k); }
    forall k | 0 <= k < n - 1 - i ensures Fault(ordered, digest, k).None? {
      assert Clean(events, digest, n - 1 - k);
      if k > 0 { assert ordered[k - 1] == events[n - k]; }
    }
  }

  lemma FaultAt(events: seq<Record>, digest: Record -> Text, i: nat)
    requires i < |events| && !Clean(events, digest, i) && forall j | i < j < |events| :: Clean(events, digest, j)
    ensures i + 1 < |events| ==> Usable(events[i + 1]) && Reverse(events)[|events| - 2 - i] == events[i + 1]
    ensures Reverse(events)[|events| - 1 - i] == events[i]
    ensures Fault(Reverse(events), digest, |events| - 1 - i).Some?
  {
    if i + 1 < |events| { assert Clean(events, digest, i + 1); }
  }

  /** The oldest record that is not in order decides the verdict, and how it is out of order says which. */
  lemma OldestFaultDecides(events: seq<Record>, digest: Record -> Text, i: nat)
    requires i < |events| && !Clean(events, digest, i) && forall j | i < j < |events| :: Clean(events, digest, j)
    ensures var v := Judge(events, digest);
      && (v == Corrupt <==> !Usable(events[i]))
      && (v == FutureVersion <==> Usable(events[i]) && Version(events[i]) > 1)
      && (Readable(events[i]) ==>
            i + 1 < |events| && Usable(events[i + 1])
            && var (here, before) := (Seq(events[i]), Seq(events[i + 1]));
               && (v == Reordered <==> here <= before)
               && (v == Gap <==> here > before + 1)
               && (v == ChainBroken <==> here == before + 1 && Prev(events[i]) != digest(events[i + 1])))
  {
    CleanBefore(events, digest, i);
    FaultAt(events, digest, i);
    FirstFaultIs(Reverse(events), digest, 0, |events| - 1 - i);
  }
}
