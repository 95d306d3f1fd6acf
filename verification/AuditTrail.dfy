/** What the trail looks like, what the checker says about it, and what every append keeps. */
module AuditTrail {
  import opened Store
  import opened Json
  import opened AuditRecord

  const CURRENT_VERSION := 1

  datatype Verdict = IsOk | Empty | Gap | Reordered | ChainBroken | Truncated | FutureVersion | Corrupt

  predicate Usable(r: Record) {
    && r.id.Some? && r.id.value.Str? && r.at.Some? && r.at.value.Num?
    && r.seqNo.Some? && r.seqNo.value.Num? && r.prev.Some? && r.prev.value.Str?
    && r.version.Some? && r.version.value.Num? && r.kind.Some? && r.kind.value.Str?
  }

  function Seq(r: Record): int requires Usable(r) { r.seqNo.value.n }
  function At(r: Record): int requires Usable(r) { r.at.value.n }
  function Prev(r: Record): Text requires Usable(r) { r.prev.value.text }
  function Version(r: Record): int requires Usable(r) { r.version.value.n }
  function Id(r: Record): Text requires Usable(r) { r.id.value.text }

  // ---- the checker ----

  /** What the checker objects to on reaching record `i` of the trail, oldest first. */
  function Fault(ordered: seq<Record>, digest: Record -> Text, i: nat): Option<Verdict>
    requires i < |ordered|
    requires i > 0 ==> Usable(ordered[i - 1])
  {
    var r := ordered[i];
    if !Usable(r) then Some(Corrupt)
    else if Version(r) > CURRENT_VERSION then Some(FutureVersion)
    else if i == 0 then None
    else
      var p := ordered[i - 1];
      if Seq(r) <= Seq(p) then Some(Reordered)
      else if Seq(r) != Seq(p) + 1 then Some(Gap)
      else if Prev(r) != digest(p) then Some(ChainBroken)
      else None
  }

  /** The first objection, looking from record `i` on; the records before are unobjectionable. */
  function FirstFault(ordered: seq<Record>, digest: Record -> Text, i: nat): (r: Option<Verdict>)
    requires i <= |ordered|
    requires i > 0 ==> Usable(ordered[i - 1])
    ensures r.Some? ==> r.value !in {IsOk, Empty, Truncated}
    decreases |ordered| - i
  {
    if i == |ordered| then None
    else if Fault(ordered, digest, i).Some? then Fault(ordered, digest, i)
    else FirstFault(ordered, digest, i + 1)
  }

  function Reverse<T>(xs: seq<T>): (r: seq<T>)
    ensures |r| == |xs| && forall i | 0 <= i < |xs| :: r[i] == xs[|xs| - 1 - i]
  {
    if xs == [] then [] else Reverse(xs[1..]) + [xs[0]]
  }

  /** `verifyIntegrity` on a trail stored newest first. */
  function Judge(events: seq<Record>, digest: Record -> Text): Verdict {
    if events == [] then Empty
    else
      match FirstFault(Reverse(events), digest, 0)
      case Some(v) => v
      case None =>
        FirstFaultNone(Reverse(events), digest, 0);
        if Seq(events[|events| - 1]) > 1 then Truncated else IsOk
  }

  lemma {:induction false} FirstFaultNone(ordered: seq<Record>, digest: Record -> Text, i: nat)
    requires i <= |ordered| && (i > 0 ==> Usable(ordered[i - 1]))
    requires FirstFault(ordered, digest, i).None?
    ensures forall j | i <= j < |ordered| :: Usable(ordered[j])
    ensures forall j | i <= j < |ordered| :: Fault(ordered, digest, j).None?
    decreases |ordered| - i
  {
    if i < |ordered| { FirstFaultNone(ordered, digest, i + 1); }
  }

  lemma {:induction false} NoFaultFirst(ordered: seq<Record>, digest: Record -> Text, i: nat)
    requires i <= |ordered| && (forall j | 0 <= j < |ordered| :: Usable(ordered[j]))
    requires forall j | i <= j < |ordered| :: Fault(ordered, digest, j).None?
    ensures FirstFault(ordered, digest, i).None?
    decreases |ordered| - i
  {
    if i < |ordered| { NoFaultFirst(ordered, digest, i + 1); }
  }

  ghost predicate Readable(r: Record) { Usable(r) && Version(r) <= CURRENT_VERSION }

  ghost predicate Follows(newer: Record, older: Record, digest: Record -> Text)
    requires Usable(newer) && Usable(older)
  {
    Seq(newer) == Seq(older) + 1 && Prev(newer) == digest(older)
  }

  /** Every record readable, the numbers consecutive, every record chained to the one before it. */
  ghost predicate Sound(events: seq<Record>, digest: Record -> Text) {
    && (forall i | 0 <= i < |events| :: Readable(events[i]))
    && (forall i | 0 <= i < |events| - 1 :: Follows(events[i], events[i + 1], digest))
  }

  lemma SoundHasNoFault(events: seq<Record>, digest: Record -> Text)
    requires Sound(events, digest)
    ensures FirstFault(Reverse(events), digest, 0).None?
  {
    var ordered, n := Reverse(events), |events|;
    assert forall j | 0 <= j < n :: Usable(ordered[j]);
    forall j | 0 <= j < n ensures Fault(ordered, digest, j).None? {
      if j > 0 { assert Follows(events[n - 1 - j], events[n - j], digest); }
    }
    NoFaultFirst(ordered, digest, 0);
  }

  lemma FaultlessIsSound(events: seq<Record>, digest: Record -> Text)
    requires FirstFault(Reverse(events), digest, 0).None?
    ensures Sound(events, digest)
  {
    var ordered, n := Reverse(events), |events|;
    FirstFaultNone(ordered, digest, 0);
    forall i | 0 <= i < n ensures Readable(events[i]) {
      assert ordered[n - 1 - i] == events[i] && Fault(ordered, digest, n - 1 - i).None?;
    }
    forall i | 0 <= i < n - 1 ensures Follows(events[i], events[i + 1], digest) {
      assert ordered[n - 1 - i] == events[i] && ordered[n - 2 - i] == events[i + 1];
      assert Fault(ordered, digest, n - 1 - i).None?;
    }
  }

  /** The checker accepts exactly the sound trails. */
  lemma JudgeExactly(events: seq<Record>, digest: Record -> Text)
    requires events != []
    ensures Judge(events, digest) in {IsOk, Truncated} <==> Sound(events, digest)
    ensures Sound(events, digest) ==>
              Judge(events, digest) == if Seq(events[|events| - 1]) > 1 then Truncated else IsOk
  {
    if Sound(events, digest) { SoundHasNoFault(events, digest); }
    if FirstFault(Reverse(events), digest, 0).None? { FaultlessIsSound(events, digest); }
  }

  // ---- the producer ----

  datatype Config = Config(maxEvents: nat, maxBytes: nat, retentionMs: int)

  /** `aud_<at>_<seq>` in base 36. */
  function Base36(n: nat): Text {
    var d := if n % 36 < 10 then 48 + n % 36 else 87 + n % 36;
    if n < 36 then [d] else Base36(n / 36) + [d]
  }

  function Signed36(n: int): Text { if n < 0 then [45] + Base36(-n) else Base36(n) }

  function MintId(at: int, seqNo: int): Text { U("aud_") + Signed36(at) + U("_") + Signed36(seqNo) }

  /** What a caller may supply: a type and further fields. The log's own five are its own. */
  datatype Body = Body(kind: Text, rest: map<Text, Value>)

  function Stamp(body: Body, at: int, seqNo: int, prev: Text): Record {
    Record(Some(Str(MintId(at, seqNo))), Some(Num(at)), Some(Num(seqNo)), Some(Str(body.kind)),
           Some(Str(prev)), Some(Num(CURRENT_VERSION)), body.rest)
  }

  const COUNT := U("removedCount")
  const FROM := U("removedFromSeq")
  const TO := U("removedToSeq")

  function MarkerBody(count: int, from: int, to: int): Body {
    Body(U("retention.compacted"),
         map[U("outcome") := Str(U("info")), COUNT := Num(count), FROM := Num(from), TO := Num(to)])
  }

  ghost predicate AllUsable(events: seq<Record>) { forall i | 0 <= i < |events| :: Usable(events[i]) }

  function Fresh(events: seq<Record>, cutoff: int): (r: seq<Record>)
    requires AllUsable(events)
    ensures AllUsable(r) && |r| <= |events|
  {
    if events == [] then []
    else if At(events[0]) >= cutoff then [events[0]] + Fresh(events[1..], cutoff)
    else Fresh(events[1..], cutoff)
  }

  function Expired(events: seq<Record>, cutoff: int): (r: seq<Record>)
    requires AllUsable(events)
    ensures AllUsable(r)
  {
    if events == [] then []
    else if At(events[0]) < cutoff then [events[0]] + Expired(events[1..], cutoff)
    else Expired(events[1..], cutoff)
  }

  function Min(a: int, b: int): int { if a <= b then a else b }
  function Max(a: int, b: int): int { if a <= b then b else a }

  /** How many unexpired records stay: two places are kept for the marker and the new record. */
  function KeepCount(c: Config, unexpired: nat): nat {
    var headroom := Max(0, c.maxEvents - 2);
    if unexpired + 2 > c.maxEvents then Min(c.maxEvents * 9 / 10, headroom) else Min(unexpired, headroom)
  }

  function MinSeq(events: seq<Record>): int
    requires AllUsable(events) && events != []
  {
    if |events| == 1 then Seq(events[0]) else Min(Seq(events[0]), MinSeq(events[1..]))
  }

  function MaxSeq(events: seq<Record>): int
    requires AllUsable(events) && events != []
  {
    if |events| == 1 then Seq(events[0]) else Max(Seq(events[0]), MaxSeq(events[1..]))
  }

  function Survivors(c: Config, events: seq<Record>, at: int): (r: seq<Record>)
    requires AllUsable(events)
    ensures AllUsable(r)
  {
    var kept := Fresh(events, at - c.retentionMs);
    kept[..Min(KeepCount(c, |kept|), |kept|)]
  }

  function Evicted(c: Config, events: seq<Record>, at: int): (r: seq<Record>)
    requires AllUsable(events)
    ensures AllUsable(r)
  {
    var kept := Fresh(events, at - c.retentionMs);
    kept[Min(KeepCount(c, |kept|), |kept|)..] + Expired(events, at - c.retentionMs)
  }

  function Highest(events: seq<Record>): int
    requires AllUsable(events)
  {
    if events == [] then 0 else Max(0, MaxSeq(events))
  }

  const GENESIS: Text := seq(64, i => 48)

  function ChainHead(events: seq<Record>, digest: Record -> Text): Text {
    if events == [] then GENESIS else digest(events[0])
  }

  /** The marker an eviction leaves, if there was one. */
  function RemovalMarker(evicted: seq<Record>, highest: int, head: Text, at: int): Option<Record>
    requires AllUsable(evicted)
  {
    if evicted == [] then None
    else Some(Stamp(MarkerBody(|evicted|, MinSeq(evicted), MaxSeq(evicted)), at, highest + 1, head))
  }

  function Marker(c: Config, events: seq<Record>, digest: Record -> Text, at: int): Option<Record>
    requires AllUsable(events)
  {
    RemovalMarker(Evicted(c, events, at), Highest(events), ChainHead(events, digest), at)
  }

  /** The new record in front of the marker, if any, in front of the survivors. */
  function Assembled(survivors: seq<Record>, marker: Option<Record>, highest: int, head: Text,
                     digest: Record -> Text, body: Body, at: int): seq<Record>
  {
    match marker
    case Some(m) => [Stamp(body, at, highest + 2, digest(m))] + ([m] + survivors)
    case None => [Stamp(body, at, highest + 1, head)] + survivors
  }

  /** The trail after an append, before it is cut to its byte bound. */
  function Appended(c: Config, events: seq<Record>, digest: Record -> Text, body: Body, at: int): seq<Record>
    requires AllUsable(events)
  {
    Assembled(Survivors(c, events, at), Marker(c, events, digest, at), Highest(events),
              ChainHead(events, digest), digest, body, at)
  }

  function Floor(n: nat): nat { n * 9 / 10 }

  /** Drops a tenth of the trail at a time until it fits; `width` is its serialised length. */
  function WithinBytes(events: seq<Record>, width: seq<Record> -> nat, maxBytes: nat): seq<Record>
    decreases |events|
  {
    if |events| > 1 && width(events) > maxBytes
    then WithinBytes(events[..Max(1, Floor(|events|))], width, maxBytes) else events
  }

  function Compacted(c: Config, events: seq<Record>): seq<Record> {
    events[..Min(c.maxEvents / 2, |events|)]
  }
}
