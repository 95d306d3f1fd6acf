/** The log itself: one stored trail, read and rewritten inside one storage transaction a call. */
module AuditLog {
  import opened Store
  import opened Json
  import opened AuditRecord
  import opened AuditTrail

  class AuditLog {
    const config: Config
    const digest: Record -> Text
    /** How long a list of records is once serialised. */
    const width: seq<Record> -> nat
    /** Newest first. */
    var events: seq<Record>

    constructor (config: Config, digest: Record -> Text, width: seq<Record> -> nat)
      ensures this.config == config && this.digest == digest && this.width == width && events == []
    {
      this.config, this.digest, this.width, events := config, digest, width, [];
    }

    /** Evicts, marks what it evicted, numbers and chains the new record, and cuts to size. */
    method Append(body: Body, at: int) returns (written: Record)
      requires AllUsable(events)
      modifies this
      ensures events == WithinBytes(Appended(config, old(events), digest, body, at), width, config.maxBytes)
      ensures written == Appended(config, old(events), digest, body, at)[0]
    {
      var existing := events;
      var cutoff := at - config.retentionMs;
      var expired, kept := Expired(existing, cutoff), Fresh(existing, cutoff);
      var keepCount := KeepCount(config, |kept|);
      var survivors := kept[..Min(keepCount, |kept|)];
      var evicted := kept[Min(keepCount, |kept|)..] + expired;

      var all: seq<Record>;
      all, written := Stack(survivors, evicted, existing, body, at);
      events := TrimToBytes(all);
    }

    /** Numbers and chains the additions, and puts them in front of the survivors. */
    method Stack(survivors: seq<Record>, evicted: seq<Record>, existing: seq<Record>, body: Body, at: int)
      returns (all: seq<Record>, written: Record)
      requires AllUsable(existing) && AllUsable(evicted)
      ensures all == Assembled(survivors, RemovalMarker(evicted, Highest(existing), ChainHead(existing, digest), at),
                               Highest(existing), ChainHead(existing, digest), digest, body, at)
      ensures written == all[0]
    {
      var seqNo := Highest(existing);
      var prevDigest := GENESIS;
      if existing != [] { prevDigest := digest(existing[0]); }

      var additions: seq<Record> := [];
      if evicted != [] {
        seqNo := seqNo + 1;
        var marker := Stamp(MarkerBody(|evicted|, MinSeq(evicted), MaxSeq(evicted)), at, seqNo, prevDigest);
        prevDigest := digest(marker);
        additions := additions + [marker];
      }
      seqNo := seqNo + 1;
      written := Stamp(body, at, seqNo, prevDigest);
      additions := additions + [written];
      if evicted != [] { ReverseTwo(additions[0], additions[1]); } else { ReverseOne(additions[0]); }
      all := Reverse(additions) + survivors;
    }

    /** Drops the oldest tenth until the trail fits, but never the last record. */
    method TrimToBytes(all: seq<Record>) returns (kept: seq<Record>)
      ensures kept == WithinBytes(all, width, config.maxBytes)
    {
      kept := all;
      while |kept| > 1 && width(kept) > config.maxBytes
        invariant WithinBytes(kept, width, config.maxBytes) == WithinBytes(all, width, config.maxBytes)
        decreases |kept|
      {
        kept := kept[..Max(1, Floor(|kept|))];
      }
    }

    method Compact()
      modifies this
      ensures events == Compacted(config, old(events))
    {
      events := events[..Min(config.maxEvents / 2, |events|)];
    }

    /** Walks the trail oldest first and reports the first thing that is wrong. */
    method VerifyIntegrity() returns (verdict: Verdict)
      ensures verdict == Judge(events, digest)
    {
      if events == [] { return Empty; }
      var ordered := Reverse(events);
      var i := 0;
      while i < |ordered|
        invariant 0 <= i <= |ordered| && (i > 0 ==> Usable(ordered[i - 1]))
        invariant FirstFault(ordered, digest, 0) == FirstFault(ordered, digest, i)
      {
        var entry := ordered[i];
        if !Usable(entry) { return Corrupt; }
        if Version(entry) > CURRENT_VERSION { return FutureVersion; }
        if i > 0 {
          var previous := ordered[i - 1];
          if Seq(entry) == Seq(previous) { return Reordered; }
          if Seq(entry) < Seq(previous) { return Reordered; }
          if Seq(entry) != Seq(previous) + 1 { return Gap; }
          if Prev(entry) != digest(previous) { return ChainBroken; }
        }
        i := i + 1;
      }
      FirstFaultNone(ordered, digest, 0);
      assert ordered[0] == events[|events| - 1];
      verdict := if Seq(ordered[0]) > 1 then Truncated else IsOk;
    }
  }

  lemma ReverseOne<T>(a: T)
    ensures Reverse([a]) == [a]
  {
  }

  lemma ReverseTwo<T>(a: T, b: T)
    ensures Reverse([a, b]) == [b, a]
  {
  }
}
