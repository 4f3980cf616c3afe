/** The ring of minute buckets (src/stats/bucket.rs). */
module BucketRing {
  import opened Counting

  datatype Totals = Totals(
    tcpAccepted: nat, tcpActive: nat, tcpClosed: nat, udpActiveFlows: nat,
    tcpInBytes: nat, tcpOutBytes: nat, udpInBytes: nat, udpOutBytes: nat, udpDropped: nat)

  const ZERO_TOTALS := Totals(0, 0, 0, 0, 0, 0, 0, 0, 0)

  datatype MinuteBucket = MinuteBucket(
    minuteEpoch: nat, tcpNewConn: nat, tcpActivePeak: nat, udpActiveFlowsPeak: nat,
    tcpInBytes: nat, tcpOutBytes: nat, udpInBytes: nat, udpOutBytes: nat)

  function EmptyBucket(minute: nat): MinuteBucket {
    MinuteBucket(minute, 0, 0, 0, 0, 0, 0, 0)
  }

  function Max(a: nat, b: nat): nat {
    if a < b then b else a
  }

  /** The update of one bucket by one rollup. */
  function Accumulate(b: MinuteBucket, totals: Totals, previous: Totals): MinuteBucket {
    MinuteBucket(
      b.minuteEpoch,
      b.tcpNewConn + SaturatingSub(totals.tcpAccepted, previous.tcpAccepted),
      Max(b.tcpActivePeak, totals.tcpActive),
      Max(b.udpActiveFlowsPeak, totals.udpActiveFlows),
      b.tcpInBytes + SaturatingSub(totals.tcpInBytes, previous.tcpInBytes),
      b.tcpOutBytes + SaturatingSub(totals.tcpOutBytes, previous.tcpOutBytes),
      b.udpInBytes + SaturatingSub(totals.udpInBytes, previous.udpInBytes),
      b.udpOutBytes + SaturatingSub(totals.udpOutBytes, previous.udpOutBytes))
  }

  function Rolled(ring: seq<MinuteBucket>, now: nat, totals: Totals, previous: Totals): (r: seq<MinuteBucket>)
    requires ring != []
    ensures |r| == |ring|
  {
    var minute := now / 60;
    var i := minute % |ring|;
    var b := if ring[i].minuteEpoch != minute then EmptyBucket(minute) else ring[i];
    ring[i := Accumulate(b, totals, previous)]
  }

  function Collected(ring: seq<MinuteBucket>): (r: seq<MinuteBucket>)
    ensures forall b :: b in r <==> b in ring && b.minuteEpoch != 0
  {
    if ring == [] then []
    else
      var front := Collected(ring[..|ring| - 1]);
      assert ring == ring[..|ring| - 1] + [ring[|ring| - 1]];
      if ring[|ring| - 1].minuteEpoch != 0 then front + [ring[|ring| - 1]] else front
  }

  predicate SortedByMinute(s: seq<MinuteBucket>) {
    forall i, j | 0 <= i < j < |s| :: s[i].minuteEpoch <= s[j].minuteEpoch
  }

  lemma AppendSorted(s: seq<MinuteBucket>, b: MinuteBucket)
    requires SortedByMinute(s) && forall x | x in s :: x.minuteEpoch <= b.minuteEpoch
    ensures SortedByMinute(s + [b])
  {
  }

  lemma LastIsLatest(s: seq<MinuteBucket>, x: MinuteBucket)
    requires SortedByMinute(s) && x in s
    ensures x.minuteEpoch <= s[|s| - 1].minuteEpoch
  {
  }

  /** Stable: `b` goes after its equals. */
  function Inserted(s: seq<MinuteBucket>, b: MinuteBucket): (r: seq<MinuteBucket>)
    requires SortedByMinute(s)
    ensures SortedByMinute(r)
    ensures forall x | x in r :: x in s || x == b
    ensures multiset(r) == multiset(s) + multiset{b}
  {
    if s == [] || s[|s| - 1].minuteEpoch <= b.minuteEpoch then
      assert forall x | x in s :: x.minuteEpoch <= b.minuteEpoch by {
        forall x | x in s ensures x.minuteEpoch <= b.minuteEpoch { LastIsLatest(s, x); }
      }
      AppendSorted(s, b);
      s + [b]
    else
      var n := |s| - 1;
      var front := Inserted(s[..n], b);
      assert s == s[..n] + [s[n]];
      assert forall x | x in front :: x.minuteEpoch <= s[n].minuteEpoch;
      AppendSorted(front, s[n]);
      front + [s[n]]
  }

  /** `sort_by_key` on the minute. */
  function Sorted(s: seq<MinuteBucket>): (r: seq<MinuteBucket>)
    ensures SortedByMinute(r) && multiset(r) == multiset(s)
  {
    if s == [] then []
    else
      assert s == s[..|s| - 1] + [s[|s| - 1]];
      Inserted(Sorted(s[..|s| - 1]), s[|s| - 1])
  }

  class Ring {
    const buckets: array<MinuteBucket>

    ghost predicate Valid() {
      buckets.Length >= 1
    }

    constructor (windowMinutes: nat)
      ensures Valid() && fresh(buckets) && buckets.Length == Max(windowMinutes, 1)
      ensures forall i | 0 <= i < buckets.Length :: buckets[i] == EmptyBucket(0)
    {
      buckets := new MinuteBucket[Max(windowMinutes, 1)](_ => EmptyBucket(0));
    }

    method Rollup(now: nat, totals: Totals, previous: Totals) returns (newPrevious: Totals)
      requires Valid()
      modifies buckets
      ensures buckets[..] == Rolled(old(buckets[..]), now, totals, previous)
      ensures newPrevious == totals
    {
      var minute := now / 60;
      var i := minute % buckets.Length;
      if buckets[i].minuteEpoch != minute {
        buckets[i] := EmptyBucket(minute);
      }
      buckets[i] := Accumulate(buckets[i], totals, previous);
      newPrevious := totals;
    }

    /** Minute 0 is taken for an unused slot; the rest comes sorted by minute. */
    method Snapshot() returns (s: seq<MinuteBucket>)
      requires Valid()
      ensures s == Sorted(Collected(buckets[..]))
    {
      s := [];
      var i := 0;
      while i < buckets.Length
        invariant 0 <= i <= buckets.Length && s == Collected(buckets[..i])
      {
        assert buckets[..i + 1][..i] == buckets[..i];
        if buckets[i].minuteEpoch != 0 {
          s := s + [buckets[i]];
        }
        i := i + 1;
      }
      assert buckets[..i] == buckets[..];
      s := Sorted(s);
    }
  }
}
