/** The minute ring against the whole history of rollups, for every clock. */
module RingHistory {
  import opened Counting
  import opened BucketRing

  datatype Sample = Sample(now: nat, totals: Totals)

  /** The cumulative counters a bucket accumulates, and the levels it keeps the peak of. */
  datatype Field = Accepted | TcpIn | TcpOut | UdpIn | UdpOut
  datatype Gauge = TcpActive | UdpFlows

  function Cumulative(t: Totals, f: Field): nat {
    match f
    case Accepted => t.tcpAccepted
    case TcpIn => t.tcpInBytes
    case TcpOut => t.tcpOutBytes
    case UdpIn => t.udpInBytes
    case UdpOut => t.udpOutBytes
  }

  function InBucket(b: MinuteBucket, f: Field): nat {
    match f
    case Accepted => b.tcpNewConn
    case TcpIn => b.tcpInBytes
    case TcpOut => b.tcpOutBytes
    case UdpIn => b.udpInBytes
    case UdpOut => b.udpOutBytes
  }

  function Level(t: Totals, g: Gauge): nat {
    match g
    case TcpActive => t.tcpActive
    case UdpFlows => t.udpActiveFlows
  }

  function Peak(b: MinuteBucket, g: Gauge): nat {
    match g
    case TcpActive => b.tcpActivePeak
    case UdpFlows => b.udpActiveFlowsPeak
  }

  function Minute(s: Sample): (r: nat)
    ensures 60 * r <= s.now < 60 * (r + 1)
  {
    s.now / 60
  }

  /** The totals applied just before the `k`-th sample. */
  function Before(h: seq<Sample>, k: nat): Totals
    requires k <= |h|
  {
    if k == 0 then ZERO_TOTALS else h[k - 1].totals
  }

  function Delta(h: seq<Sample>, k: nat, f: Field): nat
    requires k < |h|
  {
    SaturatingSub(Cumulative(h[k].totals, f), Cumulative(Before(h, k), f))
  }

  /** The ring after applying every sample of `h` in order. */
  function RingAfter(w: nat, h: seq<Sample>): (r: seq<MinuteBucket>)
    requires w >= 1
    ensures |r| == w
  {
    if h == [] then seq(w, _ => EmptyBucket(0))
    else
      var n := |h| - 1;
      Rolled(RingAfter(w, h[..n]), h[n].now, h[n].totals, Before(h, n))
  }

  // ----- the slot law -----

  predicate Within(idx: seq<nat>, n: nat) {
    forall a | 0 <= a < |idx| :: idx[a] < n
  }

  /** The samples of slot `i`'s trailing block of minute `m`, scanning back from the end. */
  function Block(w: nat, h: seq<Sample>, i: nat, m: nat): (r: seq<nat>)
    requires w >= 1
    ensures Within(r, |h|)
  {
    if h == [] then []
    else
      var n := |h| - 1;
      if Minute(h[n]) % w != i then Block(w, h[..n], i, m)
      else if Minute(h[n]) == m then Block(w, h[..n], i, m) + [n]
      else []
  }

  /** `k` is in the block iff it hits the slot at minute `m` and no later hit has another minute. */
  lemma {:induction false} BlockMembers(w: nat, h: seq<Sample>, i: nat, m: nat, k: nat)
    requires w >= 1 && k < |h|
    ensures k in Block(w, h, i, m) <==>
              && Minute(h[k]) % w == i && Minute(h[k]) == m
              && forall j | k < j < |h| && Minute(h[j]) % w == i :: Minute(h[j]) == m
  {
    var n := |h| - 1;
    if k < n {
      BlockMembers(w, h[..n], i, m, k);
      assert Minute(h[n]) % w == i && Minute(h[n]) != m ==> k !in Block(w, h, i, m);
      if forall j | k < j < n && Minute(h[..n][j]) % w == i :: Minute(h[..n][j]) == m {
        assert forall j | k < j < n && Minute(h[j]) % w == i :: Minute(h[..n][j]) == m;
      }
    } else {
      assert Within(Block(w, h[..n], i, m), n);
    }
  }

  predicate Increasing(idx: seq<nat>) {
    forall a, b | 0 <= a < b < |idx| :: idx[a] < idx[b]
  }

  lemma {:induction false} BlockIncreasing(w: nat, h: seq<Sample>, i: nat, m: nat)
    requires w >= 1
    ensures Increasing(Block(w, h, i, m))
  {
    if h != [] {
      var n := |h| - 1;
      BlockIncreasing(w, h[..n], i, m);
      assert Within(Block(w, h[..n], i, m), n);
    }
  }

  function DeltaSum(h: seq<Sample>, idx: seq<nat>, f: Field): nat
    requires Within(idx, |h|)
  {
    if idx == [] then 0 else DeltaSum(h, idx[..|idx| - 1], f) + Delta(h, idx[|idx| - 1], f)
  }

  function LevelMax(h: seq<Sample>, idx: seq<nat>, g: Gauge): nat
    requires Within(idx, |h|)
  {
    if idx == [] then 0 else Max(LevelMax(h, idx[..|idx| - 1], g), Level(h[idx[|idx| - 1]].totals, g))
  }

  lemma {:induction false} SumsOfPrefix(h: seq<Sample>, n: nat, idx: seq<nat>, f: Field, g: Gauge)
    requires n <= |h| && Within(idx, n)
    ensures DeltaSum(h[..n], idx, f) == DeltaSum(h, idx, f) && LevelMax(h[..n], idx, g) == LevelMax(h, idx, g)
  {
    if idx != [] {
      SumsOfPrefix(h, n, idx[..|idx| - 1], f, g);
    }
  }

  /** The minute of the last sample that hits slot `i`; 0, the default, if there is none. */
  function SlotMinute(w: nat, h: seq<Sample>, i: nat): nat
    requires w >= 1
  {
    if h == [] then 0
    else if Minute(h[|h| - 1]) % w == i then Minute(h[|h| - 1])
    else SlotMinute(w, h[..|h| - 1], i)
  }

  lemma RolledSlot(ring: seq<MinuteBucket>, s: Sample, previous: Totals, i: nat, f: Field, g: Gauge)
    requires i < |ring|
    ensures var r := Rolled(ring, s.now, s.totals, previous);
            var hit := Minute(s) % |ring| == i;
            var kept := ring[i].minuteEpoch == Minute(s);
            && (!hit ==> r[i] == ring[i])
            && (hit ==>
                  && r[i].minuteEpoch == Minute(s)
                  && InBucket(r[i], f) == (if kept then InBucket(ring[i], f) else 0)
                                          + SaturatingSub(Cumulative(s.totals, f), Cumulative(previous, f))
                  && Peak(r[i], g) == Max(if kept then Peak(ring[i], g) else 0, Level(s.totals, g)))
  {
  }

  lemma {:induction false} BlockOfOtherMinute(w: nat, h: seq<Sample>, i: nat, m: nat)
    requires w >= 1 && m != SlotMinute(w, h, i)
    ensures Block(w, h, i, m) == []
  {
    if h != [] && Minute(h[|h| - 1]) % w != i {
      BlockOfOtherMinute(w, h[..|h| - 1], i, m);
    }
  }

  lemma SumsAppend(h: seq<Sample>, idx: seq<nat>, f: Field, g: Gauge)
    requires h != [] && Within(idx, |h| - 1)
    ensures var n := |h| - 1;
            && DeltaSum(h, idx + [n], f) == DeltaSum(h[..n], idx, f) + Delta(h, n, f)
            && LevelMax(h, idx + [n], g) == Max(LevelMax(h[..n], idx, g), Level(h[n].totals, g))
  {
    assert (idx + [|h| - 1])[..|idx|] == idx;
    SumsOfPrefix(h, |h| - 1, idx, f, g);
  }

  /** How one more sample changes what the block of slot `i` adds up to. */
  lemma BlockStep(w: nat, h: seq<Sample>, i: nat, f: Field, g: Gauge)
    requires w >= 1 && h != []
    ensures var n := |h| - 1;
            var was, m := SlotMinute(w, h[..n], i), SlotMinute(w, h, i);
            var prior := Block(w, h[..n], i, was);
            if Minute(h[n]) % w != i then
              && m == was
              && DeltaSum(h, Block(w, h, i, m), f) == DeltaSum(h[..n], prior, f)
              && LevelMax(h, Block(w, h, i, m), g) == LevelMax(h[..n], prior, g)
            else
              && m == Minute(h[n])
              && DeltaSum(h, Block(w, h, i, m), f)
                 == (if was == m then DeltaSum(h[..n], prior, f) else 0) + Delta(h, n, f)
              && LevelMax(h, Block(w, h, i, m), g)
                 == Max(if was == m then LevelMax(h[..n], prior, g) else 0, Level(h[n].totals, g))
  {
    var n := |h| - 1;
    var m := SlotMinute(w, h, i);
    if Minute(h[n]) % w != i {
      SumsOfPrefix(h, n, Block(w, h[..n], i, m), f, g);
    } else {
      if SlotMinute(w, h[..n], i) != m {
        BlockOfOtherMinute(w, h[..n], i, m);
      }
      SumsAppend(h, Block(w, h[..n], i, m), f, g);
    }
  }

  /**
   * For an arbitrary clock, slot `i` holds the sum of the deltas and the maximum of the gauges over
   * the trailing block of same-minute rollups among those that hit it.
   */
  lemma {:induction false} SlotLaw(w: nat, h: seq<Sample>, i: nat, f: Field, g: Gauge)
    requires w >= 1 && i < w
    ensures var b := RingAfter(w, h)[i];
            var m := SlotMinute(w, h, i);
            && b.minuteEpoch == m
            && InBucket(b, f) == DeltaSum(h, Block(w, h, i, m), f)
            && Peak(b, g) == LevelMax(h, Block(w, h, i, m), g)
  {
    if h != [] {
      var n := |h| - 1;
      var past := h[..n];
      SlotLaw(w, past, i, f, g);
      RolledSlot(RingAfter(w, past), h[n], Before(h, n), i, f, g);
      BlockStep(w, h, i, f, g);
    }
  }

  // ----- a clock that never goes back: the ring against an unbounded minute history -----

  ghost predicate Nondecreasing(h: seq<Sample>) {
    forall j, k | 0 <= j < k < |h| :: Minute(h[j]) <= Minute(h[k])
  }

  ghost predicate Observed(h: seq<Sample>, m: nat) {
    exists k :: 0 <= k < |h| && Minute(h[k]) == m
  }

  /** Every sample of minute `m`: what a map from minute to bucket would accumulate. */
  function MinuteSamples(h: seq<Sample>, m: nat): (r: seq<nat>)
    ensures Within(r, |h|)
  {
    if h == [] then []
    else
      var n := |h| - 1;
      MinuteSamples(h[..n], m) + if Minute(h[n]) == m then [n] else []
  }

  /** `b` is what the unbounded history holds for minute `m`. */
  ghost predicate IsLedgerBucket(h: seq<Sample>, m: nat, b: MinuteBucket) {
    && b.minuteEpoch == m
    && (forall f :: InBucket(b, f) == DeltaSum(h, MinuteSamples(h, m), f))
    && (forall g :: Peak(b, g) == LevelMax(h, MinuteSamples(h, m), g))
  }

  lemma {:induction false} NoSamplesOfLaterMinute(h: seq<Sample>, m: nat)
    requires forall k | 0 <= k < |h| :: Minute(h[k]) < m
    ensures MinuteSamples(h, m) == []
  {
    if h != [] {
      NoSamplesOfLaterMinute(h[..|h| - 1], m);
    }
  }

  lemma {:induction false} BlockIsWholeMinute(w: nat, h: seq<Sample>, m: nat)
    requires w >= 1 && Nondecreasing(h)
    requires forall k | 0 <= k < |h| && Minute(h[k]) % w == m % w :: Minute(h[k]) <= m
    ensures Block(w, h, m % w, m) == MinuteSamples(h, m)
  {
    if h != [] {
      var n := |h| - 1;
      BlockIsWholeMinute(w, h[..n], m);
      if Minute(h[n]) % w == m % w && Minute(h[n]) < m {
        NoSamplesOfLaterMinute(h, m);
      }
    }
  }

  lemma {:induction false} SlotMinuteIsLatest(w: nat, h: seq<Sample>, i: nat)
    requires w >= 1 && Nondecreasing(h)
    ensures forall k | 0 <= k < |h| && Minute(h[k]) % w == i :: Minute(h[k]) <= SlotMinute(w, h, i)
    ensures SlotMinute(w, h, i) == 0 || (SlotMinute(w, h, i) % w == i && Observed(h, SlotMinute(w, h, i)))
  {
    if h != [] {
      var n := |h| - 1;
      SlotMinuteIsLatest(w, h[..n], i);
      if Minute(h[n]) % w != i && SlotMinute(w, h, i) != 0 {
        var k :| 0 <= k < n && Minute(h[..n][k]) == SlotMinute(w, h, i);
        assert Minute(h[k]) == SlotMinute(w, h, i);
      }
    }
  }

  /** The bucket of an observed minute is still in the ring iff no later observed minute shares its slot. */
  lemma RetainedIff(w: nat, h: seq<Sample>, m: nat)
    requires w >= 1 && Nondecreasing(h) && Observed(h, m)
    ensures RingAfter(w, h)[m % w].minuteEpoch == m
            <==> forall k | 0 <= k < |h| && Minute(h[k]) % w == m % w :: Minute(h[k]) <= m
    ensures RingAfter(w, h)[m % w].minuteEpoch == m ==> IsLedgerBucket(h, m, RingAfter(w, h)[m % w])
  {
    var i := m % w;
    var last :| 0 <= last < |h| && Minute(h[last]) == m;
    SlotMinuteIsLatest(w, h, i);
    SlotLaw(w, h, i, Accepted, TcpActive);
    var b := RingAfter(w, h)[i];
    if b.minuteEpoch == m {
      BlockIsWholeMinute(w, h, m);
      forall f
        ensures InBucket(b, f) == DeltaSum(h, MinuteSamples(h, m), f)
      {
        SlotLaw(w, h, i, f, TcpActive);
      }
      forall g
        ensures Peak(b, g) == LevelMax(h, MinuteSamples(h, m), g)
      {
        SlotLaw(w, h, i, Accepted, g);
      }
    }
  }

  lemma TimesMonotone(x: nat, y: nat, w: nat)
    requires x <= y
    ensures x * w <= y * w
  {
    assert (y - x) * w >= 0;
  }

  lemma CongruentMeansApart(a: nat, b: nat, w: nat)
    requires w >= 1 && a % w == b % w && a < b
    ensures a + w <= b
  {
    var p, q := a / w, b / w;
    assert a == p * w + a % w && b == q * w + b % w;
    if q <= p {
      TimesMonotone(q, p, w);
    } else {
      TimesMonotone(p + 1, q, w);
      assert (p + 1) * w == p * w + w;
    }
  }

  /** The ring agrees with the unbounded history on every observed minute of the last `w`. */
  lemma RecentMinutesAgree(w: nat, h: seq<Sample>, m: nat)
    requires w >= 1 && Nondecreasing(h) && Observed(h, m) && m + w > Minute(h[|h| - 1])
    ensures IsLedgerBucket(h, m, RingAfter(w, h)[m % w])
  {
    forall k | 0 <= k < |h| && Minute(h[k]) % w == m % w
      ensures Minute(h[k]) <= m
    {
      if m < Minute(h[k]) {
        CongruentMeansApart(m, Minute(h[k]), w);
      }
    }
    RetainedIff(w, h, m);
  }

  /** A bucket outlives the window exactly when no minute of the last `w` has hit its slot. */
  lemma StaleIff(w: nat, h: seq<Sample>, i: nat)
    requires w >= 1 && Nondecreasing(h) && i < w && RingAfter(w, h)[i].minuteEpoch != 0 && h != []
    ensures RingAfter(w, h)[i].minuteEpoch + w <= Minute(h[|h| - 1])
            <==> forall k | 0 <= k < |h| && Minute(h[k]) % w == i :: Minute(h[k]) + w <= Minute(h[|h| - 1])
  {
    SlotMinuteIsLatest(w, h, i);
    SlotLaw(w, h, i, Accepted, TcpActive);
    var m := RingAfter(w, h)[i].minuteEpoch;
    var k :| 0 <= k < |h| && Minute(h[k]) == m;
  }

  lemma SnapshotMembers(ring: seq<MinuteBucket>, b: MinuteBucket)
    ensures b in Sorted(Collected(ring)) <==> b in ring && b.minuteEpoch != 0
  {
    assert b in multiset(Sorted(Collected(ring))) <==> b in multiset(Collected(ring));
  }

  /** With a window of 2 and minutes 2 and 3 skipped, minute 1 is still reported in minute 4. */
  lemma SkippedMinutesLeaveAStaleBucket()
    ensures var h := [Sample(60, ZERO_TOTALS), Sample(240, ZERO_TOTALS)];
            Minute(h[1]) == 4 && exists b :: b in Sorted(Collected(RingAfter(2, h))) && b.minuteEpoch == 1
  {
    var h := [Sample(60, ZERO_TOTALS), Sample(240, ZERO_TOTALS)];
    assert Minute(h[0]) == 1 && Minute(h[1]) == 4;
    RetainedIff(2, h, 1);
    SnapshotMembers(RingAfter(2, h), RingAfter(2, h)[1]);
  }

  // ----- the snapshot -----

  predicate DistinctMinutes(s: seq<MinuteBucket>) {
    forall i, j | 0 <= i < j < |s| :: s[i].minuteEpoch != s[j].minuteEpoch
  }

  predicate Rising(s: seq<MinuteBucket>) {
    forall i, j | 0 <= i < j < |s| :: s[i].minuteEpoch < s[j].minuteEpoch
  }

  lemma {:induction false} CollectedDistinct(ring: seq<MinuteBucket>)
    requires forall i, j | 0 <= i < j < |ring| && ring[i].minuteEpoch != 0 :: ring[i].minuteEpoch != ring[j].minuteEpoch
    ensures DistinctMinutes(Collected(ring))
  {
    if ring != [] {
      var n := |ring| - 1;
      CollectedDistinct(ring[..n]);
      var front := Collected(ring[..n]);
      forall i | 0 <= i < |front| && ring[n].minuteEpoch != 0
        ensures front[i].minuteEpoch != ring[n].minuteEpoch
      {
        assert front[i] in front;
      }
    }
  }

  lemma {:induction false} InsertedRises(s: seq<MinuteBucket>, b: MinuteBucket)
    requires Rising(s) && forall x | x in s :: x.minuteEpoch != b.minuteEpoch
    ensures Rising(Inserted(s, b))
  {
    if s != [] && s[|s| - 1].minuteEpoch > b.minuteEpoch {
      var n := |s| - 1;
      InsertedRises(s[..n], b);
      assert forall x | x in Inserted(s[..n], b) :: x.minuteEpoch < s[n].minuteEpoch;
    }
  }

  lemma {:induction false} SortedRises(s: seq<MinuteBucket>)
    requires DistinctMinutes(s)
    ensures Rising(Sorted(s))
  {
    if s != [] {
      var n := |s| - 1;
      SortedRises(s[..n]);
      forall x | x in Sorted(s[..n])
        ensures x.minuteEpoch != s[n].minuteEpoch
      {
        assert x in multiset(s[..n]);
      }
      InsertedRises(Sorted(s[..n]), s[n]);
    }
  }

  ghost predicate HasMinute(s: seq<MinuteBucket>, m: nat) {
    exists k :: 0 <= k < |s| && s[k].minuteEpoch == m
  }

  ghost predicate Covers(s: seq<MinuteBucket>, lo: nat, hi: nat) {
    forall m | lo <= m < hi :: HasMinute(s, m)
  }

  ghost predicate InWindow(s: seq<MinuteBucket>, lo: nat, hi: nat) {
    forall x | x in s :: lo <= x.minuteEpoch < hi
  }

  lemma TopOfInterval(s: seq<MinuteBucket>, lo: nat, hi: nat)
    requires Rising(s) && lo < hi
    requires InWindow(s, lo, hi) && Covers(s, lo, hi)
    ensures s != [] && s[|s| - 1].minuteEpoch == hi - 1
    ensures InWindow(s[..|s| - 1], lo, hi - 1) && Covers(s[..|s| - 1], lo, hi - 1)
  {
    assert HasMinute(s, hi - 1);
    var k :| 0 <= k < |s| && s[k].minuteEpoch == hi - 1;
    var n := |s| - 1;
    assert s[n] in s;
    forall m | lo <= m < hi - 1
      ensures HasMinute(s[..n], m)
    {
      assert HasMinute(s, m);
      var j :| 0 <= j < |s| && s[j].minuteEpoch == m;
      assert s[..n][j].minuteEpoch == m;
    }
    assert forall x | x in s[..n] :: x in s;
  }

  /** A rising list that covers exactly the minutes `lo..hi` lists them one by one. */
  lemma {:induction false} RisingInterval(s: seq<MinuteBucket>, lo: nat, hi: nat)
    requires Rising(s) && lo <= hi
    requires InWindow(s, lo, hi) && Covers(s, lo, hi)
    ensures |s| == hi - lo && forall k | 0 <= k < |s| :: s[k].minuteEpoch == lo + k
  {
    if lo == hi {
      HasMember(s);
    } else {
      var n := |s| - 1;
      TopOfInterval(s, lo, hi);
      assert forall x | x in s[..n] :: x in s;
      RisingInterval(s[..n], lo, hi - 1);
      assert forall j | 0 <= j < n :: s[j] == s[..n][j];
    }
  }

  ghost predicate NoMinuteSkipped(h: seq<Sample>) {
    h != [] && forall m | Minute(h[0]) <= m <= Minute(h[|h| - 1]) :: Observed(h, m)
  }

  /** The first minute a snapshot can report. */
  function WindowStart(w: nat, h: seq<Sample>): nat
    requires w >= 1 && h != []
  {
    Max(Max(1, Minute(h[0])), SaturatingSub(Minute(h[|h| - 1]) + 1, w))
  }

  lemma RingMinutes(w: nat, h: seq<Sample>, i: nat)
    requires w >= 1 && Nondecreasing(h) && NoMinuteSkipped(h) && i < w
    ensures var m := RingAfter(w, h)[i].minuteEpoch;
            m != 0 ==> m % w == i && Observed(h, m) && WindowStart(w, h) <= m <= Minute(h[|h| - 1])
  {
    SlotMinuteIsLatest(w, h, i);
    SlotLaw(w, h, i, Accepted, TcpActive);
    var m, latest := RingAfter(w, h)[i].minuteEpoch, Minute(h[|h| - 1]);
    if m != 0 {
      var k :| 0 <= k < |h| && Minute(h[k]) == m;
      if m + w <= latest {
        assert Observed(h, m + w);
        var j :| 0 <= j < |h| && Minute(h[j]) == m + w;
        PlusWindow(m, w);
      }
    }
  }

  lemma PlusWindow(m: nat, w: nat)
    requires w >= 1
    ensures (m + w) % w == m % w
  {
    var q, p := (m + w) / w, m / w;
    assert m + w == q * w + (m + w) % w && m == p * w + m % w;
    if q < p + 1 {
      TimesMonotone(q, p, w);
    } else if q > p + 1 {
      TimesMonotone(p + 2, q, w);
    }
  }

  lemma RingIsLedger(w: nat, h: seq<Sample>, b: MinuteBucket)
    requires w >= 1 && Nondecreasing(h) && NoMinuteSkipped(h) && b in RingAfter(w, h) && b.minuteEpoch != 0
    ensures WindowStart(w, h) <= b.minuteEpoch <= Minute(h[|h| - 1]) && IsLedgerBucket(h, b.minuteEpoch, b)
  {
    var i :| 0 <= i < w && RingAfter(w, h)[i] == b;
    RingMinutes(w, h, i);
    RetainedIff(w, h, b.minuteEpoch);
  }

  lemma RingIsDistinct(w: nat, h: seq<Sample>)
    requires w >= 1 && Nondecreasing(h)
    ensures Rising(Sorted(Collected(RingAfter(w, h))))
  {
    var ring := RingAfter(w, h);
    forall i | 0 <= i < w
      ensures ring[i].minuteEpoch == 0 || ring[i].minuteEpoch % w == i
    {
      SlotMinuteIsLatest(w, h, i);
      SlotLaw(w, h, i, Accepted, TcpActive);
    }
    CollectedDistinct(ring);
    SortedRises(Collected(ring));
  }

  lemma SnapshotCovers(w: nat, h: seq<Sample>, m: nat)
    requires w >= 1 && Nondecreasing(h) && Observed(h, m) && m != 0 && m + w > Minute(h[|h| - 1])
    ensures HasMinute(Sorted(Collected(RingAfter(w, h))), m)
  {
    var s := Sorted(Collected(RingAfter(w, h)));
    RecentMinutesAgree(w, h, m);
    var b := RingAfter(w, h)[m % w];
    SnapshotMembers(RingAfter(w, h), b);
    var k :| 0 <= k < |s| && s[k] == b;
    assert s[k].minuteEpoch == m;
  }

  ghost predicate FromLedger(h: seq<Sample>, s: seq<MinuteBucket>) {
    forall x | x in s :: IsLedgerBucket(h, x.minuteEpoch, x)
  }

  /** `s` is the unbounded history of the minutes `lo..hi`, one bucket per minute in order. */
  ghost predicate IsLedgerList(h: seq<Sample>, lo: nat, hi: nat, s: seq<MinuteBucket>) {
    |s| == hi - lo && forall k | 0 <= k < |s| :: IsLedgerBucket(h, lo + k, s[k])
  }

  lemma LedgerList(h: seq<Sample>, s: seq<MinuteBucket>, lo: nat, hi: nat)
    requires Rising(s) && lo <= hi
    requires InWindow(s, lo, hi) && Covers(s, lo, hi) && FromLedger(h, s)
    ensures IsLedgerList(h, lo, hi, s)
  {
    RisingInterval(s, lo, hi);
    assert forall k | 0 <= k < |s| :: s[k] in s;
  }

  lemma SnapshotIsLedger(w: nat, h: seq<Sample>)
    requires w >= 1 && Nondecreasing(h) && NoMinuteSkipped(h)
    ensures InWindow(Sorted(Collected(RingAfter(w, h))), WindowStart(w, h), Minute(h[|h| - 1]) + 1)
    ensures FromLedger(h, Sorted(Collected(RingAfter(w, h))))
  {
    forall x | x in Sorted(Collected(RingAfter(w, h)))
      ensures WindowStart(w, h) <= x.minuteEpoch < Minute(h[|h| - 1]) + 1 && IsLedgerBucket(h, x.minuteEpoch, x)
    {
      SnapshotMembers(RingAfter(w, h), x);
      RingIsLedger(w, h, x);
    }
  }

  lemma SnapshotCoversAll(w: nat, h: seq<Sample>)
    requires w >= 1 && Nondecreasing(h) && NoMinuteSkipped(h)
    ensures Covers(Sorted(Collected(RingAfter(w, h))), WindowStart(w, h), Minute(h[|h| - 1]) + 1)
  {
    forall m | WindowStart(w, h) <= m < Minute(h[|h| - 1]) + 1
      ensures HasMinute(Sorted(Collected(RingAfter(w, h))), m)
    {
      SnapshotCovers(w, h, m);
    }
  }

  /**
   * If no minute is skipped, the snapshot is exactly the unbounded history of the last `w` minutes
   * seen, one bucket per minute in order, minute 0 excluded.
   */
  lemma ConsecutiveSnapshot(w: nat, h: seq<Sample>)
    requires w >= 1 && Nondecreasing(h) && NoMinuteSkipped(h) && Minute(h[|h| - 1]) >= 1
    ensures IsLedgerList(h, WindowStart(w, h), Minute(h[|h| - 1]) + 1, Sorted(Collected(RingAfter(w, h))))
  {
    RingIsDistinct(w, h);
    SnapshotIsLedger(w, h);
    SnapshotCoversAll(w, h);
    LedgerList(h, Sorted(Collected(RingAfter(w, h))), WindowStart(w, h), Minute(h[|h| - 1]) + 1);
  }

  // ----- conservation of the cumulative counters -----

  function DeltaTotal(h: seq<Sample>, f: Field): nat {
    if h == [] then 0 else DeltaTotal(h[..|h| - 1], f) + Delta(h, |h| - 1, f)
  }

  /** The sum of all decreases between successive applied totals. */
  function Decreases(h: seq<Sample>, f: Field): nat {
    if h == [] then 0
    else Decreases(h[..|h| - 1], f)
         + SaturatingSub(Cumulative(Before(h, |h| - 1), f), Cumulative(h[|h| - 1].totals, f))
  }

  /** What was in buckets when they were overwritten. */
  function Overwritten(w: nat, h: seq<Sample>, f: Field): nat
    requires w >= 1
  {
    if h == [] then 0
    else
      var n := |h| - 1;
      var b := RingAfter(w, h[..n])[Minute(h[n]) % w];
      Overwritten(w, h[..n], f) + if b.minuteEpoch != Minute(h[n]) then InBucket(b, f) else 0
  }

  function RingSum(ring: seq<MinuteBucket>, f: Field): nat {
    Sum(ring, (b: MinuteBucket) => InBucket(b, f))
  }

  /** Everything ever added is in the ring or was overwritten. */
  lemma {:induction false} RingConservation(w: nat, h: seq<Sample>, f: Field)
    requires w >= 1
    ensures RingSum(RingAfter(w, h), f) + Overwritten(w, h, f) == DeltaTotal(h, f)
  {
    var inBucket := (b: MinuteBucket) => InBucket(b, f);
    if h == [] {
      EmptyRingSum(w, f);
    } else {
      var n := |h| - 1;
      RingConservation(w, h[..n], f);
      var ring := RingAfter(w, h[..n]);
      var i := Minute(h[n]) % w;
      RolledSlot(ring, h[n], Before(h, n), i, f, TcpActive);
      SumUpdate(ring, i, RingAfter(w, h)[i], inBucket);
      assert RingAfter(w, h) == ring[i := RingAfter(w, h)[i]];
    }
  }

  lemma {:induction false} EmptyRingSum(w: nat, f: Field)
    ensures RingSum(seq(w, _ => EmptyBucket(0)), f) == 0
  {
    if w > 0 {
      EmptyRingSum(w - 1, f);
      assert seq(w, _ => EmptyBucket(0))[..w - 1] == seq(w - 1, _ => EmptyBucket(0));
    }
  }

  /** Telescoping: the deltas sum to the last totals plus every decrease that was saturated away. */
  lemma {:induction false} Telescoping(h: seq<Sample>, f: Field)
    ensures DeltaTotal(h, f) == Cumulative(Before(h, |h|), f) + Decreases(h, f)
  {
    if h != [] {
      Telescoping(h[..|h| - 1], f);
    }
  }

  /** The applied totals of this counter never decrease. */
  ghost predicate Growing(h: seq<Sample>, f: Field) {
    forall k | 0 <= k < |h| :: Cumulative(Before(h, k), f) <= Cumulative(h[k].totals, f)
  }

  lemma GrowingStep(h: seq<Sample>, f: Field)
    requires h != []
    ensures var n := |h| - 1;
            Growing(h, f) <==> Growing(h[..n], f) && Cumulative(Before(h, n), f) <= Cumulative(h[n].totals, f)
  {
    var n := |h| - 1;
    assert forall k | 0 <= k < n :: Before(h[..n], k) == Before(h, k) && h[..n][k] == h[k];
  }

  lemma {:induction false} NoDecreases(h: seq<Sample>, f: Field)
    ensures Decreases(h, f) == 0 <==> Growing(h, f)
  {
    if h != [] {
      NoDecreases(h[..|h| - 1], f);
      GrowingStep(h, f);
    }
  }

  /** No counted byte or connection is lost or counted twice iff the applied totals never decrease. */
  lemma DeltasAreExactIff(w: nat, h: seq<Sample>, f: Field)
    requires w >= 1 && h != []
    ensures RingSum(RingAfter(w, h), f) + Overwritten(w, h, f) == Cumulative(h[|h| - 1].totals, f)
            <==> Growing(h, f)
  {
    RingConservation(w, h, f);
    Telescoping(h, f);
    NoDecreases(h, f);
  }
}
