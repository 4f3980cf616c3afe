/**
 * Reading live counters (src/stats/mod.rs, src/stats/port.rs): a snapshot loads one atomic field
 * after the other, port after port, while other tasks keep counting.
 */
module StatsReads {
  import opened Counting
  import opened PortStats
  import opened BucketRing
  import opened RingHistory

  // ----- aggregation -----

  function Plus(t: Totals, s: PortSnapshot): Totals {
    Totals(
      t.tcpAccepted + s.tcpAccepted, t.tcpActive + s.tcpActive, t.tcpClosed + s.tcpClosed,
      t.udpActiveFlows + s.udpActiveFlows,
      t.tcpInBytes + s.tcpInBytes, t.tcpOutBytes + s.tcpOutBytes,
      t.udpInBytes + s.udpInBytes, t.udpOutBytes + s.udpOutBytes, t.udpDropped + s.udpDropped)
  }

  function Aggregate(ports: seq<PortSnapshot>): Totals {
    if ports == [] then ZERO_TOTALS else Plus(Aggregate(ports[..|ports| - 1]), ports[|ports| - 1])
  }

  /** Each total is the sum of that field over the ports. */
  lemma {:induction false} AggregateSums(ports: seq<PortSnapshot>)
    ensures var t := Aggregate(ports);
            && t.tcpAccepted == Sum(ports, (s: PortSnapshot) => s.tcpAccepted)
            && t.tcpActive == Sum(ports, (s: PortSnapshot) => s.tcpActive)
            && t.tcpClosed == Sum(ports, (s: PortSnapshot) => s.tcpClosed)
            && t.udpActiveFlows == Sum(ports, (s: PortSnapshot) => s.udpActiveFlows)
            && t.tcpInBytes == Sum(ports, (s: PortSnapshot) => s.tcpInBytes)
            && t.tcpOutBytes == Sum(ports, (s: PortSnapshot) => s.tcpOutBytes)
            && t.udpInBytes == Sum(ports, (s: PortSnapshot) => s.udpInBytes)
            && t.udpOutBytes == Sum(ports, (s: PortSnapshot) => s.udpOutBytes)
            && t.udpDropped == Sum(ports, (s: PortSnapshot) => s.udpDropped)
  {
    if ports != [] {
      AggregateSums(ports[..|ports| - 1]);
    }
  }

  method AggregateFromSnapshots(ports: seq<PortSnapshot>) returns (totals: Totals)
    ensures totals == Aggregate(ports)
  {
    totals := ZERO_TOTALS;
    var i := 0;
    while i < |ports|
      invariant 0 <= i <= |ports| && totals == Aggregate(ports[..i])
    {
      assert ports[..i + 1][..i] == ports[..i];
      totals := Plus(totals, ports[i]);
      i := i + 1;
    }
    assert ports[..i] == ports;
  }

  function OfPort(s: PortSnapshot, f: Field): nat {
    match f
    case Accepted => s.tcpAccepted
    case TcpIn => s.tcpInBytes
    case TcpOut => s.tcpOutBytes
    case UdpIn => s.udpInBytes
    case UdpOut => s.udpOutBytes
  }

  // ----- the counters while they move -----

  /** The atomic updates of one port. */
  datatype Op =
    | IncAccepted | IncActive | DecActive | IncClosed
    | IncFlows | DecFlows
    | AddTcpIn(n: nat) | AddTcpOut(n: nat) | AddUdpIn(n: nat) | AddUdpOut(n: nat)
    | IncDropped

  function Apply(s: PortSnapshot, op: Op): PortSnapshot {
    match op
    case IncAccepted => s.(tcpAccepted := s.tcpAccepted + 1)
    case IncActive => s.(tcpActive := s.tcpActive + 1)
    case DecActive => s.(tcpActive := SaturatingSub(s.tcpActive, 1))
    case IncClosed => s.(tcpClosed := s.tcpClosed + 1)
    case IncFlows => s.(udpActiveFlows := s.udpActiveFlows + 1)
    case DecFlows => s.(udpActiveFlows := SaturatingSub(s.udpActiveFlows, 1))
    case AddTcpIn(n) => s.(tcpInBytes := s.tcpInBytes + n)
    case AddTcpOut(n) => s.(tcpOutBytes := s.tcpOutBytes + n)
    case AddUdpIn(n) => s.(udpInBytes := s.udpInBytes + n)
    case AddUdpOut(n) => s.(udpOutBytes := s.udpOutBytes + n)
    case IncDropped => s.(udpDropped := s.udpDropped + 1)
  }

  /** The updates one after the other are what the counter methods state. */
  lemma UpdatesAreMethods(s: PortSnapshot, n: nat, m: nat)
    ensures Apply(Apply(s, IncAccepted), IncActive)
            == s.(tcpAccepted := s.tcpAccepted + 1, tcpActive := s.tcpActive + 1)
    ensures Apply(Apply(s, DecActive), IncClosed)
            == s.(tcpActive := if s.tcpActive == 0 then 0 else s.tcpActive - 1, tcpClosed := s.tcpClosed + 1)
    ensures Apply(Apply(s, AddTcpIn(n)), AddTcpOut(m))
            == s.(tcpInBytes := s.tcpInBytes + n, tcpOutBytes := s.tcpOutBytes + m)
    ensures Apply(s, IncFlows) == s.(udpActiveFlows := s.udpActiveFlows + 1)
    ensures Apply(s, DecFlows) == s.(udpActiveFlows := if s.udpActiveFlows == 0 then 0 else s.udpActiveFlows - 1)
    ensures Apply(s, AddUdpIn(n)) == s.(udpInBytes := s.udpInBytes + n)
    ensures Apply(s, AddUdpOut(n)) == s.(udpOutBytes := s.udpOutBytes + n)
    ensures Apply(s, IncDropped) == s.(udpDropped := s.udpDropped + 1)
  {
  }

  type World = seq<PortSnapshot>

  /** Any number of tasks, one atomic update at a time. */
  ghost predicate Evolution(worlds: seq<World>) {
    && worlds != []
    && forall i | 0 <= i < |worlds| - 1 :: WorldStep(worlds[i], worlds[i + 1])
  }

  ghost predicate WorldStep(w: World, w': World) {
    exists p: nat, op :: p < |w| && w' == w[p := Apply(w[p], op)]
  }

  lemma {:induction false} CountersGrow(worlds: seq<World>, i: nat, j: nat, p: nat, f: Field)
    requires Evolution(worlds) && i <= j < |worlds| && p < |worlds[0]|
    ensures |worlds[i]| == |worlds[j]| == |worlds[0]|
    ensures OfPort(worlds[i][p], f) <= OfPort(worlds[j][p], f)
    decreases j
  {
    SameSize(worlds, i);
    if i < j {
      CountersGrow(worlds, i, j - 1, p, f);
      assert WorldStep(worlds[j - 1], worlds[j - 1 + 1]);
    }
  }

  /** When each field of one port is loaded. */
  datatype ReadTimes = ReadTimes(
    accepted: nat, active: nat, closed: nat, flows: nat,
    tcpIn: nat, tcpOut: nat, udpIn: nat, udpOut: nat, dropped: nat)

  /** Loads happen in field order, after `first` and not after `last`. */
  predicate InOrder(r: ReadTimes, first: nat, last: nat) {
    first <= r.accepted <= r.active <= r.closed <= r.flows
    <= r.tcpIn <= r.tcpOut <= r.udpIn <= r.udpOut <= r.dropped <= last
  }

  /** One pass over all ports within the instants `first..last`. */
  ghost predicate IsReading(worlds: seq<World>, at: seq<ReadTimes>, first: nat, last: nat) {
    && Evolution(worlds) && first <= last < |worlds| && |at| == |worlds[0]|
    && (forall p | 0 <= p < |at| :: InOrder(at[p], first, last))
    && (forall p | 0 <= p < |at| - 1 :: at[p].dropped <= at[p + 1].accepted)
    && (forall i | 0 <= i < |worlds| :: |worlds[i]| == |worlds[0]|)
  }

  ghost function ReadPort(worlds: seq<World>, r: ReadTimes, p: nat): PortSnapshot
    requires worlds != [] && InOrder(r, 0, |worlds| - 1)
    requires forall i | 0 <= i < |worlds| :: p < |worlds[i]|
  {
    PortSnapshot(
      worlds[r.accepted][p].port,
      worlds[r.accepted][p].tcpAccepted, worlds[r.active][p].tcpActive, worlds[r.closed][p].tcpClosed,
      worlds[r.flows][p].udpActiveFlows,
      worlds[r.tcpIn][p].tcpInBytes, worlds[r.tcpOut][p].tcpOutBytes,
      worlds[r.udpIn][p].udpInBytes, worlds[r.udpOut][p].udpOutBytes,
      worlds[r.dropped][p].udpDropped)
  }

  ghost function Reading(worlds: seq<World>, at: seq<ReadTimes>, first: nat, last: nat): (r: seq<PortSnapshot>)
    requires IsReading(worlds, at, first, last)
    ensures |r| == |at|
  {
    seq(|at|, p requires 0 <= p < |at| => ReadPort(worlds, at[p], p))
  }

  /** A pass during which nothing moves reads the counters as they are, as `PortSnapshots` does. */
  lemma PassAtOneInstant(worlds: seq<World>, at: seq<ReadTimes>, k: nat)
    requires IsReading(worlds, at, k, k)
    ensures Reading(worlds, at, k, k) == worlds[k]
  {
    var r := Reading(worlds, at, k, k);
    forall p | 0 <= p < |at|
      ensures r[p] == worlds[k][p]
    {
      assert InOrder(at[p], k, k);
    }
  }

  lemma {:induction false} AggregateMonotone(a: seq<PortSnapshot>, b: seq<PortSnapshot>, f: Field)
    requires |a| == |b| && forall p | 0 <= p < |a| :: OfPort(a[p], f) <= OfPort(b[p], f)
    ensures Cumulative(Aggregate(a), f) <= Cumulative(Aggregate(b), f)
  {
    if a != [] {
      AggregateMonotone(a[..|a| - 1], b[..|b| - 1], f);
    }
  }

  /** Each cumulative aggregate lies between its true value when the read starts and when it ends. */
  lemma ReadIsBracketed(worlds: seq<World>, at: seq<ReadTimes>, first: nat, last: nat, f: Field)
    requires IsReading(worlds, at, first, last)
    ensures Cumulative(Aggregate(worlds[first]), f)
            <= Cumulative(Aggregate(Reading(worlds, at, first, last)), f)
            <= Cumulative(Aggregate(worlds[last]), f)
  {
    var r := Reading(worlds, at, first, last);
    forall p | 0 <= p < |at|
      ensures OfPort(worlds[first][p], f) <= OfPort(r[p], f) <= OfPort(worlds[last][p], f)
    {
      var t := match f
        case Accepted => at[p].accepted
        case TcpIn => at[p].tcpIn
        case TcpOut => at[p].tcpOut
        case UdpIn => at[p].udpIn
        case UdpOut => at[p].udpOut;
      assert InOrder(at[p], first, last);
      CountersGrow(worlds, first, t, p, f);
      CountersGrow(worlds, t, last, p, f);
    }
    AggregateMonotone(worlds[first], r, f);
    AggregateMonotone(r, worlds[last], f);
  }

  /** One pass of the roller: its loads, its interval, and the clock it rolls up at. */
  datatype Pass = Pass(at: seq<ReadTimes>, first: nat, last: nat, now: nat)

  /** `run_rollup`: a single task, so one pass ends before the next begins. */
  ghost predicate IsRoller(worlds: seq<World>, passes: seq<Pass>) {
    && (forall k | 0 <= k < |passes| :: IsReading(worlds, passes[k].at, passes[k].first, passes[k].last))
    && (forall k | 0 <= k < |passes| - 1 :: passes[k].last <= passes[k + 1].first)
  }

  ghost function Samples(worlds: seq<World>, passes: seq<Pass>): (h: seq<Sample>)
    requires IsRoller(worlds, passes)
    ensures |h| == |passes|
  {
    seq(|passes|, k requires 0 <= k < |passes| => Sample(passes[k].now, PassTotals(worlds, passes[k])))
  }

  ghost function PassTotals(worlds: seq<World>, pass: Pass): Totals
    requires IsReading(worlds, pass.at, pass.first, pass.last)
  {
    Aggregate(Reading(worlds, pass.at, pass.first, pass.last))
  }

  lemma WorldsGrow(worlds: seq<World>, i: nat, j: nat, f: Field)
    requires Evolution(worlds) && i <= j < |worlds|
    ensures Cumulative(Aggregate(worlds[i]), f) <= Cumulative(Aggregate(worlds[j]), f)
  {
    forall p | 0 <= p < |worlds[0]|
      ensures |worlds[i]| == |worlds[j]| == |worlds[0]| && OfPort(worlds[i][p], f) <= OfPort(worlds[j][p], f)
    {
      CountersGrow(worlds, i, j, p, f);
    }
    SameSize(worlds, i);
    SameSize(worlds, j);
    AggregateMonotone(worlds[i], worlds[j], f);
  }

  lemma {:induction false} SameSize(worlds: seq<World>, i: nat)
    requires Evolution(worlds) && i < |worlds|
    ensures |worlds[i]| == |worlds[0]|
    decreases i
  {
    if i > 0 {
      SameSize(worlds, i - 1);
      assert WorldStep(worlds[i - 1], worlds[i - 1 + 1]);
    }
  }

  lemma PassesGrow(worlds: seq<World>, a: Pass, b: Pass, f: Field)
    requires IsReading(worlds, a.at, a.first, a.last) && IsReading(worlds, b.at, b.first, b.last) && a.last <= b.first
    ensures Cumulative(PassTotals(worlds, a), f) <= Cumulative(PassTotals(worlds, b), f)
  {
    ReadIsBracketed(worlds, a.at, a.first, a.last, f);
    WorldsGrow(worlds, a.last, b.first, f);
    ReadIsBracketed(worlds, b.at, b.first, b.last, f);
  }

  lemma SampleAt(worlds: seq<World>, passes: seq<Pass>, k: nat)
    requires IsRoller(worlds, passes) && k < |passes|
    ensures Samples(worlds, passes)[k].totals == PassTotals(worlds, passes[k])
  {
  }

  lemma TotalsNeverDecrease(worlds: seq<World>, passes: seq<Pass>, k: nat, f: Field)
    requires IsRoller(worlds, passes) && k < |passes|
    ensures Cumulative(Before(Samples(worlds, passes), k), f) <= Cumulative(Samples(worlds, passes)[k].totals, f)
  {
    SampleAt(worlds, passes, k);
    if k > 0 {
      SampleAt(worlds, passes, k - 1);
      assert passes[k - 1].last <= passes[k - 1 + 1].first;
      PassesGrow(worlds, passes[k - 1], passes[k], f);
    }
  }

  lemma SamplesGrow(worlds: seq<World>, passes: seq<Pass>, f: Field)
    requires IsRoller(worlds, passes)
    ensures Growing(Samples(worlds, passes), f)
  {
    forall k | 0 <= k < |passes|
      ensures Cumulative(Before(Samples(worlds, passes), k), f) <= Cumulative(Samples(worlds, passes)[k].totals, f)
    {
      TotalsNeverDecrease(worlds, passes, k, f);
    }
  }

  /** The deltas in the ring and in overwritten buckets sum to exactly the last totals. */
  ghost predicate NothingLost(w: nat, h: seq<Sample>, f: Field)
    requires w >= 1 && h != []
  {
    RingSum(RingAfter(w, h), f) + Overwritten(w, h, f) == Cumulative(h[|h| - 1].totals, f)
  }

  lemma GrowingLosesNothing(w: nat, h: seq<Sample>, f: Field)
    requires w >= 1 && h != [] && Growing(h, f)
    ensures NothingLost(w, h, f)
  {
    DeltasAreExactIff(w, h, f);
  }

  /**
   * However the counters move during the reads, the single roller applies non-decreasing totals, so
   * nothing is lost or counted twice.
   */
  lemma RollerLosesNothing(worlds: seq<World>, passes: seq<Pass>, w: nat, f: Field)
    requires IsRoller(worlds, passes) && passes != [] && w >= 1
    ensures NothingLost(w, Samples(worlds, passes), f)
  {
    SamplesGrow(worlds, passes, f);
    GrowingLosesNothing(w, Samples(worlds, passes), f);
  }

  /** A snapshot can be torn: one connection accepted during the read, and accepted != active + closed. */
  lemma SnapshotCanTear(port: nat)
    ensures var zero := PortSnapshot(port, 0, 0, 0, 0, 0, 0, 0, 0, 0);
            var worlds := [[zero], [Apply(zero, IncAccepted)], [Apply(Apply(zero, IncAccepted), IncActive)]];
            var at := [ReadTimes(0, 2, 2, 2, 2, 2, 2, 2, 2)];
            && IsReading(worlds, at, 0, 2)
            && var s := Reading(worlds, at, 0, 2)[0]; s.tcpAccepted != s.tcpActive + s.tcpClosed
  {
    var zero := PortSnapshot(port, 0, 0, 0, 0, 0, 0, 0, 0, 0);
    var worlds := [[zero], [Apply(zero, IncAccepted)], [Apply(Apply(zero, IncAccepted), IncActive)]];
    assert worlds[1] == worlds[0][0 := Apply(worlds[0][0], IncAccepted)];
    assert worlds[2] == worlds[1][0 := Apply(worlds[1][0], IncActive)];
    assert WorldStep(worlds[0], worlds[1]) && WorldStep(worlds[1], worlds[2]);
  }

  // ----- the registry -----

  lemma RingAfterMore(w: nat, h: seq<Sample>, x: Sample)
    requires w >= 1
    ensures RingAfter(w, h + [x]) == Rolled(RingAfter(w, h), x.now, x.totals, Before(h, |h|))
  {
    assert (h + [x])[..|h|] == h;
  }

  function Views(ports: seq<Counters>): seq<PortSnapshot>
    reads ports
  {
    if ports == [] then [] else Views(ports[..|ports| - 1]) + [ports[|ports| - 1].View()]
  }

  /** One snapshot per port, in the ports' order. */
  lemma {:induction false} ViewsAre(ports: seq<Counters>, i: nat)
    requires i < |ports|
    ensures |Views(ports)| == |ports| && Views(ports)[i] == ports[i].View()
    decreases |ports|
  {
    var n := |ports| - 1;
    if n > 0 {
      ViewsAre(ports[..n], if i < n then i else 0);
    }
  }

  class StatsRegistry {
    const ports: seq<Counters>
    const ring: Ring
    const window: nat
    var previousTotals: Totals
    ghost var history: seq<Sample>

    ghost predicate Valid()
      reads this, ring.buckets
    {
      && window >= 1 && ring.Valid()
      && ring.buckets[..] == RingAfter(window, history)
      && previousTotals == Before(history, |history|)
    }

    constructor (ports: seq<Counters>, windowMinutes: nat)
      ensures Valid() && history == [] && this.ports == ports
      ensures window == Max(windowMinutes, 1) && fresh(ring) && fresh(ring.buckets)
    {
      this.ports := ports;
      var r := new Ring(windowMinutes);
      ring := r;
      window := Max(windowMinutes, 1);
      previousTotals := ZERO_TOTALS;
      history := [];
      new;
      assert ring.buckets[..] == RingAfter(window, []);
    }

    /** One pass over the ports while nobody counts; see `Reading` for a pass while they do. */
    method PortSnapshots() returns (s: seq<PortSnapshot>)
      ensures s == Views(ports)
    {
      s := [];
      var i := 0;
      while i < |ports|
        invariant 0 <= i <= |ports| && s == Views(ports[..i])
      {
        assert ports[..i + 1][..i] == ports[..i];
        var snapshot := ports[i].Snapshot();
        s := s + [snapshot];
        i := i + 1;
      }
      assert ports[..i] == ports;
    }

    method Record(now: nat, totals: Totals)
      requires Valid()
      modifies this`previousTotals, this`history, ring.buckets
      ensures Valid() && history == old(history) + [Sample(now, totals)]
    {
      ghost var h := history;
      RingAfterMore(window, h, Sample(now, totals));
      previousTotals := ring.Rollup(now, totals, previousTotals);
      history := h + [Sample(now, totals)];
      assert ring.buckets[..] == RingAfter(window, history);
    }

    /** The registry's ring is always the ring of its whole rollup history. */
    method RollupAtEpoch(now: nat)
      requires Valid()
      modifies this`previousTotals, this`history, ring.buckets
      ensures Valid() && history == old(history) + [Sample(now, Aggregate(Views(ports)))]
    {
      var snapshots := PortSnapshots();
      var totals := AggregateFromSnapshots(snapshots);
      Record(now, totals);
    }

    /** Totals, ports and minute buckets of one `snapshot`: the totals are those of the ports it reports. */
    method Snapshot() returns (totals: Totals, snapshots: seq<PortSnapshot>, buckets: seq<MinuteBucket>)
      requires Valid()
      ensures snapshots == Views(ports) && totals == Aggregate(snapshots)
      ensures buckets == Sorted(Collected(RingAfter(window, history)))
    {
      snapshots := PortSnapshots();
      totals := AggregateFromSnapshots(snapshots);
      buckets := ring.Snapshot();
    }
  }
}
