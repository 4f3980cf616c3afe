/**
 * Snapshots of the TCP counters while the listeners and connections of TcpAdmission run: exactly
 * when a field-by-field read shows accepted = active + closed.
 */
module SnapshotLedger {
  import opened Counting
  import opened PortStats
  import opened StatsReads
  import Tcp = TcpAdmission

  predicate RecordsAccept(a: Tcp.Action, p: nat) {
    a == Tcp.CountAccepted(p)
  }

  predicate RecordsClose(s: Tcp.State, a: Tcp.Action, p: nat) {
    a.CountClosed? && a.k < |s.conns| && s.conns[a.k].port == p
  }

  /** Accepts recorded on port `p` by the steps `i..j`. */
  function AcceptsIn(acts: seq<Tcp.Action>, p: nat, i: nat, j: nat): nat
    requires i <= j <= |acts|
  {
    if i == j then 0 else AcceptsIn(acts, p, i, j - 1) + Bit(RecordsAccept(acts[j - 1], p))
  }

  /** Closes recorded on port `p` by the steps `i..j`. */
  function ClosesIn(trace: seq<Tcp.State>, acts: seq<Tcp.Action>, p: nat, i: nat, j: nat): nat
    requires i <= j <= |acts| < |trace|
  {
    if i == j then 0 else ClosesIn(trace, acts, p, i, j - 1) + Bit(RecordsClose(trace[j - 1], acts[j - 1], p))
  }

  lemma CountsStep(s: Tcp.State, a: Tcp.Action, p: nat)
    requires Tcp.Enabled(s, a) && p < |s.ports|
    ensures var s' := Tcp.Next(s, a);
            && |s'.ports| == |s.ports|
            && s'.ports[p].accepted == s.ports[p].accepted + Bit(RecordsAccept(a, p))
            && s'.ports[p].closed == s.ports[p].closed + Bit(RecordsClose(s, a, p))
  {
  }

  /** What has been recorded from state `i` to state `j`. */
  ghost predicate Grown(trace: seq<Tcp.State>, acts: seq<Tcp.Action>, p: nat, i: nat, j: nat)
    requires i <= j <= |acts| < |trace|
  {
    && p < |trace[i].ports| == |trace[j].ports|
    && trace[j].ports[p].accepted == trace[i].ports[p].accepted + AcceptsIn(acts, p, i, j)
    && trace[j].ports[p].closed == trace[i].ports[p].closed + ClosesIn(trace, acts, p, i, j)
  }

  lemma GrownStep(trace: seq<Tcp.State>, acts: seq<Tcp.Action>, p: nat, i: nat, j: nat)
    requires Tcp.Run(trace, acts) && i < j < |trace| && Grown(trace, acts, p, i, j - 1)
    ensures Grown(trace, acts, p, i, j)
  {
    assert Tcp.Step(trace[j - 1], acts[j - 1], trace[j - 1 + 1]);
    CountsStep(trace[j - 1], acts[j - 1], p);
  }

  lemma {:induction false} CountsGrow(trace: seq<Tcp.State>, acts: seq<Tcp.Action>, p: nat, i: nat, j: nat)
    requires Tcp.Run(trace, acts) && i <= j < |trace| && p < |trace[i].ports|
    ensures Grown(trace, acts, p, i, j)
    decreases j
  {
    if i < j {
      CountsGrow(trace, acts, p, i, j - 1);
      GrownStep(trace, acts, p, i, j);
    }
  }

  /** Accepts and closes of port `p` that stand between their two updates. */
  function InTransition(s: Tcp.State, p: nat): nat
    requires p < |s.listeners|
  {
    Bit(s.listeners[p].Counted?) + Count(s.conns, Tcp.HalfAt(p))
  }

  /**
   * Accepted loaded at `i1`, active at `i2`, closed at `i3`: they add up iff what was recorded between
   * the loads equals what stood between its two updates when active was loaded.
   */
  lemma LoadsAddUpIff(trace: seq<Tcp.State>, acts: seq<Tcp.Action>, p: nat, i1: nat, i2: nat, i3: nat)
    requires Tcp.Run(trace, acts) && i1 <= i2 <= i3 < |trace| && p < |trace[i1].ports|
    ensures |trace[i1].ports| == |trace[i2].ports| == |trace[i3].ports| == |trace[i2].listeners|
    ensures trace[i1].ports[p].accepted == trace[i2].ports[p].active + trace[i3].ports[p].closed
            <==> AcceptsIn(acts, p, i1, i2) + ClosesIn(trace, acts, p, i2, i3) == InTransition(trace[i2], p)
  {
    CountsGrow(trace, acts, p, i1, i2);
    CountsGrow(trace, acts, p, i2, i3);
    Tcp.TcpLedger(trace, acts, i2, p);
  }

  // ----- the same for a snapshot -----

  /** The worlds show the TCP counters of the run; `when` says at which of its states. Others may count beside. */
  ghost predicate Shows(worlds: seq<World>, trace: seq<Tcp.State>, when: seq<nat>) {
    && |when| == |worlds|
    && (forall i | 0 <= i < |when| :: when[i] < |trace|)
    && (forall i, j | 0 <= i <= j < |when| :: when[i] <= when[j])
    && (forall i | 0 <= i < |when| :: ShowsState(worlds[i], trace[when[i]]))
  }

  ghost predicate ShowsState(w: World, s: Tcp.State) {
    && |w| == |s.ports|
    && forall p | 0 <= p < |w| ::
         && w[p].tcpAccepted == s.ports[p].accepted
         && w[p].tcpActive == s.ports[p].active
         && w[p].tcpClosed == s.ports[p].closed
  }

  /** Exactly when a snapshot of port `p` satisfies accepted = active + closed. */
  lemma SnapshotAddsUpIff(
    trace: seq<Tcp.State>, acts: seq<Tcp.Action>, worlds: seq<World>, when: seq<nat>,
    at: seq<ReadTimes>, first: nat, last: nat, p: nat)
    requires Tcp.Run(trace, acts) && Shows(worlds, trace, when) && IsReading(worlds, at, first, last) && p < |at|
    ensures var i1, i2, i3 := when[at[p].accepted], when[at[p].active], when[at[p].closed];
            var s := Reading(worlds, at, first, last)[p];
            && i1 <= i2 <= i3 <= |acts| && p < |trace[i2].listeners|
            && (s.tcpAccepted == s.tcpActive + s.tcpClosed
                <==> AcceptsIn(acts, p, i1, i2) + ClosesIn(trace, acts, p, i2, i3) == InTransition(trace[i2], p))
  {
    var r := at[p];
    assert StatsReads.InOrder(r, first, last);
    assert ShowsState(worlds[r.accepted], trace[when[r.accepted]]);
    assert ShowsState(worlds[r.active], trace[when[r.active]]);
    assert ShowsState(worlds[r.closed], trace[when[r.closed]]);
    LoadsAddUpIff(trace, acts, p, when[r.accepted], when[r.active], when[r.closed]);
  }

  // ----- every run of the listeners is an evolution of counters -----

  function Shown(s: Tcp.State): (w: World)
    ensures |w| == |s.ports|
  {
    seq(|s.ports|, p requires 0 <= p < |s.ports| =>
      PortSnapshot(p, s.ports[p].accepted, s.ports[p].active, s.ports[p].closed, 0, 0, 0, 0, 0, 0))
  }

  function AllShown(trace: seq<Tcp.State>): (worlds: seq<World>)
    ensures |worlds| == |trace| && forall i | 0 <= i < |trace| :: worlds[i] == Shown(trace[i])
  {
    seq(|trace|, i requires 0 <= i < |trace| => Shown(trace[i]))
  }

  function Instants(n: nat): (r: seq<nat>)
    ensures |r| == n && forall i | 0 <= i < n :: r[i] == i
  {
    seq(n, i => i)
  }

  /** Which port a step counts on, and how; a step that counts nothing adds 0 bytes. */
  function Counted(s: Tcp.State, a: Tcp.Action): (nat, Op) {
    match a
    case CountAccepted(l) => (l, IncAccepted)
    case CountActive(l) => (l, IncActive)
    case DropActive(k) => if k < |s.conns| then (s.conns[k].port, DecActive) else (0, AddTcpIn(0))
    case CountClosed(k) => if k < |s.conns| then (s.conns[k].port, IncClosed) else (0, AddTcpIn(0))
    case _ => (0, AddTcpIn(0))
  }

  lemma StepCounts(s: Tcp.State, a: Tcp.Action)
    requires Tcp.Enabled(s, a) && |s.ports| >= 1
    ensures WorldStep(Shown(s), Shown(Tcp.Next(s, a))) && |Tcp.Next(s, a).ports| == |s.ports|
  {
    var (p, op) := Counted(s, a);
    var w := Shown(s);
    assert Shown(Tcp.Next(s, a)) == w[p := Apply(w[p], op)];
  }

  lemma {:induction false} PortsStay(trace: seq<Tcp.State>, acts: seq<Tcp.Action>, i: nat)
    requires Tcp.Run(trace, acts) && i < |trace| && |trace[0].ports| >= 1
    ensures |trace[i].ports| == |trace[0].ports|
    decreases i
  {
    if i > 0 {
      PortsStay(trace, acts, i - 1);
      assert Tcp.Step(trace[i - 1], acts[i - 1], trace[i - 1 + 1]);
      StepCounts(trace[i - 1], acts[i - 1]);
    }
  }

  /** So the condition applies to every run of the listeners and every way to read during it. */
  lemma RunsAreEvolutions(trace: seq<Tcp.State>, acts: seq<Tcp.Action>)
    requires Tcp.Run(trace, acts) && |trace[0].ports| >= 1
    ensures Evolution(AllShown(trace)) && Shows(AllShown(trace), trace, Instants(|trace|))
  {
    var worlds := AllShown(trace);
    forall i | 0 <= i < |worlds| - 1
      ensures WorldStep(worlds[i], worlds[i + 1])
    {
      PortsStay(trace, acts, i);
      assert Tcp.Step(trace[i], acts[i], trace[i + 1]);
      StepCounts(trace[i], acts[i]);
    }
  }
}
