/**
 * TCP admission as a state machine: one listener loop per port (src/listener/tcp.rs), any number
 * of connection tasks (src/forward/tcp.rs), one semaphore for all of them (src/runtime.rs).
 */
module TcpAdmission {
  import opened Counting

  /** A listener loop. `Accepting` up to `Recorded` hold a permit. */
  datatype ListenerPc =
    | Acquiring      // first select
    | Accepting      // second select
    | Got            // stream accepted, nothing recorded
    | Counted        // tcp_accepted incremented
    | Recorded       // tcp_active incremented, task not spawned
    | Joining        // loop left
    | Done

  /** A connection task. It holds its permit until `Finished`. */
  datatype ConnPc =
    | Proxying
    | Closing        // select over, close not recorded
    | HalfClosed     // tcp_active decremented
    | Releasing      // tcp_closed incremented
    | Finished

  datatype Conn = Conn(port: nat, pc: ConnPc)

  datatype PortCounts = PortCounts(accepted: nat, active: nat, closed: nat, lost: nat)

  datatype State = State(
    max: nat,
    available: nat,
    semaphoreClosed: bool,
    cancelled: bool,
    listeners: seq<ListenerPc>,
    conns: seq<Conn>,
    ports: seq<PortCounts>)

  datatype Action =
    | Cancel
    | CloseSemaphore
    | Acquire(l: nat)
    | Leave(l: nat)
    | Accept(l: nat)
    | AcceptError(l: nat)
    | LeaveWithPermit(l: nat)
    | CountAccepted(l: nat)
    | CountActive(l: nat)
    | Spawn(l: nat)
    | Join(l: nat)
    | EndProxy(k: nat)
    | DropActive(k: nat)
    | CountClosed(k: nat)
    | Release(k: nat)

  predicate Is(s: State, l: nat, pc: ListenerPc) {
    l < |s.listeners| && s.listeners[l] == pc
  }

  predicate ConnIs(s: State, k: nat, pc: ConnPc) {
    k < |s.conns| && s.conns[k].pc == pc && s.conns[k].port < |s.ports|
  }

  ghost predicate AllFinished(s: State, l: nat) {
    forall k | 0 <= k < |s.conns| && s.conns[k].port == l :: s.conns[k].pc.Finished?
  }

  ghost predicate Enabled(s: State, a: Action) {
    match a
    case Cancel => !s.cancelled
    case CloseSemaphore => s.cancelled && !s.semaphoreClosed
    case Acquire(l) => Is(s, l, Acquiring) && s.available > 0 && !s.semaphoreClosed
    case Leave(l) => Is(s, l, Acquiring) && (s.cancelled || s.semaphoreClosed)
    case Accept(l) => Is(s, l, Accepting)
    case AcceptError(l) => Is(s, l, Accepting)
    case LeaveWithPermit(l) => Is(s, l, Accepting) && s.cancelled
    case CountAccepted(l) => Is(s, l, Got) && l < |s.ports|
    case CountActive(l) => Is(s, l, Counted) && l < |s.ports|
    case Spawn(l) => Is(s, l, Recorded)
    case Join(l) => Is(s, l, Joining) && AllFinished(s, l)
    case EndProxy(k) => ConnIs(s, k, Proxying)
    case DropActive(k) => ConnIs(s, k, Closing)
    case CountClosed(k) => ConnIs(s, k, HalfClosed)
    case Release(k) => ConnIs(s, k, Releasing)
  }

  function SetListener(s: State, l: nat, pc: ListenerPc): State
    requires l < |s.listeners|
  {
    s.(listeners := s.listeners[l := pc])
  }

  function SetConn(s: State, k: nat, pc: ConnPc): State
    requires k < |s.conns|
  {
    s.(conns := s.conns[k := s.conns[k].(pc := pc)])
  }

  function SetPort(s: State, p: nat, c: PortCounts): State
    requires p < |s.ports|
  {
    s.(ports := s.ports[p := c])
  }

  ghost function Next(s: State, a: Action): State
    requires Enabled(s, a)
  {
    match a
    case Cancel => s.(cancelled := true)
    case CloseSemaphore => s.(semaphoreClosed := true)
    case Acquire(l) => SetListener(s.(available := s.available - 1), l, Accepting)
    case Leave(l) => SetListener(s, l, Joining)
    case Accept(l) => SetListener(s, l, Got)
    case AcceptError(l) => SetListener(s.(available := s.available + 1), l, Acquiring)
    case LeaveWithPermit(l) => SetListener(s.(available := s.available + 1), l, Joining)
    case CountAccepted(l) => SetListener(SetPort(s, l, s.ports[l].(accepted := s.ports[l].accepted + 1)), l, Counted)
    case CountActive(l) => SetListener(SetPort(s, l, s.ports[l].(active := s.ports[l].active + 1)), l, Recorded)
    case Spawn(l) => SetListener(s.(conns := s.conns + [Conn(l, Proxying)]), l, Acquiring)
    case Join(l) => SetListener(s, l, Done)
    case EndProxy(k) => SetConn(s, k, Closing)
    case DropActive(k) =>
      var p := s.conns[k].port;
      var c := s.ports[p];
      SetConn(SetPort(s, p, c.(active := SaturatingSub(c.active, 1), lost := c.lost + Bit(c.active == 0))),
              k, HalfClosed)
    case CountClosed(k) =>
      var p := s.conns[k].port;
      SetConn(SetPort(s, p, s.ports[p].(closed := s.ports[p].closed + 1)), k, Releasing)
    case Release(k) => SetConn(s.(available := s.available + 1), k, Finished)
  }

  ghost predicate Init(s: State) {
    && s.available == s.max && !s.semaphoreClosed && !s.cancelled && s.conns == [] && |s.ports| == |s.listeners|
    && (forall l | 0 <= l < |s.listeners| :: s.listeners[l] == Acquiring)
    && (forall p | 0 <= p < |s.ports| :: s.ports[p] == PortCounts(0, 0, 0, 0))
  }

  ghost predicate Step(s: State, a: Action, s': State) {
    Enabled(s, a) && s' == Next(s, a)
  }

  ghost predicate Run(trace: seq<State>, acts: seq<Action>) {
    && |trace| == |acts| + 1
    && Init(trace[0])
    && forall i | 0 <= i < |acts| :: Step(trace[i], acts[i], trace[i + 1])
  }

  // ----- the invariant -----

  predicate Holding(pc: ListenerPc) {
    pc.Accepting? || pc.Got? || pc.Counted? || pc.Recorded?
  }

  predicate IsAccepting(pc: ListenerPc) { pc.Accepting? }

  predicate IsRecorded(pc: ListenerPc) { pc.Recorded? }

  predicate Live(c: Conn) { !c.pc.Finished? }

  predicate Active(c: Conn) { c.pc.Proxying? || c.pc.Closing? }

  predicate Half(c: Conn) { c.pc.HalfClosed? }

  predicate ActiveOn(c: Conn, p: nat) { c.port == p && Active(c) }

  predicate HalfOn(c: Conn, p: nat) { c.port == p && Half(c) }

  function ActiveAt(p: nat): Conn -> bool {
    (c: Conn) => ActiveOn(c, p)
  }

  function HalfAt(p: nat): Conn -> bool {
    (c: Conn) => HalfOn(c, p)
  }

  /** No permit is created or lost. */
  ghost predicate Permits(s: State) {
    s.available + Count(s.listeners, Holding) + Count(s.conns, Live) == s.max
  }

  /** The counters of port `p`, exactly, between any two atomic updates. */
  ghost predicate PortOk(s: State, p: nat)
    requires p < |s.ports| && p < |s.listeners|
  {
    var c := s.ports[p];
    && c.lost == 0
    && c.active == Bit(s.listeners[p].Recorded?) + Count(s.conns, ActiveAt(p))
    && c.accepted == c.active + c.closed + Bit(s.listeners[p].Counted?) + Count(s.conns, HalfAt(p))
  }

  function ActiveOf(c: PortCounts): nat { c.active }

  /** The active connections of all ports together. */
  ghost predicate TotalActive(s: State) {
    Sum(s.ports, ActiveOf) == Count(s.listeners, IsRecorded) + Count(s.conns, Active)
  }

  ghost predicate Inv(s: State) {
    && |s.ports| == |s.listeners|
    && (forall k | 0 <= k < |s.conns| :: s.conns[k].port < |s.ports|)
    && Permits(s)
    && (forall p | 0 <= p < |s.ports| :: PortOk(s, p))
    && TotalActive(s)
    && (forall l | 0 <= l < |s.listeners| && s.listeners[l].Done? :: AllFinished(s, l))
  }

  lemma {:induction false} ZeroSum(ports: seq<PortCounts>)
    requires forall p | 0 <= p < |ports| :: ports[p] == PortCounts(0, 0, 0, 0)
    ensures Sum(ports, ActiveOf) == 0
  {
    if ports != [] {
      ZeroSum(ports[..|ports| - 1]);
    }
  }

  lemma InitInv(s: State)
    requires Init(s)
    ensures Inv(s)
  {
    CountZero(s.listeners, Holding);
    CountZero(s.listeners, IsRecorded);
    ZeroSum(s.ports);
  }

  /** A listener moves without touching counters other than its own port's. */
  lemma ListenerStep(s: State, s': State, l: nat, pc: ListenerPc)
    requires Inv(s) && l < |s.listeners|
    requires s'.listeners == s.listeners[l := pc] && s'.conns == s.conns && s'.max == s.max
    requires |s'.ports| == |s.ports| && s'.ports == s.ports[l := s'.ports[l]]
    requires s'.available + Bit(Holding(pc)) == s.available + Bit(Holding(s.listeners[l]))
    requires s'.ports[l].active + Bit(s.listeners[l].Recorded?) == s.ports[l].active + Bit(pc.Recorded?)
    requires PortOk(s', l)
    requires pc.Done? ==> AllFinished(s, l)
    ensures Inv(s')
  {
    CountUpdate(s.listeners, l, pc, Holding);
    CountUpdate(s.listeners, l, pc, IsRecorded);
    SumUpdate(s.ports, l, s'.ports[l], ActiveOf);
    forall p | 0 <= p < |s'.ports|
      ensures PortOk(s', p)
    {
      assert p != l ==> PortOk(s, p);
    }
  }

  lemma SpawnPort(s: State, l: nat, p: nat)
    requires Inv(s) && Is(s, l, Recorded) && p < |s.ports|
    ensures PortOk(Next(s, Spawn(l)), p)
  {
    var c := Conn(l, Proxying);
    assert PortOk(s, p);
    CountAppend(s.conns, c, ActiveAt(p));
    CountAppend(s.conns, c, HalfAt(p));
  }

  lemma SpawnInv(s: State, l: nat)
    requires Inv(s) && Is(s, l, Recorded)
    ensures Inv(Next(s, Spawn(l)))
  {
    var s' := Next(s, Spawn(l));
    var c := Conn(l, Proxying);
    CountUpdate(s.listeners, l, Acquiring, Holding);
    CountUpdate(s.listeners, l, Acquiring, IsRecorded);
    CountAppend(s.conns, c, Live);
    CountAppend(s.conns, c, Active);
    forall p | 0 <= p < |s'.ports|
      ensures PortOk(s', p)
    {
      SpawnPort(s, l, p);
    }
  }

  /** A connection moves; only its own port's counters may change. */
  lemma ConnStep(s: State, s': State, k: nat, pc: ConnPc)
    requires Inv(s) && k < |s.conns|
    requires var x := s.conns[k].(pc := pc);
             s'.conns == s.conns[k := x] && s'.listeners == s.listeners && s'.max == s.max
             && s'.available + Bit(Live(x)) == s.available + Bit(Live(s.conns[k]))
    requires var p := s.conns[k].port;
             && |s'.ports| == |s.ports| && s'.ports == s.ports[p := s'.ports[p]]
             && s'.ports[p].lost == 0
             && s'.ports[p].active + Bit(Active(s.conns[k])) == s.ports[p].active + Bit(Active(s'.conns[k]))
             && s'.ports[p].accepted == s.ports[p].accepted
             && s'.ports[p].active + s'.ports[p].closed + Bit(Half(s'.conns[k]))
                == s.ports[p].active + s.ports[p].closed + Bit(Half(s.conns[k]))
    requires s.conns[k].pc.Finished? ==> pc.Finished?
    ensures Inv(s')
  {
    var x := s.conns[k].(pc := pc);
    var port := s.conns[k].port;
    CountUpdate(s.conns, k, x, Live);
    CountUpdate(s.conns, k, x, Active);
    SumUpdate(s.ports, port, s'.ports[port], ActiveOf);
    forall p | 0 <= p < |s'.ports|
      ensures PortOk(s', p)
    {
      assert PortOk(s, p);
      CountUpdate(s.conns, k, x, ActiveAt(p));
      CountUpdate(s.conns, k, x, HalfAt(p));
    }
  }

  /** The decrement in `record_tcp_close` never saturates. */
  lemma DropNeverSaturates(s: State, k: nat)
    requires Inv(s) && ConnIs(s, k, Closing)
    ensures s.ports[s.conns[k].port].active >= 1
  {
    assert PortOk(s, s.conns[k].port);
    CountPositive(s.conns, k, ActiveAt(s.conns[k].port));
  }

  lemma AcquireInv(s: State, l: nat)
    requires Inv(s) && Enabled(s, Acquire(l))
    ensures Inv(Next(s, Acquire(l)))
  {
    assert PortOk(s, l);
    ListenerStep(s, Next(s, Acquire(l)), l, Accepting);
  }

  lemma LeaveInv(s: State, l: nat)
    requires Inv(s) && Enabled(s, Leave(l))
    ensures Inv(Next(s, Leave(l)))
  {
    assert PortOk(s, l);
    ListenerStep(s, Next(s, Leave(l)), l, Joining);
  }

  lemma JoinInv(s: State, l: nat)
    requires Inv(s) && Enabled(s, Join(l))
    ensures Inv(Next(s, Join(l)))
  {
    assert PortOk(s, l);
    ListenerStep(s, Next(s, Join(l)), l, Done);
  }

  /** The permit goes on with the stream, or is given back. */
  lemma AcceptInv(s: State, l: nat)
    requires Inv(s) && Is(s, l, Accepting)
    ensures Inv(Next(s, Accept(l))) && Inv(Next(s, AcceptError(l)))
    ensures s.cancelled ==> Inv(Next(s, LeaveWithPermit(l)))
  {
    assert PortOk(s, l);
    ListenerStep(s, Next(s, Accept(l)), l, Got);
    ListenerStep(s, Next(s, AcceptError(l)), l, Acquiring);
    if s.cancelled {
      ListenerStep(s, Next(s, LeaveWithPermit(l)), l, Joining);
    }
  }

  lemma AcceptCountsInv(s: State, l: nat)
    requires Inv(s) && l < |s.listeners|
    ensures Enabled(s, CountAccepted(l)) ==> Inv(Next(s, CountAccepted(l)))
    ensures Enabled(s, CountActive(l)) ==> Inv(Next(s, CountActive(l)))
  {
    assert PortOk(s, l);
    match s.listeners[l]
    case Got => ListenerStep(s, Next(s, CountAccepted(l)), l, Counted);
    case Counted => ListenerStep(s, Next(s, CountActive(l)), l, Recorded);
    case _ =>
  }

  lemma ProxyInv(s: State, k: nat)
    requires Inv(s) && k < |s.conns|
    ensures Enabled(s, EndProxy(k)) ==> Inv(Next(s, EndProxy(k)))
    ensures Enabled(s, Release(k)) ==> Inv(Next(s, Release(k)))
  {
    assert PortOk(s, s.conns[k].port);
    if Enabled(s, EndProxy(k)) {
      ConnStep(s, Next(s, EndProxy(k)), k, Closing);
    }
    if Enabled(s, Release(k)) {
      ConnStep(s, Next(s, Release(k)), k, Finished);
    }
  }

  lemma CloseCountsInv(s: State, k: nat)
    requires Inv(s) && k < |s.conns|
    ensures Enabled(s, DropActive(k)) ==> Inv(Next(s, DropActive(k)))
    ensures Enabled(s, CountClosed(k)) ==> Inv(Next(s, CountClosed(k)))
  {
    assert PortOk(s, s.conns[k].port);
    if Enabled(s, DropActive(k)) {
      DropNeverSaturates(s, k);
      ConnStep(s, Next(s, DropActive(k)), k, HalfClosed);
    }
    if Enabled(s, CountClosed(k)) {
      ConnStep(s, Next(s, CountClosed(k)), k, Releasing);
    }
  }

  lemma PortsSame(s: State, s': State)
    requires Inv(s) && s'.max == s.max && s'.available == s.available
    requires s'.listeners == s.listeners && s'.conns == s.conns && s'.ports == s.ports
    ensures Inv(s')
  {
    forall p | 0 <= p < |s.ports|
      ensures PortOk(s', p)
    {
      assert PortOk(s, p);
    }
  }

  lemma InvStep(s: State, a: Action)
    requires Inv(s) && Enabled(s, a)
    ensures Inv(Next(s, a))
  {
    match a
    case Cancel => PortsSame(s, Next(s, a));
    case CloseSemaphore => PortsSame(s, Next(s, a));
    case Spawn(l) => SpawnInv(s, l);
    case CountAccepted(l) => AcceptCountsInv(s, l);
    case CountActive(l) => AcceptCountsInv(s, l);
    case EndProxy(k) => ProxyInv(s, k);
    case Release(k) => ProxyInv(s, k);
    case DropActive(k) => CloseCountsInv(s, k);
    case CountClosed(k) => CloseCountsInv(s, k);
    case Accept(l) => AcceptInv(s, l);
    case AcceptError(l) => AcceptInv(s, l);
    case LeaveWithPermit(l) => AcceptInv(s, l);
    case Acquire(l) => AcquireInv(s, l);
    case Leave(l) => LeaveInv(s, l);
    case Join(l) => JoinInv(s, l);
  }

  lemma StepKeeps(s: State, a: Action, s': State)
    requires Inv(s) && Step(s, a, s')
    ensures Inv(s')
  {
    InvStep(s, a);
  }

  lemma {:induction false} RunInv(trace: seq<State>, acts: seq<Action>, i: nat)
    requires Run(trace, acts) && i < |trace|
    ensures Inv(trace[i])
    decreases i
  {
    if i == 0 {
      InitInv(trace[0]);
    } else {
      RunInv(trace, acts, i - 1);
      assert Step(trace[i - 1], acts[i - 1], trace[i - 1 + 1]);
      StepKeeps(trace[i - 1], acts[i - 1], trace[i]);
    }
  }

  // ----- what every run guarantees -----

  /** Available permits, listeners holding one and live connections always add up to the cap. */
  lemma PermitConservation(trace: seq<State>, acts: seq<Action>, i: nat)
    requires Run(trace, acts) && i < |trace|
    ensures var s := trace[i]; s.available + Count(s.listeners, Holding) + Count(s.conns, Live) == s.max
  {
    RunInv(trace, acts, i);
  }

  lemma {:induction false} CountBound(listeners: seq<ListenerPc>)
    ensures Count(listeners, IsAccepting) + Count(listeners, IsRecorded) <= Count(listeners, Holding)
  {
    if listeners != [] {
      CountBound(listeners[..|listeners| - 1]);
    }
  }

  lemma {:induction false} ActiveIsLive(conns: seq<Conn>)
    ensures Count(conns, Active) <= Count(conns, Live)
  {
    if conns != [] {
      ActiveIsLive(conns[..|conns| - 1]);
    }
  }

  /** The recorded active connections of all ports and the listeners waiting in accept fit under the cap. */
  lemma ActiveNeverExceedsCap(trace: seq<State>, acts: seq<Action>, i: nat)
    requires Run(trace, acts) && i < |trace|
    ensures var s := trace[i]; Sum(s.ports, ActiveOf) + Count(s.listeners, IsAccepting) <= s.max
  {
    RunInv(trace, acts, i);
    CountBound(trace[i].listeners);
    ActiveIsLive(trace[i].conns);
  }

  /** accepted = active + closed + half-recorded accepts + half-recorded closes, and nothing saturates. */
  lemma TcpLedger(trace: seq<State>, acts: seq<Action>, i: nat, p: nat)
    requires Run(trace, acts) && i < |trace| && p < |trace[i].ports|
    ensures |trace[i].listeners| == |trace[i].ports|
    ensures var s := trace[i];
            && s.ports[p].lost == 0
            && s.ports[p].accepted == s.ports[p].active + s.ports[p].closed
                                      + Bit(s.listeners[p].Counted?) + Count(s.conns, HalfAt(p))
  {
    RunInv(trace, acts, i);
    assert PortOk(trace[i], p);
  }

  // ----- shutdown -----

  predicate ShuttingDown(s: State) {
    s.cancelled && s.semaphoreClosed
  }

  function ListenerRank(pc: ListenerPc): nat {
    match pc
    case Accepting => 10
    case Got => 9
    case Counted => 8
    case Recorded => 7
    case Acquiring => 2
    case Joining => 1
    case Done => 0
  }

  function ConnRank(c: Conn): nat {
    match c.pc
    case Proxying => 4
    case Closing => 3
    case HalfClosed => 2
    case Releasing => 1
    case Finished => 0
  }

  /** How many steps the shutdown can still take. */
  function Remaining(s: State): nat {
    Sum(s.listeners, ListenerRank) + Sum(s.conns, ConnRank)
  }

  lemma DrainSpawn(s: State, l: nat)
    requires Enabled(s, Spawn(l))
    ensures Remaining(Next(s, Spawn(l))) < Remaining(s)
  {
    SumUpdate(s.listeners, l, Acquiring, ListenerRank);
    SumConcat(s.conns, [Conn(l, Proxying)], ConnRank);
    assert [Conn(l, Proxying)][..0] == [];
  }

  lemma DrainListener(s: State, s': State, l: nat, pc: ListenerPc)
    requires l < |s.listeners| && ListenerRank(pc) < ListenerRank(s.listeners[l])
    requires s'.listeners == s.listeners[l := pc] && s'.conns == s.conns
    ensures Remaining(s') < Remaining(s)
  {
    SumUpdate(s.listeners, l, pc, ListenerRank);
  }

  lemma DrainConn(s: State, s': State, k: nat, pc: ConnPc)
    requires k < |s.conns| && ConnRank(Conn(s.conns[k].port, pc)) < ConnRank(s.conns[k])
    requires s'.listeners == s.listeners && s'.conns == s.conns[k := s.conns[k].(pc := pc)]
    ensures Remaining(s') < Remaining(s)
  {
    SumUpdate(s.conns, k, s.conns[k].(pc := pc), ConnRank);
  }

  lemma DrainStep(s: State, a: Action)
    requires Enabled(s, a) && ShuttingDown(s)
    ensures ShuttingDown(Next(s, a)) && Remaining(Next(s, a)) < Remaining(s)
  {
    var s' := Next(s, a);
    if a.Spawn? {
      DrainSpawn(s, a.l);
    } else if a.EndProxy? || a.DropActive? || a.CountClosed? || a.Release? {
      DrainConn(s, s', a.k, s'.conns[a.k].pc);
    } else {
      DrainListener(s, s', a.l, s'.listeners[a.l]);
    }
  }

  lemma {:induction false} ShutdownTerminates(trace: seq<State>, acts: seq<Action>, i: nat, j: nat)
    requires Run(trace, acts) && i <= j < |trace| && ShuttingDown(trace[i])
    ensures ShuttingDown(trace[j]) && Remaining(trace[j]) + (j - i) <= Remaining(trace[i])
    decreases j
  {
    if i < j {
      ShutdownTerminates(trace, acts, i, j - 1);
      assert Step(trace[j - 1], acts[j - 1], trace[j - 1 + 1]);
      DrainStep(trace[j - 1], acts[j - 1]);
    }
  }

  predicate AllDone(s: State) {
    forall l | 0 <= l < |s.listeners| :: s.listeners[l].Done?
  }

  /** A shutdown that has not finished can always go on. */
  lemma ShutdownNeverStuck(trace: seq<State>, acts: seq<Action>, i: nat)
    requires Run(trace, acts) && i < |trace| && ShuttingDown(trace[i]) && !AllDone(trace[i])
    ensures exists a :: Enabled(trace[i], a)
  {
    RunInv(trace, acts, i);
    var s := trace[i];
    var l :| 0 <= l < |s.listeners| && !s.listeners[l].Done?;
    match s.listeners[l]
    case Acquiring => assert Enabled(s, Leave(l));
    case Accepting => assert Enabled(s, Accept(l));
    case Got => assert Enabled(s, CountAccepted(l));
    case Counted => assert Enabled(s, CountActive(l));
    case Recorded => assert Enabled(s, Spawn(l));
    case Joining =>
      if AllFinished(s, l) {
        assert Enabled(s, Join(l));
      } else {
        var k :| 0 <= k < |s.conns| && s.conns[k].port == l && !s.conns[k].pc.Finished?;
        match s.conns[k].pc
        case Proxying => assert Enabled(s, EndProxy(k));
        case Closing => assert Enabled(s, DropActive(k));
        case HalfClosed => assert Enabled(s, CountClosed(k));
        case Releasing => assert Enabled(s, Release(k));
      }
  }

  /** When all listeners have joined: no active connection, accepted = closed on every port, all permits back. */
  lemma DrainedState(trace: seq<State>, acts: seq<Action>, i: nat)
    requires Run(trace, acts) && i < |trace| && AllDone(trace[i])
    ensures trace[i].available == trace[i].max
    ensures forall p | 0 <= p < |trace[i].ports| ::
              trace[i].ports[p].active == 0 && trace[i].ports[p].accepted == trace[i].ports[p].closed
  {
    RunInv(trace, acts, i);
    var s := trace[i];
    forall k | 0 <= k < |s.conns|
      ensures s.conns[k].pc.Finished?
    {
      assert AllFinished(s, s.conns[k].port);
    }
    CountZero(s.listeners, Holding);
    CountZero(s.conns, Live);
    forall p | 0 <= p < |s.ports|
      ensures s.ports[p].active == 0 && s.ports[p].accepted == s.ports[p].closed
    {
      assert PortOk(s, p);
      CountZero(s.conns, ActiveAt(p));
      CountZero(s.conns, HalfAt(p));
    }
  }

  /** A listener has left its loop only if the run is cancelled; the semaphore closes only then. */
  ghost predicate LeftAtShutdown(s: State) {
    && (s.semaphoreClosed ==> s.cancelled)
    && forall l | 0 <= l < |s.listeners| && (s.listeners[l].Joining? || s.listeners[l].Done?) :: s.cancelled
  }

  lemma LeftStep(s: State, a: Action)
    requires Enabled(s, a) && LeftAtShutdown(s)
    ensures LeftAtShutdown(Next(s, a))
    ensures Next(s, a).cancelled <==> s.cancelled || a == Cancel
    ensures Next(s, a).semaphoreClosed <==> s.semaphoreClosed || a == CloseSemaphore
  {
  }

  /** In every run a listener leaves its accept loop only at shutdown; a failed accept does not end it. */
  lemma {:induction false} LeavesOnlyAtShutdown(trace: seq<State>, acts: seq<Action>, i: nat)
    requires Run(trace, acts) && i < |trace|
    ensures LeftAtShutdown(trace[i])
    decreases i
  {
    if i > 0 {
      LeavesOnlyAtShutdown(trace, acts, i - 1);
      assert Step(trace[i - 1], acts[i - 1], trace[i - 1 + 1]);
      LeftStep(trace[i - 1], acts[i - 1]);
    }
  }

  /** The connections listener `l` accepts in steps `i..j`. */
  function Accepts(acts: seq<Action>, l: nat, i: nat, j: nat): nat
    requires i <= j <= |acts|
    decreases j - i
  {
    if i == j then 0 else Accepts(acts, l, i, j - 1) + Bit(acts[j - 1] == Accept(l))
  }

  lemma AcceptSpent(s: State, a: Action, l: nat)
    requires Enabled(s, a) && ShuttingDown(s)
    ensures Bit(a == Accept(l)) + Bit(Is(Next(s, a), l, Accepting)) <= Bit(Is(s, l, Accepting))
  {
  }

  lemma StaysShuttingDown(trace: seq<State>, acts: seq<Action>, i: nat, j: nat)
    requires Run(trace, acts) && i <= j < |trace| && ShuttingDown(trace[i])
    ensures ShuttingDown(trace[j])
  {
    ShutdownTerminates(trace, acts, i, j);
  }

  /** Accepts so far and the one still possible do not exceed the one possible at first. */
  ghost predicate WithinBudget(trace: seq<State>, acts: seq<Action>, l: nat, i: nat, j: nat)
    requires i <= j <= |acts| < |trace|
  {
    Accepts(acts, l, i, j) + Bit(Is(trace[j], l, Accepting)) <= Bit(Is(trace[i], l, Accepting))
  }

  lemma BudgetStep(trace: seq<State>, acts: seq<Action>, l: nat, i: nat, j: nat)
    requires Run(trace, acts) && i < j < |trace| && ShuttingDown(trace[i]) && WithinBudget(trace, acts, l, i, j - 1)
    ensures WithinBudget(trace, acts, l, i, j)
  {
    StaysShuttingDown(trace, acts, i, j - 1);
    assert Step(trace[j - 1], acts[j - 1], trace[j - 1 + 1]);
    AcceptSpent(trace[j - 1], acts[j - 1], l);
  }

  lemma {:induction false} AcceptBudget(trace: seq<State>, acts: seq<Action>, l: nat, i: nat, j: nat)
    requires Run(trace, acts) && i <= j < |trace| && ShuttingDown(trace[i])
    ensures WithinBudget(trace, acts, l, i, j)
    decreases j
  {
    if i < j {
      AcceptBudget(trace, acts, l, i, j - 1);
      BudgetStep(trace, acts, l, i, j);
    }
  }

  /** After cancel and close each listener accepts at most one more connection. */
  lemma AtMostOneMoreAccept(trace: seq<State>, acts: seq<Action>, l: nat, i: nat, j: nat)
    requires Run(trace, acts) && i <= j < |trace| && ShuttingDown(trace[i])
    ensures Accepts(acts, l, i, j) <= 1
    ensures !Is(trace[i], l, Accepting) ==> Accepts(acts, l, i, j) == 0
  {
    AcceptBudget(trace, acts, l, i, j);
  }

  /** Every run that goes on after cancel and close as long as it can ends drained, within `Remaining` steps. */
  lemma ShutdownDrains(trace: seq<State>, acts: seq<Action>, i: nat)
    requires Run(trace, acts) && i < |trace| && ShuttingDown(trace[i])
    requires forall a :: !Enabled(trace[|acts|], a)
    ensures |acts| - i <= Remaining(trace[i])
    ensures var s := trace[|acts|];
            && AllDone(s) && s.available == s.max
            && forall p | 0 <= p < |s.ports| :: s.ports[p].active == 0 && s.ports[p].accepted == s.ports[p].closed
  {
    ShutdownTerminates(trace, acts, i, |acts|);
    if !AllDone(trace[|acts|]) {
      ShutdownNeverStuck(trace, acts, |acts|);
    }
    DrainedState(trace, acts, |acts|);
  }
}
