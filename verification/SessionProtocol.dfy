/**
 * The UDP session protocol of one listen port as a state machine.
 *
 * Any number of listener, cleaner and reply tasks share a table from client address to
 * session. A step is one atomic operation of src/udp_session.rs: a table access, a fetch_add,
 * a flag swap, a gauge update. The steps of different tasks interleave freely.
 */
module SessionProtocol {
  import opened Net
  import opened Counting

  /** History of one session: never listed yet, in the table, or removed from it. */
  datatype Life = Fresh | Listed | Gone

  datatype Session = Session(
    id: nat, source: SocketAddr, lastActive: nat, closed: bool, cancelled: bool, life: Life)

  /** What `cleanup_loop`, `shutdown_all` and a reply task hand to `remove_session`. */
  datatype Pair = Pair(source: SocketAddr, id: nat)

  datatype Role = Listener | Cleaner | Replier

  /** Where a task stands. A handle `h` is an index into `State.sessions` (an `Arc<UdpSession>`). */
  datatype Pc =
    | Serving                                  // listener, between two datagrams
    | Missed(source: SocketAddr)               // lookup found nothing
    | GotId(source: SocketAddr, id: nat)       // fetch_add done
    | Built(h: nat)                            // session allocated, entry not taken yet
    | Inserted(h: nat)                         // entry inserted, open not recorded
    | Opened(h: nat)                           // open recorded, reply task not spawned
    | Waiting                                  // cleaner, before the next tick
    | Receiving(h: nat)                        // reply loop
    | Collecting(sampled: nat, shard: nat, found: set<Pair>)
    | Evicting(todo: set<Pair>)                // before the next remove_if
    | Removed(h: nat, todo: set<Pair>)         // remove_if took the session out
    | Cancelled(h: nat, todo: set<Pair>)       // its token is cancelled
    | Marked(h: nat, todo: set<Pair>)          // mark_closed returned true
    | Stopped

  datatype Task = Task(role: Role, pc: Pc)

  /** Idle timeout in whole seconds and the sharding of the concurrent map. */
  datatype Config = Config(timeout: nat, shards: nat, shardOf: SocketAddr -> nat)

  datatype State = State(
    sessions: seq<Session>,        // every session ever allocated
    table: map<SocketAddr, nat>,
    nextId: nat,
    gauge: nat,                    // udp_active_flows
    lost: nat,                     // history: decrements that found the gauge at 0
    now: nat,                      // wall clock, whole seconds
    shutdown: bool,
    tasks: seq<Task>)

  /** Steps that change nothing but a program counter. */
  datatype LocalStep =
    | Lookup(source: SocketAddr)
    | SocketFailed
    | StopServing
    | Tick
    | CollectShard
    | EndCollect
    | ReplyExit
    | CleanerExit
    | EndEvict

  datatype Action =
    | SetClock(now: nat)
    | Touch(h: nat, reading: nat)
    | Shutdown
    | Local(t: nat, step: LocalStep)
    | Enter(t: nat, reading: nat)
    | RemoveIf(t: nat, pair: Pair)
    | Advance(t: nat)                          // the one operation it stands before

  /** The filter of `cleanup_loop`. */
  predicate IsStale(timeout: nat, sampled: nat, lastActive: nat) {
    SaturatingSub(sampled, lastActive) >= timeout
  }

  predicate HasHandle(pc: Pc) {
    pc.Built? || pc.Inserted? || pc.Opened? || pc.Receiving? || pc.Removed? || pc.Cancelled? || pc.Marked?
  }

  /** References are never dangling. */
  ghost predicate Typed(s: State) {
    && (forall i | 0 <= i < |s.tasks| && HasHandle(s.tasks[i].pc) :: s.tasks[i].pc.h < |s.sessions|)
    && (forall a | a in s.table :: s.table[a] < |s.sessions|)
  }

  predicate At(s: State, t: nat) {
    t < |s.tasks|
  }

  ghost predicate LocalEnabled(c: Config, s: State, pc: Pc, step: LocalStep) {
    match step
    case Lookup(_) => pc.Serving?
    case SocketFailed => pc.Missed?
    case StopServing => pc.Serving? && s.shutdown
    case Tick => pc.Waiting?
    case CollectShard => pc.Collecting? && pc.shard < c.shards
    case EndCollect => pc.Collecting? && pc.shard >= c.shards
    case ReplyExit => pc.Receiving?
    case CleanerExit => pc.Waiting? && s.shutdown
    case EndEvict => pc.Evicting? && pc.todo == {}
  }

  predicate CanAdvance(pc: Pc) {
    pc.Missed? || pc.GotId? || pc.Inserted? || pc.Opened? || pc.Removed? || pc.Cancelled? || pc.Marked?
  }

  ghost predicate Enabled(c: Config, s: State, a: Action) {
    match a
    case SetClock(_) => true
    case Touch(h, _) => h < |s.sessions|
    case Shutdown => true
    case Local(t, step) => At(s, t) && LocalEnabled(c, s, s.tasks[t].pc, step)
    case Enter(t, _) => At(s, t) && s.tasks[t].pc.Built?
    case RemoveIf(t, p) => At(s, t) && s.tasks[t].pc.Evicting? && p in s.tasks[t].pc.todo
    case Advance(t) => At(s, t) && CanAdvance(s.tasks[t].pc)
  }

  function SetPc(s: State, t: nat, pc: Pc): State
    requires t < |s.tasks|
  {
    s.(tasks := s.tasks[t := s.tasks[t].(pc := pc)])
  }

  function SetSession(s: State, h: nat, x: Session): State
    requires h < |s.sessions|
  {
    s.(sessions := s.sessions[h := x])
  }

  /** The pairs one shard contributes: every entry for `shutdown_all`, the stale ones for the cleaner. */
  ghost function ShardPairs(c: Config, s: State, role: Role, sampled: nat, shard: nat): set<Pair>
    requires Typed(s)
  {
    set a | a in s.table && c.shardOf(a) == shard
            && (role.Cleaner? ==> IsStale(c.timeout, sampled, s.sessions[s.table[a]].lastActive))
      :: Pair(a, s.sessions[s.table[a]].id)
  }

  /** The guard of `remove_session`: the entry exists and still carries this id. */
  ghost predicate Hits(s: State, p: Pair)
    requires Typed(s)
  {
    p.source in s.table && s.sessions[s.table[p.source]].id == p.id
  }

  // ----- the atomic operations that change more than a program counter -----

  function FetchIdOp(s: State, t: nat): State
    requires At(s, t) && s.tasks[t].pc.Missed?
  {
    SetPc(s.(nextId := s.nextId + 1), t, GotId(s.tasks[t].pc.source, s.nextId))
  }

  function BuildOp(s: State, t: nat): State
    requires At(s, t) && s.tasks[t].pc.GotId?
  {
    var pc := s.tasks[t].pc;
    SetPc(s.(sessions := s.sessions + [Session(pc.id, pc.source, s.now, false, false, Fresh)]), t, Built(|s.sessions|))
  }

  function TouchOp(s: State, h: nat, reading: nat): State
    requires h < |s.sessions|
  {
    SetSession(s, h, s.sessions[h].(lastActive := reading))
  }

  /** `Entry::Vacant`: insert under the entry lock. */
  function InsertOp(s: State, t: nat): State
    requires At(s, t) && s.tasks[t].pc.Built? && s.tasks[t].pc.h < |s.sessions|
  {
    var h := s.tasks[t].pc.h;
    SetPc(SetSession(s, h, s.sessions[h].(life := Listed)).(table := s.table[s.sessions[h].source := h]),
          t, Inserted(h))
  }

  function SpawnOp(s: State, t: nat): State
    requires At(s, t) && s.tasks[t].pc.Opened?
  {
    s.(tasks := s.tasks[t := s.tasks[t].(pc := Serving)] + [Task(Replier, Receiving(s.tasks[t].pc.h))])
  }

  /** A `remove_if` whose guard held. */
  function RemoveOp(s: State, t: nat, source: SocketAddr, rest: set<Pair>): State
    requires At(s, t) && source in s.table && s.table[source] < |s.sessions|
  {
    var h := s.table[source];
    SetPc(SetSession(s, h, s.sessions[h].(life := Gone)).(table := s.table - {source}), t, Removed(h, rest))
  }

  function CancelOp(s: State, t: nat): State
    requires At(s, t) && s.tasks[t].pc.Removed? && s.tasks[t].pc.h < |s.sessions|
  {
    var pc := s.tasks[t].pc;
    SetPc(SetSession(s, pc.h, s.sessions[pc.h].(cancelled := true)), t, Cancelled(pc.h, pc.todo))
  }

  /** `closed.swap(true)`: only the caller that saw `false` goes on to record the close. */
  function MarkOp(s: State, t: nat): State
    requires At(s, t) && s.tasks[t].pc.Cancelled? && s.tasks[t].pc.h < |s.sessions|
  {
    var pc := s.tasks[t].pc;
    SetPc(SetSession(s, pc.h, s.sessions[pc.h].(closed := true)), t,
          if s.sessions[pc.h].closed then Evicting(pc.todo) else Marked(pc.h, pc.todo))
  }

  /** `record_udp_flow_open`. */
  function OpenOp(s: State, t: nat): State
    requires At(s, t) && s.tasks[t].pc.Inserted?
  {
    SetPc(s.(gauge := s.gauge + 1), t, Opened(s.tasks[t].pc.h))
  }

  /** `record_udp_flow_close`: a decrement that saturates at 0. */
  function CloseOp(s: State, t: nat): State
    requires At(s, t) && s.tasks[t].pc.Marked?
  {
    SetPc(s.(gauge := SaturatingSub(s.gauge, 1), lost := s.lost + Bit(s.gauge == 0)), t, Evicting(s.tasks[t].pc.todo))
  }

  ghost function AdvanceOp(s: State, t: nat): State
    requires Typed(s) && At(s, t) && CanAdvance(s.tasks[t].pc)
  {
    match s.tasks[t].pc
    case Missed(_) => FetchIdOp(s, t)
    case GotId(_, _) => BuildOp(s, t)
    case Inserted(_) => OpenOp(s, t)
    case Opened(_) => SpawnOp(s, t)
    case Removed(_, _) => CancelOp(s, t)
    case Cancelled(_, _) => MarkOp(s, t)
    case Marked(_, _) => CloseOp(s, t)
  }

  ghost function LocalPc(c: Config, s: State, task: Task, step: LocalStep): Pc
    requires Typed(s) && LocalEnabled(c, s, task.pc, step)
    requires HasHandle(task.pc) ==> task.pc.h < |s.sessions|
  {
    var pc := task.pc;
    match step
    case Lookup(source) => if source in s.table then Serving else Missed(source)
    case SocketFailed => Serving
    case StopServing => Collecting(s.now, 0, {})
    case Tick => Collecting(s.now, 0, {})
    case CollectShard =>
      Collecting(pc.sampled, pc.shard + 1, pc.found + ShardPairs(c, s, task.role, pc.sampled, pc.shard))
    case EndCollect => Evicting(pc.found)
    case ReplyExit => Evicting({Pair(s.sessions[pc.h].source, s.sessions[pc.h].id)})
    case CleanerExit => Stopped
    case EndEvict => if task.role.Cleaner? then Waiting else Stopped
  }

  ghost function Next(c: Config, s: State, a: Action): State
    requires Typed(s) && Enabled(c, s, a)
  {
    match a
    case SetClock(now) => s.(now := now)
    case Touch(h, reading) => TouchOp(s, h, reading)
    case Shutdown => s.(shutdown := true)
    case Local(t, step) => SetPc(s, t, LocalPc(c, s, s.tasks[t], step))
    case Enter(t, reading) =>
      var source := s.sessions[s.tasks[t].pc.h].source;
      if source in s.table then SetPc(TouchOp(s, s.table[source], reading), t, Serving) else InsertOp(s, t)
    case RemoveIf(t, p) =>
      var rest := s.tasks[t].pc.todo - {p};
      if Hits(s, p) then RemoveOp(s, t, p.source, rest) else SetPc(s, t, Evicting(rest))
    case Advance(t) => AdvanceOp(s, t)
  }

  ghost predicate Init(s: State) {
    && s.sessions == [] && s.table == map[] && s.nextId == 1 && s.gauge == 0 && s.lost == 0 && !s.shutdown
    && forall i | 0 <= i < |s.tasks| :: s.tasks[i] == Task(Listener, Serving) || s.tasks[i] == Task(Cleaner, Waiting)
  }

  ghost predicate Step(c: Config, s: State, a: Action, s': State) {
    Typed(s) && Enabled(c, s, a) && s' == Next(c, s, a)
  }

  /** A run: any number of tasks, any interleaving. */
  ghost predicate Run(c: Config, trace: seq<State>, acts: seq<Action>) {
    && |trace| == |acts| + 1
    && Init(trace[0])
    && forall i | 0 <= i < |acts| :: Step(c, trace[i], acts[i], trace[i + 1])
  }

  // ----- the inductive invariant -----

  /** Ids are below the counter and distinct; only a removed session is closed or cancelled. */
  ghost predicate SessionsInv(s: State) {
    && (forall h | 0 <= h < |s.sessions| :: s.sessions[h].id < s.nextId)
    && (forall h, k | 0 <= h < k < |s.sessions| :: s.sessions[h].id != s.sessions[k].id)
    && (forall h | 0 <= h < |s.sessions| && !s.sessions[h].life.Gone? ::
          !s.sessions[h].closed && !s.sessions[h].cancelled)
  }

  /** The table lists exactly the `Listed` sessions, each under its own source. */
  ghost predicate TableInv(s: State)
    requires Typed(s)
  {
    && (forall a | a in s.table :: s.sessions[s.table[a]].source == a && s.sessions[s.table[a]].life.Listed?)
    && (forall h | 0 <= h < |s.sessions| && s.sessions[h].life.Listed? ::
          s.sessions[h].source in s.table && s.table[s.sessions[h].source] == h)
  }

  ghost predicate TaskOk(s: State, pc: Pc)
    requires HasHandle(pc) ==> pc.h < |s.sessions|
  {
    && (pc.GotId? ==> pc.id < s.nextId && forall h | 0 <= h < |s.sessions| :: s.sessions[h].id != pc.id)
    && (pc.Built? ==> s.sessions[pc.h].life.Fresh?)
    && (pc.Inserted? || pc.Opened? || pc.Receiving? ==> !s.sessions[pc.h].life.Fresh?)
    && (pc.Removed? || pc.Cancelled? ==> s.sessions[pc.h].life.Gone? && !s.sessions[pc.h].closed)
  }

  ghost predicate TasksInv(s: State)
    requires Typed(s)
  {
    forall i | 0 <= i < |s.tasks| :: TaskOk(s, s.tasks[i].pc)
  }

  /** What a task holds that no other task may hold. */
  datatype Claim = Id(id: nat) | Owner(h: nat) | Opener(h: nat) | Nothing

  function ClaimOf(pc: Pc): Claim {
    match pc
    case GotId(_, id) => Id(id)
    case Built(h) => Owner(h)
    case Inserted(h) => Opener(h)
    case Removed(h, _) => Owner(h)
    case Cancelled(h, _) => Owner(h)
    case _ => Nothing
  }

  ghost predicate Exclusive(tasks: seq<Task>) {
    forall i, j | 0 <= i < j < |tasks| :: ClaimOf(tasks[i].pc).Nothing? || ClaimOf(tasks[i].pc) != ClaimOf(tasks[j].pc)
  }

  /** Everything but the gauge. */
  ghost predicate Shape(s: State) {
    Typed(s) && SessionsInv(s) && TableInv(s) && TasksInv(s) && Exclusive(s.tasks)
  }

  predicate OpenPending(x: Task) { x.pc.Inserted? }

  predicate ClosePending(x: Task) { x.pc.Removed? || x.pc.Cancelled? || x.pc.Marked? }

  /** Exact accounting of the gauge, with the saturated decrements as the only error term. */
  ghost predicate GaugeInv(s: State) {
    s.gauge + Count(s.tasks, OpenPending) == |s.table| + Count(s.tasks, ClosePending) + s.lost
  }

  ghost predicate Inv(s: State) {
    Shape(s) && GaugeInv(s)
  }

  lemma InitInv(s: State)
    requires Init(s)
    ensures Inv(s)
  {
    assert forall i | 0 <= i < |s.tasks| :: ClaimOf(s.tasks[i].pc) == Nothing;
    CountZero(s.tasks, OpenPending);
    CountZero(s.tasks, ClosePending);
  }

  // ----- preservation of the shape, one kind of step at a time -----

  lemma ExclusiveUpdate(tasks: seq<Task>, t: nat, x: Task)
    requires t < |tasks| && Exclusive(tasks)
    requires ClaimOf(x.pc).Nothing? || forall j | 0 <= j < |tasks| && j != t :: ClaimOf(tasks[j].pc) != ClaimOf(x.pc)
    ensures Exclusive(tasks[t := x])
  {
  }

  /** A program counter that carries no obligation of its own. */
  predicate Harmless(before: Pc, after: Pc) {
    && ClaimOf(after).Nothing?
    && (HasHandle(after) ==> HasHandle(before) && after.h == before.h && (after.Marked? || before.Inserted?))
  }

  lemma PcShape(s: State, s': State, t: nat, pc: Pc)
    requires Shape(s) && At(s, t) && Harmless(s.tasks[t].pc, pc)
    requires s'.sessions == s.sessions && s'.table == s.table && s'.nextId == s.nextId
    requires s'.tasks == s.tasks[t := Task(s.tasks[t].role, pc)]
    ensures Shape(s')
  {
    ExclusiveUpdate(s.tasks, t, Task(s.tasks[t].role, pc));
  }

  lemma TouchShape(s: State, h: nat, reading: nat)
    requires Shape(s) && h < |s.sessions|
    ensures Shape(TouchOp(s, h, reading))
  {
  }

  lemma FetchIdShape(s: State, t: nat)
    requires Shape(s) && At(s, t) && s.tasks[t].pc.Missed?
    ensures Shape(FetchIdOp(s, t))
  {
    ExclusiveUpdate(s.tasks, t, FetchIdOp(s, t).tasks[t]);
  }

  lemma BuildShape(s: State, t: nat)
    requires Shape(s) && At(s, t) && s.tasks[t].pc.GotId?
    ensures Shape(BuildOp(s, t))
  {
    ExclusiveUpdate(s.tasks, t, BuildOp(s, t).tasks[t]);
  }

  lemma InsertShape(s: State, t: nat)
    requires Shape(s) && At(s, t) && s.tasks[t].pc.Built? && s.sessions[s.tasks[t].pc.h].source !in s.table
    ensures Shape(InsertOp(s, t))
  {
    var s' := InsertOp(s, t);
    assert TaskOk(s, s.tasks[t].pc);
    forall j | 0 <= j < |s.tasks| && j != t
      ensures ClaimOf(s.tasks[j].pc) != Owner(s.tasks[t].pc.h) && ClaimOf(s.tasks[j].pc) != Opener(s.tasks[t].pc.h)
    {
      assert TaskOk(s, s.tasks[j].pc);
    }
    ExclusiveUpdate(s.tasks, t, s'.tasks[t]);
    forall i | 0 <= i < |s'.tasks|
      ensures TaskOk(s', s'.tasks[i].pc)
    {
      assert i != t ==> TaskOk(s, s.tasks[i].pc);
    }
  }

  lemma SpawnShape(s: State, t: nat)
    requires Shape(s) && At(s, t) && s.tasks[t].pc.Opened?
    ensures Shape(SpawnOp(s, t))
  {
    ExclusiveUpdate(s.tasks, t, SpawnOp(s, t).tasks[t]);
  }

  lemma RemoveShape(s: State, t: nat, source: SocketAddr, rest: set<Pair>)
    requires Shape(s) && At(s, t) && s.tasks[t].pc.Evicting? && source in s.table
    ensures Shape(RemoveOp(s, t, source, rest))
  {
    ExclusiveUpdate(s.tasks, t, RemoveOp(s, t, source, rest).tasks[t]);
  }

  lemma CancelShape(s: State, t: nat)
    requires Shape(s) && At(s, t) && s.tasks[t].pc.Removed?
    ensures Shape(CancelOp(s, t))
  {
    ExclusiveUpdate(s.tasks, t, CancelOp(s, t).tasks[t]);
  }

  lemma MarkShape(s: State, t: nat)
    requires Shape(s) && At(s, t) && s.tasks[t].pc.Cancelled?
    ensures Shape(MarkOp(s, t))
  {
    var s' := MarkOp(s, t);
    assert TaskOk(s, s.tasks[t].pc);
    assert s'.tasks[t].pc.Marked?;
    ExclusiveUpdate(s.tasks, t, s'.tasks[t]);
    forall i | 0 <= i < |s'.tasks|
      ensures TaskOk(s', s'.tasks[i].pc)
    {
      assert i != t ==> TaskOk(s, s.tasks[i].pc) && ClaimOf(s.tasks[i].pc) != Owner(s.tasks[t].pc.h);
    }
  }

  lemma LocalHarmless(c: Config, s: State, task: Task, step: LocalStep)
    requires Typed(s) && LocalEnabled(c, s, task.pc, step)
    requires HasHandle(task.pc) ==> task.pc.h < |s.sessions|
    ensures !HasHandle(LocalPc(c, s, task, step)) && Harmless(task.pc, LocalPc(c, s, task, step))
    ensures !OpenPending(task) && !ClosePending(task)
  {
  }

  lemma ShapeStep(c: Config, s: State, a: Action)
    requires Shape(s) && Enabled(c, s, a)
    ensures Shape(Next(c, s, a))
  {
    match a
    case SetClock(_) =>
    case Touch(h, reading) => TouchShape(s, h, reading);
    case Shutdown =>
    case Local(t, step) =>
      LocalHarmless(c, s, s.tasks[t], step);
      PcShape(s, SetPc(s, t, LocalPc(c, s, s.tasks[t], step)), t, LocalPc(c, s, s.tasks[t], step));
    case Enter(t, reading) => EnterShape(c, s, t, reading);
    case RemoveIf(t, p) =>
      var rest := s.tasks[t].pc.todo - {p};
      if Hits(s, p) {
        RemoveShape(s, t, p.source, rest);
      } else {
        PcShape(s, SetPc(s, t, Evicting(rest)), t, Evicting(rest));
      }
    case Advance(t) => AdvanceShape(s, t);
  }

  lemma AdvanceShape(s: State, t: nat)
    requires Shape(s) && At(s, t) && CanAdvance(s.tasks[t].pc)
    ensures Shape(AdvanceOp(s, t))
  {
    match s.tasks[t].pc
    case Missed(_) => FetchIdShape(s, t);
    case GotId(_, _) => BuildShape(s, t);
    case Inserted(h) => PcShape(s, OpenOp(s, t), t, Opened(h));
    case Opened(_) => SpawnShape(s, t);
    case Removed(_, _) => CancelShape(s, t);
    case Cancelled(_, _) => MarkShape(s, t);
    case Marked(_, todo) => PcShape(s, CloseOp(s, t), t, Evicting(todo));
  }

  lemma EnterShape(c: Config, s: State, t: nat, reading: nat)
    requires Shape(s) && Enabled(c, s, Enter(t, reading))
    ensures Shape(Next(c, s, Enter(t, reading)))
  {
    var source := s.sessions[s.tasks[t].pc.h].source;
    if source in s.table {
      var u := TouchOp(s, s.table[source], reading);
      TouchShape(s, s.table[source], reading);
      PcShape(u, SetPc(u, t, Serving), t, Serving);
    } else {
      InsertShape(s, t);
    }
  }

  lemma GaugeUpdate(s: State, s': State, t: nat, x: Task)
    requires GaugeInv(s) && At(s, t) && s'.tasks == s.tasks[t := x]
    requires s'.gauge + Bit(OpenPending(x)) + |s.table| + Bit(ClosePending(s.tasks[t])) + s.lost
          == s.gauge + Bit(OpenPending(s.tasks[t])) + |s'.table| + Bit(ClosePending(x)) + s'.lost
    ensures GaugeInv(s')
  {
    CountUpdate(s.tasks, t, x, OpenPending);
    CountUpdate(s.tasks, t, x, ClosePending);
  }

  /** `mark_closed` inside `remove_session` always returns true. */
  lemma MarkClosedReturnsTrue(s: State, t: nat)
    requires Shape(s) && At(s, t) && s.tasks[t].pc.Cancelled?
    ensures !s.sessions[s.tasks[t].pc.h].closed
    ensures MarkOp(s, t).tasks[t].pc.Marked?
  {
    assert TaskOk(s, s.tasks[t].pc);
  }

  lemma LocalGauge(c: Config, s: State, t: nat, step: LocalStep)
    requires Inv(s) && At(s, t) && LocalEnabled(c, s, s.tasks[t].pc, step)
    ensures GaugeInv(SetPc(s, t, LocalPc(c, s, s.tasks[t], step)))
  {
    var pc := LocalPc(c, s, s.tasks[t], step);
    LocalHarmless(c, s, s.tasks[t], step);
    GaugeUpdate(s, SetPc(s, t, pc), t, Task(s.tasks[t].role, pc));
  }

  lemma EnterGauge(c: Config, s: State, t: nat, reading: nat)
    requires Inv(s) && Enabled(c, s, Enter(t, reading))
    ensures GaugeInv(Next(c, s, Enter(t, reading)))
  {
    var source := s.sessions[s.tasks[t].pc.h].source;
    if source in s.table {
      var u := TouchOp(s, s.table[source], reading);
      GaugeUpdate(u, SetPc(u, t, Serving), t, Task(s.tasks[t].role, Serving));
    } else {
      GaugeUpdate(s, InsertOp(s, t), t, InsertOp(s, t).tasks[t]);
    }
  }

  lemma SpawnGauge(s: State, t: nat)
    requires Inv(s) && At(s, t) && s.tasks[t].pc.Opened?
    ensures GaugeInv(SpawnOp(s, t))
  {
    var mid := SetPc(s, t, Serving);
    var reply := Task(Replier, Receiving(s.tasks[t].pc.h));
    GaugeUpdate(s, mid, t, mid.tasks[t]);
    CountAppend(mid.tasks, reply, OpenPending);
    CountAppend(mid.tasks, reply, ClosePending);
  }

  lemma RemoveGauge(s: State, t: nat, p: Pair)
    requires Inv(s) && At(s, t) && s.tasks[t].pc.Evicting?
    ensures var rest := s.tasks[t].pc.todo - {p};
            GaugeInv(if Hits(s, p) then RemoveOp(s, t, p.source, rest) else SetPc(s, t, Evicting(rest)))
  {
    var rest := s.tasks[t].pc.todo - {p};
    if Hits(s, p) {
      assert (s.table - {p.source}).Keys == s.table.Keys - {p.source};
      GaugeUpdate(s, RemoveOp(s, t, p.source, rest), t, RemoveOp(s, t, p.source, rest).tasks[t]);
    } else {
      GaugeUpdate(s, SetPc(s, t, Evicting(rest)), t, Task(s.tasks[t].role, Evicting(rest)));
    }
  }

  lemma AdvanceGauge(s: State, t: nat)
    requires Inv(s) && At(s, t) && CanAdvance(s.tasks[t].pc)
    ensures GaugeInv(AdvanceOp(s, t))
  {
    match s.tasks[t].pc
    case Missed(_) => GaugeUpdate(s, FetchIdOp(s, t), t, FetchIdOp(s, t).tasks[t]);
    case GotId(_, _) => GaugeUpdate(s, BuildOp(s, t), t, BuildOp(s, t).tasks[t]);
    case Inserted(_) => GaugeUpdate(s, OpenOp(s, t), t, OpenOp(s, t).tasks[t]);
    case Opened(_) => SpawnGauge(s, t);
    case Removed(_, _) => GaugeUpdate(s, CancelOp(s, t), t, CancelOp(s, t).tasks[t]);
    case Cancelled(_, _) =>
      MarkClosedReturnsTrue(s, t);
      GaugeUpdate(s, MarkOp(s, t), t, MarkOp(s, t).tasks[t]);
    case Marked(_, _) => GaugeUpdate(s, CloseOp(s, t), t, CloseOp(s, t).tasks[t]);
  }

  lemma GaugeStep(c: Config, s: State, a: Action)
    requires Inv(s) && Enabled(c, s, a)
    ensures GaugeInv(Next(c, s, a))
  {
    match a
    case SetClock(_) =>
    case Touch(_, _) =>
    case Shutdown =>
    case Local(t, step) => LocalGauge(c, s, t, step);
    case Enter(t, reading) => EnterGauge(c, s, t, reading);
    case RemoveIf(t, p) => RemoveGauge(s, t, p);
    case Advance(t) => AdvanceGauge(s, t);
  }

  /** Every step of every task keeps the invariant. */
  lemma InvStep(c: Config, s: State, a: Action)
    requires Inv(s) && Enabled(c, s, a)
    ensures Inv(Next(c, s, a))
  {
    ShapeStep(c, s, a);
    GaugeStep(c, s, a);
  }

  /** Every state of every run satisfies the invariant. */
  lemma {:induction false} RunInv(c: Config, trace: seq<State>, acts: seq<Action>, i: nat)
    requires Run(c, trace, acts) && i < |trace|
    ensures Inv(trace[i])
    decreases i
  {
    if i == 0 {
      InitInv(trace[0]);
    } else {
      RunInv(c, trace, acts, i - 1);
      assert Step(c, trace[i - 1], acts[i - 1], trace[i]);
      InvStep(c, trace[i - 1], acts[i - 1]);
    }
  }
}
