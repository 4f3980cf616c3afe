/**
 * What the idle timeout promises in real time. The wall clock runs in nanoseconds; the sessions
 * store and the cleaner compares whole seconds of it, each read at its own moment.
 */
module IdleBounds {
  import opened Net
  import opened Counting
  import opened SessionProtocol
  import opened SessionTheorems
  import opened SessionShutdown

  /** `idle_timeout.as_secs()`, at least 1. */
  function TimeoutSeconds(idleTimeout: nat): (r: nat)
    ensures r >= 1 && (Span(r) <= idleTimeout < Span(r + 1) || (r == 1 && idleTimeout < Span(1)))
  {
    if Second(idleTimeout) < 1 then 1 else Second(idleTimeout)
  }

  function IntervalSeconds(timeout: nat): (r: nat)
    ensures r <= timeout && r <= 5 && (r == timeout || r == 5)
  {
    if timeout < 5 then timeout else 5
  }

  /** `as_secs` of a duration. */
  function Second(time: nat): (r: nat)
    ensures Span(r) <= time < Span(r + 1)
  {
    time / 1000000000
  }

  function Span(seconds: nat): nat {
    seconds * 1000000000
  }

  /**
   * Real moments beside a protocol state. Per session: when its clock reading was taken, and when it
   * was last stored or the session listed. Per task: its last sample and its last finished sweep.
   */
  datatype Clocks = Clocks(time: nat, touched: seq<nat>, stored: seq<nat>, sampledAt: seq<nat>, sweptAt: seq<nat>)

  ghost predicate Fits(s: State, k: Clocks) {
    |k.touched| == |k.stored| == |s.sessions| && |k.sampledAt| == |s.tasks| && |k.sweptAt| == |s.tasks|
  }

  /** At the start nothing is listed, so the starting moment counts as a finished sweep. */
  ghost predicate ClocksInit(s: State, k: Clocks) {
    && Fits(s, k) && s.now == Second(k.time)
    && forall t | 0 <= t < |s.tasks| :: k.sampledAt[t] == k.time && k.sweptAt[t] == k.time
  }

  /** The clock does not go back, and a stored reading is the whole second of an earlier moment `read`. */
  ghost predicate Agrees(k: Clocks, a: Action, read: nat) {
    match a
    case SetClock(now) => k.time <= read && now == Second(read)
    case Touch(_, reading) => read <= k.time && reading == Second(read)
    case Enter(_, reading) => read <= k.time && reading == Second(read)
    case _ => true
  }

  ghost function TrackLocal(k: Clocks, t: nat, step: LocalStep): Clocks
    requires t < |k.sampledAt| == |k.sweptAt|
  {
    match step
    case Tick => k.(sampledAt := k.sampledAt[t := k.time])
    case StopServing => k.(sampledAt := k.sampledAt[t := k.time])
    case EndEvict => k.(sweptAt := k.sweptAt[t := k.sampledAt[t]])
    case _ => k
  }

  ghost function TouchAt(k: Clocks, h: nat, read: nat): Clocks
    requires h < |k.touched| == |k.stored|
  {
    k.(touched := k.touched[h := read], stored := k.stored[h := k.time])
  }

  ghost function ListAt(k: Clocks, h: nat): Clocks
    requires h < |k.stored|
  {
    k.(stored := k.stored[h := k.time])
  }

  ghost function BuildAt(k: Clocks): Clocks {
    k.(touched := k.touched + [k.time], stored := k.stored + [k.time])
  }

  ghost function Track(c: Config, s: State, k: Clocks, a: Action, read: nat): Clocks
    requires Typed(s) && Enabled(c, s, a) && Fits(s, k)
  {
    match a
    case SetClock(_) => k.(time := read)
    case Touch(h, _) => TouchAt(k, h, read)
    case Enter(t, _) =>
      var source := s.sessions[s.tasks[t].pc.h].source;
      if source in s.table then TouchAt(k, s.table[source], read) else ListAt(k, s.tasks[t].pc.h)
    case Local(t, step) => TrackLocal(k, t, step)
    case Advance(t) =>
      if s.tasks[t].pc.GotId? then BuildAt(k)
      else if s.tasks[t].pc.Opened? then k.(sampledAt := k.sampledAt + [k.time], sweptAt := k.sweptAt + [k.time])
      else k
    case _ => k
  }

  ghost predicate TimedStep(c: Config, s: State, k: Clocks, a: Action, read: nat, s': State, k': Clocks) {
    Step(c, s, a, s') && Fits(s, k) && Agrees(k, a, read) && k' == Track(c, s, k, a, read)
  }

  /** A run of one port, with the real moment of everything that reads the clock. */
  ghost predicate TimedRun(c: Config, trace: seq<State>, acts: seq<Action>, clocks: seq<Clocks>, readings: seq<nat>) {
    && PortRun(c, trace, acts)
    && |clocks| == |trace| && |readings| == |acts|
    && ClocksInit(trace[0], clocks[0])
    && forall i | 0 <= i < |acts| ::
        TimedStep(c, trace[i], clocks[i], acts[i], readings[i], trace[i + 1], clocks[i + 1])
  }

  /** The seconds in the state are those of the moments. */
  ghost predicate ClocksInv(s: State, k: Clocks) {
    && Fits(s, k) && s.now == Second(k.time)
    && (forall h | 0 <= h < |s.sessions| :: s.sessions[h].lastActive == Second(k.touched[h]))
    && (forall h | 0 <= h < |s.sessions| :: k.touched[h] <= k.stored[h] <= k.time)
    && (forall t | 0 <= t < |s.tasks| :: k.sampledAt[t] <= k.time && k.sweptAt[t] <= k.time)
    && (forall t | 0 <= t < |s.tasks| && s.tasks[t].pc.Collecting? :: s.tasks[t].pc.sampled == Second(k.sampledAt[t]))
  }

  lemma ClocksTouch(s: State, k: Clocks, h: nat, reading: nat, read: nat)
    requires ClocksInv(s, k) && h < |s.sessions| && read <= k.time && reading == Second(read)
    ensures ClocksInv(TouchOp(s, h, reading), TouchAt(k, h, read))
  {
  }

  lemma ClocksPc(s: State, k: Clocks, t: nat, pc: Pc)
    requires ClocksInv(s, k) && At(s, t) && !pc.Collecting?
    ensures ClocksInv(SetPc(s, t, pc), k)
  {
  }

  lemma ClocksInsert(s: State, k: Clocks, t: nat)
    requires Typed(s) && ClocksInv(s, k) && At(s, t) && s.tasks[t].pc.Built?
    ensures ClocksInv(InsertOp(s, t), ListAt(k, s.tasks[t].pc.h))
  {
  }

  lemma ClocksEnter(c: Config, s: State, k: Clocks, t: nat, reading: nat, read: nat)
    requires Inv(s) && ClocksInv(s, k) && Enabled(c, s, Enter(t, reading)) && Agrees(k, Enter(t, reading), read)
    ensures ClocksInv(Next(c, s, Enter(t, reading)), Track(c, s, k, Enter(t, reading), read))
  {
    var source := s.sessions[s.tasks[t].pc.h].source;
    if source in s.table {
      ClocksTouch(s, k, s.table[source], reading, read);
      ClocksPc(TouchOp(s, s.table[source], reading), TouchAt(k, s.table[source], read), t, Serving);
    } else {
      ClocksInsert(s, k, t);
    }
  }

  lemma ClocksBuild(s: State, k: Clocks, t: nat)
    requires ClocksInv(s, k) && At(s, t) && s.tasks[t].pc.GotId?
    ensures ClocksInv(BuildOp(s, t), BuildAt(k))
  {
  }

  /** Every other operation leaves the stored readings alone. */
  lemma AdvanceKeepsReadings(s: State, t: nat)
    requires Typed(s) && At(s, t) && CanAdvance(s.tasks[t].pc) && !s.tasks[t].pc.GotId?
    ensures var s' := AdvanceOp(s, t);
            && s'.now == s.now && |s'.sessions| == |s.sessions|
            && |s'.tasks| == |s.tasks| + Bit(s.tasks[t].pc.Opened?)
            && forall h | 0 <= h < |s.sessions| :: s'.sessions[h].lastActive == s.sessions[h].lastActive
  {
  }

  lemma ClocksAdvance(c: Config, s: State, k: Clocks, t: nat)
    requires Inv(s) && ClocksInv(s, k) && At(s, t) && CanAdvance(s.tasks[t].pc)
    ensures ClocksInv(AdvanceOp(s, t), Track(c, s, k, Advance(t), 0))
  {
    if s.tasks[t].pc.GotId? {
      ClocksBuild(s, k, t);
    } else {
      AdvanceKeepsReadings(s, t);
      AdvanceTasks(s, t);
    }
  }

  lemma ClocksLocal(c: Config, s: State, k: Clocks, t: nat, step: LocalStep)
    requires Inv(s) && ClocksInv(s, k) && Enabled(c, s, Local(t, step))
    ensures ClocksInv(Next(c, s, Local(t, step)), TrackLocal(k, t, step))
  {
  }

  lemma ClocksStep(c: Config, s: State, k: Clocks, a: Action, read: nat)
    requires Inv(s) && ClocksInv(s, k) && Enabled(c, s, a) && Agrees(k, a, read)
    ensures ClocksInv(Next(c, s, a), Track(c, s, k, a, read))
  {
    match a
    case Local(t, step) => ClocksLocal(c, s, k, t, step);
    case Enter(t, reading) => ClocksEnter(c, s, k, t, reading, read);
    case Advance(t) => ClocksAdvance(c, s, k, t);
    case Touch(h, reading) => ClocksTouch(s, k, h, reading, read);
    case RemoveIf(t, p) => RemoveIfEffect(c, s, t, p);
    case _ =>
  }

  lemma TimedRunStep(
    c: Config, trace: seq<State>, acts: seq<Action>, clocks: seq<Clocks>, readings: seq<nat>, i: nat)
    requires TimedRun(c, trace, acts, clocks, readings) && i < |acts|
    ensures TimedStep(c, trace[i], clocks[i], acts[i], readings[i], trace[i + 1], clocks[i + 1])
  {
  }

  lemma TimedRunClocks(
    c: Config, trace: seq<State>, acts: seq<Action>, clocks: seq<Clocks>, readings: seq<nat>, i: nat)
    requires TimedRun(c, trace, acts, clocks, readings) && i < |acts|
    requires Inv(trace[i]) && ClocksInv(trace[i], clocks[i])
    ensures ClocksInv(trace[i + 1], clocks[i + 1])
  {
    TimedRunStep(c, trace, acts, clocks, readings, i);
    ClocksStep(c, trace[i], clocks[i], acts[i], readings[i]);
  }

  lemma {:induction false} TimedRunKeeps(
    c: Config, trace: seq<State>, acts: seq<Action>, clocks: seq<Clocks>, readings: seq<nat>, i: nat)
    requires TimedRun(c, trace, acts, clocks, readings) && i < |trace|
    ensures Inv(trace[i]) && RolesInv(trace[i]) && ClocksInv(trace[i], clocks[i])
    decreases i
  {
    PortRunKeeps(c, trace, acts, i);
    if i > 0 {
      TimedRunKeeps(c, trace, acts, clocks, readings, i - 1);
      TimedRunClocks(c, trace, acts, clocks, readings, i - 1);
    }
  }

  // ----- nobody is evicted early -----

  /** Exactly when the filter fires: T whole seconds after the second of the reading began. */
  lemma StaleIff(timeout: nat, sampled: nat, touched: nat)
    requires timeout >= 1
    ensures IsStale(timeout, Second(sampled), Second(touched)) <==> sampled >= Span(Second(touched) + timeout)
  {
  }

  /** Hence the error against real idle time is below one second, and on the early side. */
  lemma StaleIsIdle(timeout: nat, sampled: nat, touched: nat)
    requires timeout >= 1
    ensures IsStale(timeout, Second(sampled), Second(touched)) ==> sampled > touched + Span(timeout - 1)
    ensures sampled >= touched + Span(timeout) ==> IsStale(timeout, Second(sampled), Second(touched))
  {
    StaleIff(timeout, sampled, touched);
  }

  /** A session can be found stale before it was idle for T s iff it was not touched on a whole second. */
  lemma EarlyIff(timeout: nat, touched: nat)
    requires timeout >= 1
    ensures (exists sampled: nat ::
               IsStale(timeout, Second(sampled), Second(touched)) && sampled < touched + Span(timeout))
            <==> touched != Span(Second(touched))
  {
    var first := Span(Second(touched) + timeout);
    StaleIff(timeout, first, touched);
    if sampled: nat :| IsStale(timeout, Second(sampled), Second(touched)) && sampled < touched + Span(timeout) {
      StaleIff(timeout, sampled, touched);
    }
  }

  /** Neither bound can be improved: idle for T - 1 s and 1 ns is evicted, for 1 ns less than T s is not. */
  lemma StaleBoundsAreSharp(timeout: nat)
    requires timeout >= 1
    ensures exists sampled: nat, touched: nat ::
              sampled == touched + Span(timeout - 1) + 1 && IsStale(timeout, Second(sampled), Second(touched))
    ensures exists sampled: nat, touched: nat ::
              sampled + 1 == touched + Span(timeout) && !IsStale(timeout, Second(sampled), Second(touched))
  {
    var early := 999999999;
    assert Second(early) == 0 && Second(Span(timeout)) == timeout;
    assert Span(timeout) == early + Span(timeout - 1) + 1 && IsStale(timeout, Second(Span(timeout)), Second(early));
    assert Second(Span(timeout) - 1) == timeout - 1;
    assert Span(timeout) - 1 + 1 == 0 + Span(timeout) && !IsStale(timeout, Second(Span(timeout) - 1), Second(0));
  }

  /** At `moment` the filter fires for session `h`. */
  ghost predicate Due(c: Config, k: Clocks, h: nat, moment: nat)
    requires h < |k.touched|
  {
    moment >= Span(Second(k.touched[h]) + c.timeout)
  }

  /** The step looks at a listed session `id` that is due at the sample, idle for more than T - 1 s. */
  ghost predicate IdleSample(c: Config, s: State, k: Clocks, a: Action, id: nat) {
    && a.Local? && a.step.CollectShard? && a.t < |k.sampledAt| && Fits(s, k)
    && exists h: nat ::
         && InTable(s, h) && s.sessions[h].id == id && Due(c, k, h, k.sampledAt[a.t])
         && k.sampledAt[a.t] + Span(1) > k.touched[h] + Span(c.timeout)
  }

  /** One look at one entry by the cleaner, in any interleaving: it goes on the list iff it is due. */
  lemma SampleIsExact(c: Config, s: State, k: Clocks, t: nat, a: SocketAddr)
    requires Inv(s) && ClocksInv(s, k) && c.timeout >= 1 && Enabled(c, s, Local(t, CollectShard))
    requires s.tasks[t].role.Cleaner? && a in s.table && c.shardOf(a) == s.tasks[t].pc.shard
    ensures Pair(a, s.sessions[s.table[a]].id) in ShardPairs(c, s, Cleaner, s.tasks[t].pc.sampled, s.tasks[t].pc.shard)
            <==> Due(c, k, s.table[a], k.sampledAt[t])
  {
    StaleIff(c.timeout, k.sampledAt[t], k.touched[s.table[a]]);
  }

  lemma CollectIsIdle(c: Config, s: State, k: Clocks, t: nat, p: Pair)
    requires Inv(s) && ClocksInv(s, k) && c.timeout >= 1 && Enabled(c, s, Local(t, CollectShard))
    requires s.tasks[t].role.Cleaner? && p in ShardPairs(c, s, Cleaner, s.tasks[t].pc.sampled, s.tasks[t].pc.shard)
    ensures IdleSample(c, s, k, Local(t, CollectShard), p.id)
  {
    SampleIsExact(c, s, k, t, p.source);
    StaleIsIdle(c.timeout, k.sampledAt[t], k.touched[s.table[p.source]]);
    assert InTable(s, s.table[p.source]);
  }

  lemma ListedLocal(c: Config, s: State, k: Clocks, t: nat, step: LocalStep, p: Pair)
    requires Inv(s) && RolesInv(s) && ClocksInv(s, k) && c.timeout >= 1 && Enabled(c, s, Local(t, step))
    requires s.tasks[t].role.Cleaner? && p in PairsOf(LocalPc(c, s, s.tasks[t], step))
    ensures p in PairsOf(s.tasks[t].pc) || IdleSample(c, s, k, Local(t, step), p.id)
  {
    assert RoleOk(s.tasks[t]);
    if step.CollectShard? && p !in PairsOf(s.tasks[t].pc) {
      CollectIsIdle(c, s, k, t, p);
    }
  }

  /** No cleaner's list has grown. */
  ghost predicate ListsShrink(was: seq<Task>, now: seq<Task>) {
    forall t | 0 <= t < |now| && now[t].role.Cleaner? ::
      t < |was| && was[t].role.Cleaner? && PairsOf(now[t].pc) <= PairsOf(was[t].pc)
  }

  lemma EnterLists(c: Config, s: State, u: nat, reading: nat)
    requires Typed(s) && Enabled(c, s, Enter(u, reading))
    ensures ListsShrink(s.tasks, Next(c, s, Enter(u, reading)).tasks)
  {
    EnterTasks(c, s, u, reading);
  }

  lemma RemoveIfLists(c: Config, s: State, u: nat, q: Pair)
    requires Inv(s) && Enabled(c, s, RemoveIf(u, q))
    ensures ListsShrink(s.tasks, Next(c, s, RemoveIf(u, q)).tasks)
  {
    RemoveIfEffect(c, s, u, q);
  }

  lemma AdvanceLists(s: State, u: nat)
    requires Typed(s) && At(s, u) && CanAdvance(s.tasks[u].pc)
    ensures ListsShrink(s.tasks, AdvanceOp(s, u).tasks)
  {
    AdvanceTasks(s, u);
  }

  lemma OtherStepsKeepLists(c: Config, s: State, a: Action)
    requires Inv(s) && Enabled(c, s, a) && !a.Local?
    ensures ListsShrink(s.tasks, Next(c, s, a).tasks)
  {
    match a
    case Enter(u, reading) => EnterLists(c, s, u, reading);
    case RemoveIf(u, q) => RemoveIfLists(c, s, u, q);
    case Advance(u) => AdvanceLists(s, u);
    case _ =>
  }

  /** A pair gets on a cleaner's list only by such a look. */
  lemma ListedByIdleSample(c: Config, s: State, k: Clocks, a: Action, t: nat, p: Pair)
    requires Inv(s) && RolesInv(s) && ClocksInv(s, k) && c.timeout >= 1 && Enabled(c, s, a)
    requires At(Next(c, s, a), t) && Next(c, s, a).tasks[t].role.Cleaner? && p in PairsOf(Next(c, s, a).tasks[t].pc)
    ensures At(s, t) && s.tasks[t].role.Cleaner?
    ensures p in PairsOf(s.tasks[t].pc) || IdleSample(c, s, k, a, p.id)
  {
    if !a.Local? {
      OtherStepsKeepLists(c, s, a);
    } else if a.t == t {
      ListedLocal(c, s, k, t, a.step, p);
    }
  }

  /** Every session the cleaner evicts was due at an earlier look at it, idle for more than T - 1 s. */
  lemma OnlyIdleSessionsAreEvicted(
    c: Config, trace: seq<State>, acts: seq<Action>, clocks: seq<Clocks>, readings: seq<nat>, i: nat, t: nat, p: Pair)
    requires TimedRun(c, trace, acts, clocks, readings) && c.timeout >= 1 && i < |acts|
    requires acts[i] == RemoveIf(t, p) && At(trace[i], t) && trace[i].tasks[t].role.Cleaner?
    ensures exists j :: 0 <= j < i && IdleSample(c, trace[j], clocks[j], acts[j], p.id)
  {
    assert Step(c, trace[i], acts[i], trace[i + 1]);
    PairsAreJustified(c, trace, acts, clocks, readings, i, t, p);
  }

  lemma {:induction false} PairsAreJustified(
    c: Config, trace: seq<State>, acts: seq<Action>, clocks: seq<Clocks>, readings: seq<nat>, i: nat, t: nat, p: Pair)
    requires TimedRun(c, trace, acts, clocks, readings) && c.timeout >= 1 && i < |trace|
    requires At(trace[i], t) && trace[i].tasks[t].role.Cleaner? && p in PairsOf(trace[i].tasks[t].pc)
    ensures exists j :: 0 <= j < i && IdleSample(c, trace[j], clocks[j], acts[j], p.id)
    decreases i
  {
    if i > 0 {
      TimedRunKeeps(c, trace, acts, clocks, readings, i - 1);
      assert Step(c, trace[i - 1], acts[i - 1], trace[i]);
      ListedByIdleSample(c, trace[i - 1], clocks[i - 1], acts[i - 1], t, p);
      if !IdleSample(c, trace[i - 1], clocks[i - 1], acts[i - 1], p.id) {
        PairsAreJustified(c, trace, acts, clocks, readings, i - 1, t, p);
      }
    }
  }

  // ----- nobody stays for long -----

  /** The reading of session `h` was stored, and the session listed, within the timeout of the reading. */
  ghost predicate Prompt(c: Config, k: Clocks, h: nat)
    requires h < |k.touched| == |k.stored|
  {
    k.stored[h] < k.touched[h] + Span(c.timeout)
  }

  /** From when the idle time counts: the reading if it was stored promptly, else the store or listing. */
  ghost function Mark(c: Config, k: Clocks, h: nat): (m: nat)
    requires h < |k.touched| == |k.stored|
  {
    if Prompt(c, k, h) then k.touched[h] else k.stored[h]
  }

  /** Marked less than T s before `moment`, or later. */
  ghost predicate Young(c: Config, k: Clocks, h: nat, moment: nat)
    requires h < |k.touched| == |k.stored|
  {
    moment < Mark(c, k, h) + Span(c.timeout)
  }

  /** A store or a listing makes a session young at the present moment. */
  lemma StoredIsYoung(c: Config, k: Clocks, h: nat, moment: nat)
    requires h < |k.touched| == |k.stored| && c.timeout >= 1 && k.stored[h] == k.time && moment <= k.time
    ensures Young(c, k, h, moment)
  {
  }

  lemma NotDueIsYoung(c: Config, k: Clocks, h: nat, moment: nat)
    requires h < |k.touched| == |k.stored| && k.touched[h] <= k.stored[h] && !Due(c, k, h, moment)
    ensures Young(c, k, h, moment)
  {
  }

  /** How far the cleaner's sweep has come: what it has seen is young or on its list. */
  ghost predicate SweepOk(c: Config, s: State, k: Clocks, t: nat)
    requires Typed(s) && Fits(s, k) && At(s, t)
  {
    && (forall a | a in s.table :: Young(c, k, s.table[a], k.sweptAt[t]))
    && (s.tasks[t].pc.Collecting? ==>
          forall a | a in s.table && c.shardOf(a) < s.tasks[t].pc.shard ::
            Young(c, k, s.table[a], k.sampledAt[t]) || Pair(a, s.sessions[s.table[a]].id) in s.tasks[t].pc.found)
    && (HasTodo(s.tasks[t].pc) ==>
          forall a | a in s.table ::
            Young(c, k, s.table[a], k.sampledAt[t]) || Pair(a, s.sessions[s.table[a]].id) in s.tasks[t].pc.todo)
  }

  ghost predicate SweepsInv(c: Config, s: State, k: Clocks) {
    Typed(s) && Fits(s, k) && forall t | 0 <= t < |s.tasks| && s.tasks[t].role.Cleaner? :: SweepOk(c, s, k, t)
  }

  /** A step that only shrinks the table, and takes no pair off the list that still has an entry. */
  lemma SweepShrinks(c: Config, s: State, k: Clocks, s': State, t: nat)
    requires Typed(s) && Typed(s') && Fits(s, k) && Fits(s', k) && At(s, t) && At(s', t) && SweepOk(c, s, k, t)
    requires Shrinks(s, s')
    requires s'.tasks[t].pc == s.tasks[t].pc || (HasTodo(s.tasks[t].pc) && HasTodo(s'.tasks[t].pc))
    requires HasTodo(s'.tasks[t].pc) ==>
               forall p | p in s.tasks[t].pc.todo && p !in s'.tasks[t].pc.todo :: !Hits(s', p)
    ensures SweepOk(c, s', k, t)
  {
    if HasTodo(s'.tasks[t].pc) {
      forall a | a in s'.table
        ensures Young(c, k, s'.table[a], k.sampledAt[t]) || Pair(a, s'.sessions[s'.table[a]].id) in s'.tasks[t].pc.todo
      {
        assert Hits(s', Pair(a, s'.sessions[s'.table[a]].id));
      }
    }
  }

  lemma SweepCollects(c: Config, s: State, k: Clocks, t: nat)
    requires Inv(s) && ClocksInv(s, k) && c.timeout >= 1 && Enabled(c, s, Local(t, CollectShard))
    requires s.tasks[t].role.Cleaner? && SweepOk(c, s, k, t)
    ensures SweepOk(c, Next(c, s, Local(t, CollectShard)), k, t)
  {
    var s' := Next(c, s, Local(t, CollectShard));
    forall a | a in s'.table && c.shardOf(a) < s'.tasks[t].pc.shard
      ensures Young(c, k, s.table[a], k.sampledAt[t]) || Pair(a, s.sessions[s.table[a]].id) in s'.tasks[t].pc.found
    {
      if c.shardOf(a) == s.tasks[t].pc.shard {
        SampleIsExact(c, s, k, t, a);
        if !Due(c, k, s.table[a], k.sampledAt[t]) {
          NotDueIsYoung(c, k, s.table[a], k.sampledAt[t]);
        }
      }
    }
  }

  /** Another task's local step. */
  lemma SweepFrame(c: Config, s: State, k: Clocks, s': State, k': Clocks, i: nat)
    requires Typed(s) && Fits(s, k) && Fits(s', k') && At(s, i) && SweepOk(c, s, k, i)
    requires s'.sessions == s.sessions && s'.table == s.table && At(s', i) && s'.tasks[i] == s.tasks[i]
    requires Typed(s') && k'.touched == k.touched && k'.stored == k.stored
    requires k'.sampledAt[i] == k.sampledAt[i] && k'.sweptAt[i] == k.sweptAt[i]
    ensures SweepOk(c, s', k', i)
  {
  }

  /** A cleaner that starts a sweep, reads the next shard, or ends: what it passes on is what it had. */
  lemma SweepOwn(c: Config, s: State, k: Clocks, t: nat, step: LocalStep)
    requires Inv(s) && RolesInv(s) && Sharded(c) && ClocksInv(s, k) && c.timeout >= 1 && Enabled(c, s, Local(t, step))
    requires s.tasks[t].role.Cleaner? && SweepOk(c, s, k, t)
    ensures Typed(Next(c, s, Local(t, step))) && SweepOk(c, Next(c, s, Local(t, step)), TrackLocal(k, t, step), t)
  {
    if step.CollectShard? {
      SweepCollects(c, s, k, t);
    } else {
      SweepMoves(c, s, k, t, step);
    }
  }

  lemma SweepMoves(c: Config, s: State, k: Clocks, t: nat, step: LocalStep)
    requires Typed(s) && RolesInv(s) && Sharded(c) && Fits(s, k) && Enabled(c, s, Local(t, step)) && !step.CollectShard?
    requires s.tasks[t].role.Cleaner? && SweepOk(c, s, k, t)
    ensures Typed(Next(c, s, Local(t, step))) && SweepOk(c, Next(c, s, Local(t, step)), TrackLocal(k, t, step), t)
  {
    assert RoleOk(s.tasks[t]);
  }

  lemma SweepLocal(c: Config, s: State, k: Clocks, t: nat, step: LocalStep)
    requires Inv(s) && RolesInv(s) && Sharded(c) && ClocksInv(s, k) && c.timeout >= 1
    requires SweepsInv(c, s, k) && Enabled(c, s, Local(t, step))
    ensures SweepsInv(c, Next(c, s, Local(t, step)), TrackLocal(k, t, step))
  {
    InvStep(c, s, Local(t, step));
    var s', k' := Next(c, s, Local(t, step)), TrackLocal(k, t, step);
    forall i | 0 <= i < |s'.tasks| && s'.tasks[i].role.Cleaner?
      ensures SweepOk(c, s', k', i)
    {
      if i == t {
        SweepOwn(c, s, k, t, step);
      } else {
        SweepFrame(c, s, k, s', k', i);
      }
    }
  }

  lemma SweepTouch(c: Config, s: State, k: Clocks, h: nat, reading: nat, read: nat)
    requires Typed(s) && ClocksInv(s, k) && SweepsInv(c, s, k) && h < |s.sessions| && c.timeout >= 1
    ensures SweepsInv(c, TouchOp(s, h, reading), TouchAt(k, h, read))
  {
    var s', k' := TouchOp(s, h, reading), TouchAt(k, h, read);
    forall i | 0 <= i < |s'.tasks| && s'.tasks[i].role.Cleaner?
      ensures SweepOk(c, s', k', i)
    {
      assert SweepOk(c, s, k, i);
      StoredIsYoung(c, k', h, k.sweptAt[i]);
      StoredIsYoung(c, k', h, k.sampledAt[i]);
      assert forall a | a in s.table && s.table[a] != h :: Mark(c, k', s.table[a]) == Mark(c, k, s.table[a]);
    }
  }

  /** One more entry, young at the present moment. */
  lemma SweepGrows(c: Config, s: State, k: Clocks, s': State, k': Clocks, source: SocketAddr, h: nat, i: nat)
    requires ClocksInv(s, k) && Typed(s) && Typed(s') && Fits(s', k') && At(s, i) && SweepOk(c, s, k, i)
    requires h < |s.sessions| && s'.table == s.table[source := h] && At(s', i) && s'.tasks[i] == s.tasks[i]
    requires |s'.sessions| == |s.sessions| &&
               forall a | a in s.table :: s'.sessions[s.table[a]].id == s.sessions[s.table[a]].id
    requires k'.sampledAt == k.sampledAt && k'.sweptAt == k.sweptAt && k'.time == k.time && c.timeout >= 1
    requires k'.stored[h] == k.time && forall a | a in s.table :: Mark(c, k', s.table[a]) == Mark(c, k, s.table[a])
    ensures SweepOk(c, s', k', i)
  {
    StoredIsYoung(c, k', h, k.sweptAt[i]);
    StoredIsYoung(c, k', h, k.sampledAt[i]);
  }

  lemma InsertKeepsMarks(c: Config, s: State, k: Clocks, t: nat)
    requires Inv(s) && Fits(s, k) && At(s, t) && s.tasks[t].pc.Built?
    ensures forall a | a in s.table :: Mark(c, ListAt(k, s.tasks[t].pc.h), s.table[a]) == Mark(c, k, s.table[a])
  {
    assert TaskOk(s, s.tasks[t].pc);
  }

  lemma SweepInsert(c: Config, s: State, k: Clocks, t: nat)
    requires Inv(s) && RolesInv(s) && ClocksInv(s, k) && SweepsInv(c, s, k) && c.timeout >= 1
    requires At(s, t) && s.tasks[t].pc.Built? && s.sessions[s.tasks[t].pc.h].source !in s.table
    ensures SweepsInv(c, InsertOp(s, t), ListAt(k, s.tasks[t].pc.h))
  {
    InsertShape(s, t);
    InsertKeepsMarks(c, s, k, t);
    var h := s.tasks[t].pc.h;
    var s', k' := InsertOp(s, t), ListAt(k, h);
    assert RoleOk(s.tasks[t]);
    forall i | 0 <= i < |s'.tasks| && s'.tasks[i].role.Cleaner?
      ensures SweepOk(c, s', k', i)
    {
      SweepGrows(c, s, k, s', k', s.sessions[h].source, h, i);
    }
  }

  lemma SweepEnter(c: Config, s: State, k: Clocks, t: nat, reading: nat, read: nat)
    requires Inv(s) && RolesInv(s) && ClocksInv(s, k) && SweepsInv(c, s, k) && c.timeout >= 1
    requires Enabled(c, s, Enter(t, reading))
    ensures SweepsInv(c, Next(c, s, Enter(t, reading)), Track(c, s, k, Enter(t, reading), read))
  {
    var source := s.sessions[s.tasks[t].pc.h].source;
    if source in s.table {
      SweepTouch(c, s, k, s.table[source], reading, read);
      SweepPc(c, TouchOp(s, s.table[source], reading), TouchAt(k, s.table[source], read), t, Serving);
    } else {
      SweepInsert(c, s, k, t);
    }
  }

  lemma SweepPc(c: Config, s: State, k: Clocks, t: nat, pc: Pc)
    requires SweepsInv(c, s, k) && At(s, t) && !HasHandle(pc) && !pc.Collecting? && !HasTodo(pc)
    ensures SweepsInv(c, SetPc(s, t, pc), k)
  {
    var s' := SetPc(s, t, pc);
    forall i | 0 <= i < |s'.tasks| && s'.tasks[i].role.Cleaner?
      ensures SweepOk(c, s', k, i)
    {
      assert SweepOk(c, s, k, i);
    }
  }

  lemma SweepRemove(c: Config, s: State, k: Clocks, t: nat, p: Pair)
    requires Inv(s) && SweepsInv(c, s, k) && Enabled(c, s, RemoveIf(t, p))
    ensures SweepsInv(c, Next(c, s, RemoveIf(t, p)), k)
  {
    RemoveIfEffect(c, s, t, p);
    var s' := Next(c, s, RemoveIf(t, p));
    assert |s'.sessions| == |s.sessions|;
    forall i | 0 <= i < |s'.tasks| && s'.tasks[i].role.Cleaner?
      ensures SweepOk(c, s', k, i)
    {
      SweepShrinks(c, s, k, s', i);
    }
  }

  lemma SweepBuild(c: Config, s: State, k: Clocks, t: nat)
    requires Inv(s) && SweepsInv(c, s, k) && At(s, t) && s.tasks[t].pc.GotId?
    ensures SweepsInv(c, BuildOp(s, t), BuildAt(k))
  {
    BuildShape(s, t);
    var s', k' := BuildOp(s, t), BuildAt(k);
    forall i | 0 <= i < |s'.tasks| && s'.tasks[i].role.Cleaner?
      ensures SweepOk(c, s', k', i)
    {
      assert SweepOk(c, s, k, i);
    }
  }

  lemma SweepSpawn(c: Config, s: State, k: Clocks, t: nat)
    requires Inv(s) && SweepsInv(c, s, k) && At(s, t) && s.tasks[t].pc.Opened?
    ensures SweepsInv(c, SpawnOp(s, t), k.(sampledAt := k.sampledAt + [k.time], sweptAt := k.sweptAt + [k.time]))
  {
    SpawnShape(s, t);
    var s', k' := SpawnOp(s, t), k.(sampledAt := k.sampledAt + [k.time], sweptAt := k.sweptAt + [k.time]);
    forall i | 0 <= i < |s'.tasks| && s'.tasks[i].role.Cleaner?
      ensures SweepOk(c, s', k', i)
    {
      assert SweepOk(c, s, k, i);
    }
  }

  lemma SweepAdvance(c: Config, s: State, k: Clocks, t: nat)
    requires Inv(s) && RolesInv(s) && SweepsInv(c, s, k) && At(s, t) && CanAdvance(s.tasks[t].pc)
    ensures SweepsInv(c, AdvanceOp(s, t), Track(c, s, k, Advance(t), 0))
  {
    if s.tasks[t].pc.GotId? {
      SweepBuild(c, s, k, t);
    } else if s.tasks[t].pc.Opened? {
      SweepSpawn(c, s, k, t);
    } else {
      SweepQuietAdvance(c, s, k, t);
    }
  }

  lemma SweepQuietAdvance(c: Config, s: State, k: Clocks, t: nat)
    requires Inv(s) && RolesInv(s) && SweepsInv(c, s, k) && At(s, t) && CanAdvance(s.tasks[t].pc)
    requires !s.tasks[t].pc.GotId? && !s.tasks[t].pc.Opened?
    ensures SweepsInv(c, AdvanceOp(s, t), k)
  {
    var s' := AdvanceOp(s, t);
    AdvanceShrinks(s, t);
    AdvanceTasks(s, t);
    forall i | 0 <= i < |s'.tasks| && s'.tasks[i].role.Cleaner?
      ensures SweepOk(c, s', k, i)
    {
      SweepShrinks(c, s, k, s', i);
    }
  }

  /** Time passes, or shutdown begins. */
  lemma SweepStands(c: Config, s: State, k: Clocks, s': State, k': Clocks)
    requires SweepsInv(c, s, k) && s'.sessions == s.sessions && s'.table == s.table && s'.tasks == s.tasks
    requires k'.touched == k.touched && k'.stored == k.stored
    requires k'.sampledAt == k.sampledAt && k'.sweptAt == k.sweptAt
    ensures SweepsInv(c, s', k')
  {
    forall t | 0 <= t < |s.tasks| && s.tasks[t].role.Cleaner?
      ensures SweepOk(c, s', k', t)
    {
      SweepFrame(c, s, k, s', k', t);
    }
  }

  lemma SweepStep(c: Config, s: State, k: Clocks, a: Action, read: nat)
    requires Inv(s) && RolesInv(s) && Sharded(c) && ClocksInv(s, k) && c.timeout >= 1
    requires SweepsInv(c, s, k) && Enabled(c, s, a)
    ensures SweepsInv(c, Next(c, s, a), Track(c, s, k, a, read))
  {
    match a
    case SetClock(_) => SweepStands(c, s, k, Next(c, s, a), Track(c, s, k, a, read));
    case Shutdown => SweepStands(c, s, k, Next(c, s, a), Track(c, s, k, a, read));
    case Touch(h, reading) => SweepTouch(c, s, k, h, reading, read);
    case Local(t, step) => SweepLocal(c, s, k, t, step);
    case Enter(t, reading) => SweepEnter(c, s, k, t, reading, read);
    case RemoveIf(t, p) => SweepRemove(c, s, k, t, p);
    case Advance(t) => SweepAdvance(c, s, k, t);
  }

  lemma {:induction false} SweepsHold(
    c: Config, trace: seq<State>, acts: seq<Action>, clocks: seq<Clocks>, readings: seq<nat>, i: nat)
    requires TimedRun(c, trace, acts, clocks, readings) && c.timeout >= 1 && i < |trace|
    ensures SweepsInv(c, trace[i], clocks[i])
    decreases i
  {
    if i > 0 {
      SweepsHold(c, trace, acts, clocks, readings, i - 1);
      TimedRunKeeps(c, trace, acts, clocks, readings, i - 1);
      TimedRunStep(c, trace, acts, clocks, readings, i - 1);
      SweepStep(c, trace[i - 1], clocks[i - 1], acts[i - 1], readings[i - 1]);
    }
  }

  lemma ListedIsYoung(
    c: Config, trace: seq<State>, acts: seq<Action>, clocks: seq<Clocks>, readings: seq<nat>, i: nat, t: nat, h: nat)
    requires TimedRun(c, trace, acts, clocks, readings) && c.timeout >= 1 && i < |trace|
    requires At(trace[i], t) && trace[i].tasks[t].role.Cleaner? && InTable(trace[i], h)
    ensures Fits(trace[i], clocks[i]) && clocks[i].touched[h] <= clocks[i].stored[h]
    ensures Young(c, clocks[i], h, clocks[i].sweptAt[t])
  {
    SweepsHold(c, trace, acts, clocks, readings, i);
    TimedRunKeeps(c, trace, acts, clocks, readings, i);
    assert SweepOk(c, trace[i], clocks[i], t);
    assert trace[i].sessions[h].source in trace[i].table;
  }

  /**
   * In every interleaving: a session still listed was touched or listed less than T s before the
   * sample of the last finished sweep. If that sample is at most I s old, this was less than T + I s ago.
   */
  lemma NobodyStaysForLong(
    c: Config, trace: seq<State>, acts: seq<Action>, clocks: seq<Clocks>, readings: seq<nat>, idleTimeout: nat,
    i: nat, t: nat, h: nat)
    requires TimedRun(c, trace, acts, clocks, readings) && c.timeout == TimeoutSeconds(idleTimeout) && i < |trace|
    requires At(trace[i], t) && trace[i].tasks[t].role.Cleaner? && InTable(trace[i], h)
    ensures Fits(trace[i], clocks[i])
    ensures clocks[i].sweptAt[t] < clocks[i].stored[h] + Span(c.timeout)
    ensures clocks[i].time <= clocks[i].sweptAt[t] + Span(IntervalSeconds(c.timeout)) ==>
              clocks[i].time < clocks[i].stored[h] + Span(c.timeout + IntervalSeconds(c.timeout))
  {
    ListedIsYoung(c, trace, acts, clocks, readings, i, t, h);
  }

  /** The same from the moment the clock was read, if this reading was stored and listed within T s. */
  lemma NobodyStaysSinceReading(
    c: Config, trace: seq<State>, acts: seq<Action>, clocks: seq<Clocks>, readings: seq<nat>, idleTimeout: nat,
    i: nat, t: nat, h: nat)
    requires TimedRun(c, trace, acts, clocks, readings) && c.timeout == TimeoutSeconds(idleTimeout) && i < |trace|
    requires At(trace[i], t) && trace[i].tasks[t].role.Cleaner? && InTable(trace[i], h)
    requires Fits(trace[i], clocks[i]) && Prompt(c, clocks[i], h)
    ensures clocks[i].sweptAt[t] < clocks[i].touched[h] + Span(c.timeout)
    ensures clocks[i].time <= clocks[i].sweptAt[t] + Span(IntervalSeconds(c.timeout)) ==>
              clocks[i].time < clocks[i].touched[h] + Span(c.timeout + IntervalSeconds(c.timeout))
  {
    ListedIsYoung(c, trace, acts, clocks, readings, i, t, h);
  }
}
