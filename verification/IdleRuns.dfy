/** Two timed runs: one evicts early, and a family of others keeps a session that is listed late. */
module IdleRuns {
  import opened Net
  import opened SessionProtocol
  import opened SessionTheorems
  import opened SessionShutdown
  import opened IdleBounds

  const EARLY := 999_999_999
  const ONE_SECOND := 1_000_000_000

  function Listing(life: Life): seq<Session> {
    [Session(1, CLIENT, 0, false, false, life)]
  }

  ghost predicate StepOf(
    c: Config, trace: seq<State>, acts: seq<Action>, clocks: seq<Clocks>, readings: seq<nat>, i: nat)
    requires i < |acts| == |readings| && |trace| == |clocks| == |acts| + 1
  {
    TimedStep(c, trace[i], clocks[i], acts[i], readings[i], trace[i + 1], clocks[i + 1])
  }

  ghost predicate Steps(
    c: Config, trace: seq<State>, acts: seq<Action>, clocks: seq<Clocks>, readings: seq<nat>, lo: nat, hi: nat)
    requires lo <= hi <= |acts| == |readings| && |trace| == |clocks| == |acts| + 1
  {
    forall i | lo <= i < hi :: StepOf(c, trace, acts, clocks, readings, i)
  }

  lemma StepsJoin(
    c: Config, trace: seq<State>, acts: seq<Action>, clocks: seq<Clocks>, readings: seq<nat>,
    lo: nat, mid: nat, hi: nat)
    requires lo <= mid <= hi <= |acts| == |readings| && |trace| == |clocks| == |acts| + 1
    requires Steps(c, trace, acts, clocks, readings, lo, mid) && Steps(c, trace, acts, clocks, readings, mid, hi)
    ensures Steps(c, trace, acts, clocks, readings, lo, hi)
  {
  }

  lemma StepsMakeARun(c: Config, trace: seq<State>, acts: seq<Action>, clocks: seq<Clocks>, readings: seq<nat>)
    requires |acts| == |readings| && |trace| == |clocks| == |acts| + 1
    requires Init(trace[0]) && OneListener(trace[0]) && Sharded(c) && ClocksInit(trace[0], clocks[0])
    requires Steps(c, trace, acts, clocks, readings, 0, |acts|)
    ensures TimedRun(c, trace, acts, clocks, readings)
  {
    forall i | 0 <= i < |acts|
      ensures TimedStep(c, trace[i], clocks[i], acts[i], readings[i], trace[i + 1], clocks[i + 1])
      ensures Step(c, trace[i], acts[i], trace[i + 1])
    {
      assert StepOf(c, trace, acts, clocks, readings, i);
    }
  }

  // ----- evicted 1 ns after its last touch -----

  function Serves(now: nat, k: Pc): State {
    State(Listing(Listed), map[CLIENT := 0], 2, 1, 0, now, false,
          [Task(Listener, Serving), Task(Cleaner, k), Task(Replier, Receiving(0))])
  }

  function EarlyTrace(): seq<State> {
    var p := Pair(CLIENT, 1);
    [ LeakState([], map[], 1, 0, 0, 0, Serving, Waiting),
      LeakState([], map[], 1, 0, 0, 0, Missed(CLIENT), Waiting),
      LeakState([], map[], 2, 0, 0, 0, GotId(CLIENT, 1), Waiting),
      LeakState(Listing(Life.Fresh), map[], 2, 0, 0, 0, Built(0), Waiting),
      LeakState(Listing(Listed), map[CLIENT := 0], 2, 0, 0, 0, Inserted(0), Waiting),
      LeakState(Listing(Listed), map[CLIENT := 0], 2, 1, 0, 0, Opened(0), Waiting),
      Serves(0, Waiting),
      Serves(1, Waiting),
      Serves(1, Collecting(1, 0, {})),
      Serves(1, Collecting(1, 1, {p})),
      Serves(1, Evicting({p})),
      Serves(1, Removed(0, {})).(sessions := Listing(Gone), table := map[]) ]
  }

  function EarlyActs(): seq<Action> {
    [ Local(0, Lookup(CLIENT)), Advance(0), Advance(0), Enter(0, 0), Advance(0), Advance(0), SetClock(1),
      Local(1, Tick), Local(1, CollectShard), Local(1, EndCollect), RemoveIf(1, Pair(CLIENT, 1)) ]
  }

  function EarlyClocks(): seq<Clocks> {
    var start := Clocks(EARLY, [], [], [EARLY, EARLY], [EARLY, EARLY]);
    var built := start.(touched := [EARLY], stored := [EARLY]);
    var served := built.(sampledAt := [EARLY, EARLY, EARLY], sweptAt := [EARLY, EARLY, EARLY]);
    var later := served.(time := ONE_SECOND);
    var swept := later.(sampledAt := [EARLY, ONE_SECOND, EARLY]);
    [start, start, start, built, built, built, served, later, swept, swept, swept, swept]
  }

  function EarlyReadings(): seq<nat> {
    [EARLY, EARLY, EARLY, EARLY, EARLY, EARLY, ONE_SECOND, EARLY, EARLY, EARLY, EARLY]
  }

  lemma EarlyLooksUp()
    ensures Steps(LeakConfig(), EarlyTrace(), EarlyActs(), EarlyClocks(), EarlyReadings(), 0, 1)
  {
    var c, trace, acts, clocks, readings := LeakConfig(), EarlyTrace(), EarlyActs(), EarlyClocks(), EarlyReadings();
    assert StepOf(c, trace, acts, clocks, readings, 0);
  }

  lemma EarlyMisses()
    ensures Steps(LeakConfig(), EarlyTrace(), EarlyActs(), EarlyClocks(), EarlyReadings(), 1, 2)
  {
    var c, trace, acts, clocks, readings := LeakConfig(), EarlyTrace(), EarlyActs(), EarlyClocks(), EarlyReadings();
    assert StepOf(c, trace, acts, clocks, readings, 1);
  }

  lemma EarlyLists()
    ensures Steps(LeakConfig(), EarlyTrace(), EarlyActs(), EarlyClocks(), EarlyReadings(), 2, 4)
  {
    var c, trace, acts, clocks, readings := LeakConfig(), EarlyTrace(), EarlyActs(), EarlyClocks(), EarlyReadings();
    assert StepOf(c, trace, acts, clocks, readings, 2);
    assert StepOf(c, trace, acts, clocks, readings, 3);
  }

  lemma EarlyOpens()
    ensures Steps(LeakConfig(), EarlyTrace(), EarlyActs(), EarlyClocks(), EarlyReadings(), 4, 5)
  {
    var c, trace, acts, clocks, readings := LeakConfig(), EarlyTrace(), EarlyActs(), EarlyClocks(), EarlyReadings();
    assert StepOf(c, trace, acts, clocks, readings, 4);
  }

  lemma EarlyServes()
    ensures Steps(LeakConfig(), EarlyTrace(), EarlyActs(), EarlyClocks(), EarlyReadings(), 5, 6)
  {
    var c, trace, acts, clocks, readings := LeakConfig(), EarlyTrace(), EarlyActs(), EarlyClocks(), EarlyReadings();
    assert StepOf(c, trace, acts, clocks, readings, 5);
  }

  lemma EarlyTicks()
    ensures Steps(LeakConfig(), EarlyTrace(), EarlyActs(), EarlyClocks(), EarlyReadings(), 6, 8)
  {
    var c, trace, acts, clocks, readings := LeakConfig(), EarlyTrace(), EarlyActs(), EarlyClocks(), EarlyReadings();
    assert StepOf(c, trace, acts, clocks, readings, 6);
    assert StepOf(c, trace, acts, clocks, readings, 7);
  }

  lemma EarlySamples()
    ensures Steps(LeakConfig(), EarlyTrace(), EarlyActs(), EarlyClocks(), EarlyReadings(), 8, 9)
  {
    var c, s := LeakConfig(), EarlyTrace()[8];
    var p := Pair(CLIENT, 1);
    var pairs := ShardPairs(c, s, Cleaner, 1, 0);
    assert s.table.Keys == {CLIENT} && c.shardOf(CLIENT) == 0;
    assert CLIENT in s.table && IsStale(c.timeout, 1, s.sessions[s.table[CLIENT]].lastActive);
    assert p in pairs;
    assert pairs == {p};
    assert LocalPc(c, s, s.tasks[1], CollectShard) == Collecting(1, 1, {p});
    assert Next(c, s, Local(1, CollectShard)).tasks == EarlyTrace()[9].tasks;
  }

  lemma EarlyEvicts()
    ensures Steps(LeakConfig(), EarlyTrace(), EarlyActs(), EarlyClocks(), EarlyReadings(), 9, 11)
  {
    var c, trace, acts, clocks, readings := LeakConfig(), EarlyTrace(), EarlyActs(), EarlyClocks(), EarlyReadings();
    assert StepOf(c, trace, acts, clocks, readings, 9);
    assert trace[10].table - {CLIENT} == map[] && {Pair(CLIENT, 1)} - {Pair(CLIENT, 1)} == {};
    assert StepOf(c, trace, acts, clocks, readings, 10);
  }

  /** Touched at 0.999999999 s, sampled at 1 s, evicted: idle for 1 ns with a timeout of 1 s. */
  lemma EvictedEarly()
    ensures TimedRun(LeakConfig(), EarlyTrace(), EarlyActs(), EarlyClocks(), EarlyReadings())
    ensures InTable(EarlyTrace()[10], 0) && !InTable(EarlyTrace()[11], 0)
    ensures var k := EarlyClocks()[11]; k.time == k.touched[0] + 1 < k.touched[0] + Span(LeakConfig().timeout)
  {
    EarlyLooksUp();
    EarlyMisses();
    EarlyLists();
    EarlyOpens();
    EarlyServes();
    EarlyTicks();
    EarlySamples();
    EarlyEvicts();
    var c, trace, acts, clocks, readings := LeakConfig(), EarlyTrace(), EarlyActs(), EarlyClocks(), EarlyReadings();
    StepsJoin(c, trace, acts, clocks, readings, 0, 1, 2);
    StepsJoin(c, trace, acts, clocks, readings, 0, 2, 4);
    StepsJoin(c, trace, acts, clocks, readings, 0, 4, 5);
    StepsJoin(c, trace, acts, clocks, readings, 0, 5, 6);
    StepsJoin(c, trace, acts, clocks, readings, 0, 6, 8);
    StepsJoin(c, trace, acts, clocks, readings, 0, 8, 9);
    StepsJoin(c, trace, acts, clocks, readings, 0, 9, 11);
    StepsMakeARun(c, trace, acts, clocks, readings);
  }

  // ----- listed after its reading is already too old -----

  ghost function OneShard(timeout: nat): Config {
    Config(timeout, 1, (a: SocketAddr) => 0)
  }

  /** The one session, with its reading in whole seconds. */
  function Late(life: Life, lastActive: nat): seq<Session> {
    [Session(1, CLIENT, lastActive, false, false, life)]
  }

  function Waits(second: nat, sessions: seq<Session>, nextId: nat, l: Pc, k: Pc): State {
    State(sessions, map[], nextId, 0, 0, second, false, [Task(Listener, l), Task(Cleaner, k)])
  }

  function Listed0(lastActive: nat, second: nat): State {
    State(Late(Listed, lastActive), map[CLIENT := 0], 2, 0, 0, second, false,
          [Task(Listener, Inserted(0)), Task(Cleaner, Waiting)])
  }

  /**
   * The session is built, its clock read, at the moment `read`; the listener gets to list it at
   * `stored`, just after a whole sweep; then `later` comes.
   */
  function LateTrace(read: nat, stored: nat, later: nat): seq<State> {
    var r, s, f := Second(read), Second(stored), Second(later);
    var young := Late(Life.Fresh, r);
    [ Waits(r, [], 1, Serving, Waiting),
      Waits(r, [], 1, Missed(CLIENT), Waiting),
      Waits(r, [], 2, GotId(CLIENT, 1), Waiting),
      Waits(r, young, 2, Built(0), Waiting),
      Waits(s, young, 2, Built(0), Waiting),
      Waits(s, young, 2, Built(0), Collecting(s, 0, {})),
      Waits(s, young, 2, Built(0), Collecting(s, 1, {})),
      Waits(s, young, 2, Built(0), Evicting({})),
      Waits(s, young, 2, Built(0), Waiting),
      Listed0(r, s),
      Listed0(r, f) ]
  }

  function LateActs(stored: nat, later: nat): seq<Action> {
    [ Local(0, Lookup(CLIENT)), Advance(0), Advance(0), SetClock(Second(stored)), Local(1, Tick),
      Local(1, CollectShard), Local(1, EndCollect), Local(1, EndEvict), Enter(0, Second(stored)),
      SetClock(Second(later)) ]
  }

  function LateClocks(read: nat, stored: nat, later: nat): seq<Clocks> {
    var start := Clocks(read, [], [], [read, read], [read, read]);
    var built := start.(touched := [read], stored := [read]);
    var sampled := built.(time := stored, sampledAt := [read, stored]);
    var swept := sampled.(sweptAt := [read, stored]);
    var listed := swept.(stored := [stored]);
    [ start, start, start, built, built.(time := stored), sampled, sampled, sampled, swept, listed,
      listed.(time := later) ]
  }

  function LateReadings(stored: nat, later: nat): seq<nat> {
    [0, 0, 0, stored, 0, 0, 0, 0, stored, later]
  }

  ghost predicate LateSteps(timeout: nat, read: nat, stored: nat, later: nat, lo: nat, hi: nat)
    requires lo <= hi <= 10
  {
    Steps(OneShard(timeout), LateTrace(read, stored, later), LateActs(stored, later),
          LateClocks(read, stored, later), LateReadings(stored, later), lo, hi)
  }

  lemma LateMisses(timeout: nat, read: nat, stored: nat, later: nat)
    requires read <= stored <= later
    ensures LateSteps(timeout, read, stored, later, 0, 2)
  {
    var c, trace, acts := OneShard(timeout), LateTrace(read, stored, later), LateActs(stored, later);
    var clocks, readings := LateClocks(read, stored, later), LateReadings(stored, later);
    assert StepOf(c, trace, acts, clocks, readings, 0);
    assert StepOf(c, trace, acts, clocks, readings, 1);
  }

  lemma LateBuilds(timeout: nat, read: nat, stored: nat, later: nat)
    requires read <= stored <= later
    ensures LateSteps(timeout, read, stored, later, 2, 4)
  {
    var c, trace, acts := OneShard(timeout), LateTrace(read, stored, later), LateActs(stored, later);
    var clocks, readings := LateClocks(read, stored, later), LateReadings(stored, later);
    assert StepOf(c, trace, acts, clocks, readings, 2);
    assert StepOf(c, trace, acts, clocks, readings, 3);
  }

  lemma LateTicks(timeout: nat, read: nat, stored: nat, later: nat)
    requires read <= stored <= later
    ensures LateSteps(timeout, read, stored, later, 4, 5)
  {
    var c, trace, acts := OneShard(timeout), LateTrace(read, stored, later), LateActs(stored, later);
    var clocks, readings := LateClocks(read, stored, later), LateReadings(stored, later);
    assert StepOf(c, trace, acts, clocks, readings, 4);
  }

  lemma LateSamples(timeout: nat, read: nat, stored: nat, later: nat)
    requires read <= stored <= later
    ensures LateSteps(timeout, read, stored, later, 5, 6)
  {
    var c, trace, acts := OneShard(timeout), LateTrace(read, stored, later), LateActs(stored, later);
    var clocks, readings := LateClocks(read, stored, later), LateReadings(stored, later);
    assert ShardPairs(c, trace[5], Cleaner, Second(stored), 0) == {};
    assert LocalPc(c, trace[5], trace[5].tasks[1], CollectShard) == Collecting(Second(stored), 1, {});
    assert Next(c, trace[5], acts[5]).tasks == trace[6].tasks;
    assert StepOf(c, trace, acts, clocks, readings, 5);
  }

  lemma LateSweeps(timeout: nat, read: nat, stored: nat, later: nat)
    requires read <= stored <= later
    ensures LateSteps(timeout, read, stored, later, 6, 8)
  {
    var c, trace, acts := OneShard(timeout), LateTrace(read, stored, later), LateActs(stored, later);
    var clocks, readings := LateClocks(read, stored, later), LateReadings(stored, later);
    assert StepOf(c, trace, acts, clocks, readings, 6);
    assert StepOf(c, trace, acts, clocks, readings, 7);
  }

  lemma LateLists(timeout: nat, read: nat, stored: nat, later: nat)
    requires read <= stored <= later
    ensures LateSteps(timeout, read, stored, later, 8, 10)
  {
    var c, trace, acts := OneShard(timeout), LateTrace(read, stored, later), LateActs(stored, later);
    var clocks, readings := LateClocks(read, stored, later), LateReadings(stored, later);
    assert StepOf(c, trace, acts, clocks, readings, 8);
    assert StepOf(c, trace, acts, clocks, readings, 9);
  }

  lemma LateRun(timeout: nat, read: nat, stored: nat, later: nat)
    requires read <= stored <= later
    ensures TimedRun(OneShard(timeout), LateTrace(read, stored, later), LateActs(stored, later),
                     LateClocks(read, stored, later), LateReadings(stored, later))
  {
    LateMisses(timeout, read, stored, later);
    LateBuilds(timeout, read, stored, later);
    LateTicks(timeout, read, stored, later);
    LateSamples(timeout, read, stored, later);
    LateSweeps(timeout, read, stored, later);
    LateLists(timeout, read, stored, later);
    var c, trace, acts := OneShard(timeout), LateTrace(read, stored, later), LateActs(stored, later);
    var clocks, readings := LateClocks(read, stored, later), LateReadings(stored, later);
    StepsJoin(c, trace, acts, clocks, readings, 0, 2, 4);
    StepsJoin(c, trace, acts, clocks, readings, 0, 4, 5);
    StepsJoin(c, trace, acts, clocks, readings, 0, 5, 6);
    StepsJoin(c, trace, acts, clocks, readings, 0, 6, 8);
    StepsJoin(c, trace, acts, clocks, readings, 0, 8, 10);
    StepsMakeARun(c, trace, acts, clocks, readings);
  }

  /**
   * In state `i` a session read at `read` and stored or listed at `stored` is in the table T + I s
   * after its reading, although the last finished sweep is at most I s old.
   */
  ghost predicate Outstays(
    c: Config, trace: seq<State>, acts: seq<Action>, clocks: seq<Clocks>, readings: seq<nat>,
    i: nat, t: nat, h: nat, read: nat, stored: nat)
  {
    && TimedRun(c, trace, acts, clocks, readings) && i < |trace|
    && At(trace[i], t) && trace[i].tasks[t].role.Cleaner? && InTable(trace[i], h) && Fits(trace[i], clocks[i])
    && clocks[i].touched[h] == read && clocks[i].stored[h] == stored
    && clocks[i].time <= clocks[i].sweptAt[t] + Span(IntervalSeconds(c.timeout))
    && clocks[i].time >= read + Span(c.timeout + IntervalSeconds(c.timeout))
  }

  lemma LateEnds(timeout: nat, read: nat, stored: nat, later: nat)
    ensures |LateTrace(read, stored, later)| == |LateClocks(read, stored, later)| == 11
    ensures var s, k := LateTrace(read, stored, later)[10], LateClocks(read, stored, later)[10];
            && InTable(s, 0) && Fits(s, k) && |s.tasks| == 2 && s.tasks[1].role.Cleaner?
            && k.touched == [read] && k.stored == [stored] && k.time == later && k.sweptAt == [read, stored]
  {
  }

  lemma LateOutstays(
    c: Config, trace: seq<State>, acts: seq<Action>, clocks: seq<Clocks>, readings: seq<nat>, i: nat,
    read: nat, stored: nat)
    requires TimedRun(c, trace, acts, clocks, readings) && i < |trace| && stored >= read + Span(c.timeout)
    requires var s, k := trace[i], clocks[i];
             && InTable(s, 0) && Fits(s, k) && |s.tasks| == 2 && s.tasks[1].role.Cleaner?
             && k.touched == [read] && k.stored == [stored] && k.sweptAt == [read, stored]
             && k.time == stored + Span(IntervalSeconds(c.timeout))
    ensures Outstays(c, trace, acts, clocks, readings, i, 1, 0, read, stored)
  {
  }

  lemma LateListingOutstays(timeout: nat, read: nat, stored: nat)
    returns (trace: seq<State>, acts: seq<Action>, clocks: seq<Clocks>, readings: seq<nat>)
    requires timeout >= 1 && stored >= read + Span(timeout)
    ensures Outstays(OneShard(timeout), trace, acts, clocks, readings, 10, 1, 0, read, stored)
  {
    var later := stored + Span(IntervalSeconds(timeout));
    LateRun(timeout, read, stored, later);
    LateEnds(timeout, read, stored, later);
    trace, acts := LateTrace(read, stored, later), LateActs(stored, later);
    clocks, readings := LateClocks(read, stored, later), LateReadings(stored, later);
    LateOutstays(OneShard(timeout), trace, acts, clocks, readings, 10, read, stored);
  }

  lemma OnlyLateOutstays(
    c: Config, trace: seq<State>, acts: seq<Action>, clocks: seq<Clocks>, readings: seq<nat>,
    i: nat, t: nat, h: nat, read: nat, stored: nat)
    requires c.timeout >= 1 && Outstays(c, trace, acts, clocks, readings, i, t, h, read, stored)
    ensures stored >= read + Span(c.timeout)
  {
    assert TimeoutSeconds(Span(c.timeout)) == c.timeout;
    if Prompt(c, clocks[i], h) {
      NobodyStaysSinceReading(c, trace, acts, clocks, readings, Span(c.timeout), i, t, h);
    }
  }

  ghost predicate CanOutstay(timeout: nat, read: nat, stored: nat) {
    exists c: Config, trace: seq<State>, acts: seq<Action>, clocks: seq<Clocks>, readings: seq<nat>,
      i: nat, t: nat, h: nat ::
      c.timeout == timeout && Outstays(c, trace, acts, clocks, readings, i, t, h, read, stored)
  }

  /**
   * The bound of T + I s, measured from the reading, can be broken by a session read at `read` and
   * stored or listed at `stored` iff the store or listing came T s or more after the reading.
   */
  lemma OutstaysIff(timeout: nat, read: nat, stored: nat)
    requires timeout >= 1
    ensures CanOutstay(timeout, read, stored) <==> stored >= read + Span(timeout)
  {
    if stored >= read + Span(timeout) {
      var trace, acts, clocks, readings := LateListingOutstays(timeout, read, stored);
    }
    if CanOutstay(timeout, read, stored) {
      var c: Config, trace: seq<State>, acts: seq<Action>, clocks: seq<Clocks>, readings: seq<nat>,
        i: nat, t: nat, h: nat :|
        c.timeout == timeout && Outstays(c, trace, acts, clocks, readings, i, t, h, read, stored);
      OnlyLateOutstays(c, trace, acts, clocks, readings, i, t, h, read, stored);
    }
  }
}
