/** What every interleaving of the UDP session protocol guarantees. */
module SessionTheorems {
  import opened Net
  import opened Counting
  import opened SessionProtocol

  // ----- identity of sessions -----

  function Rank(life: Life): nat {
    match life
    case Fresh => 0
    case Listed => 1
    case Gone => 2
  }

  /** `s'` knows every session of `s`, with the same identity and no younger. */
  ghost predicate Ages(s: State, s': State) {
    && |s.sessions| <= |s'.sessions|
    && forall h | 0 <= h < |s.sessions| ::
         && s'.sessions[h].id == s.sessions[h].id
         && s'.sessions[h].source == s.sessions[h].source
         && Rank(s.sessions[h].life) <= Rank(s'.sessions[h].life)
  }

  lemma EnterAges(c: Config, s: State, t: nat, reading: nat)
    requires Inv(s) && Enabled(c, s, Enter(t, reading))
    ensures Ages(s, Next(c, s, Enter(t, reading)))
  {
    assert TaskOk(s, s.tasks[t].pc);
  }

  lemma RemoveIfAges(c: Config, s: State, t: nat, p: Pair)
    requires Inv(s) && Enabled(c, s, RemoveIf(t, p))
    ensures Ages(s, Next(c, s, RemoveIf(t, p)))
  {
  }

  lemma AdvanceAges(s: State, t: nat)
    requires Typed(s) && At(s, t) && CanAdvance(s.tasks[t].pc)
    ensures Ages(s, AdvanceOp(s, t))
  {
  }

  /** A session enters the table at most once: each step only moves it forward in its life. */
  lemma StepAges(c: Config, s: State, a: Action, s': State)
    requires Inv(s) && Step(c, s, a, s')
    ensures Inv(s') && Ages(s, s')
  {
    InvStep(c, s, a);
    match a
    case SetClock(_) =>
    case Touch(_, _) =>
    case Shutdown =>
    case Local(_, _) => assert s'.sessions == s.sessions;
    case Enter(t, reading) => EnterAges(c, s, t, reading);
    case RemoveIf(t, p) => RemoveIfAges(c, s, t, p);
    case Advance(t) => AdvanceAges(s, t);
  }

  lemma AgesTransitive(s: State, s': State, s'': State)
    requires Ages(s, s') && Ages(s', s'')
    ensures Ages(s, s'')
  {
  }

  lemma RunStepAges(c: Config, trace: seq<State>, acts: seq<Action>, i: nat)
    requires Run(c, trace, acts) && i < |acts|
    ensures Ages(trace[i], trace[i + 1])
  {
    RunInv(c, trace, acts, i);
    assert Step(c, trace[i], acts[i], trace[i + 1]);
    StepAges(c, trace[i], acts[i], trace[i + 1]);
  }

  lemma {:induction false} AgesChain(trace: seq<State>, i: nat, j: nat)
    requires i <= j < |trace|
    requires forall k | 0 <= k < |trace| - 1 :: Ages(trace[k], trace[k + 1])
    ensures Ages(trace[i], trace[j])
    decreases j
  {
    if i < j {
      AgesChain(trace, i, j - 1);
      assert Ages(trace[j - 1], trace[j - 1 + 1]);
      AgesTransitive(trace[i], trace[j - 1], trace[j]);
    }
  }

  lemma RunAges(c: Config, trace: seq<State>, acts: seq<Action>, i: nat, j: nat)
    requires Run(c, trace, acts) && i <= j < |trace|
    ensures Ages(trace[i], trace[j])
  {
    forall k | 0 <= k < |trace| - 1
      ensures Ages(trace[k], trace[k + 1])
    {
      RunStepAges(c, trace, acts, k);
    }
    AgesChain(trace, i, j);
  }

  /** In every reachable state ids are distinct and each key maps to a session of that source. */
  lemma TableIsWellKeyed(c: Config, trace: seq<State>, acts: seq<Action>, i: nat)
    requires Run(c, trace, acts) && i < |trace|
    ensures forall a | a in trace[i].table ::
              trace[i].table[a] < |trace[i].sessions| && trace[i].sessions[trace[i].table[a]].source == a
    ensures forall h, k | 0 <= h < k < |trace[i].sessions| :: trace[i].sessions[h].id != trace[i].sessions[k].id
    ensures forall a, b | a in trace[i].table && b in trace[i].table && a != b :: trace[i].table[a] != trace[i].table[b]
  {
    RunInv(c, trace, acts, i);
  }

  ghost predicate InTable(s: State, h: nat) {
    h < |s.sessions| && s.sessions[h].source in s.table && s.table[s.sessions[h].source] == h
  }

  /** Once a session has left the table it never returns. */
  lemma NeverReturns(c: Config, trace: seq<State>, acts: seq<Action>, h: nat, i: nat, j: nat, k: nat)
    requires Run(c, trace, acts) && i <= j <= k < |trace|
    requires InTable(trace[i], h) && !InTable(trace[j], h)
    ensures !InTable(trace[k], h)
  {
    RunInv(c, trace, acts, i);
    RunInv(c, trace, acts, j);
    RunInv(c, trace, acts, k);
    RunAges(c, trace, acts, i, j);
    RunAges(c, trace, acts, j, k);
  }

  /**
   * A remover that holds the pair of a session that has meanwhile left the table evicts nobody,
   * whatever session its client has now; and no remover ever evicts a session other than the one
   * its pair was taken from.
   */
  lemma StalePairIsHarmless(
    c: Config, trace: seq<State>, acts: seq<Action>, h: nat, i: nat, j: nat, t: nat, p: Pair)
    requires Run(c, trace, acts) && i <= j < |acts|
    requires InTable(trace[i], h) && p == Pair(trace[i].sessions[h].source, trace[i].sessions[h].id)
    requires acts[j] == RemoveIf(t, p)
    ensures !InTable(trace[j], h) ==> trace[j + 1].table == trace[j].table
    ensures InTable(trace[j], h) ==> trace[j + 1].table == trace[j].table - {p.source} && !InTable(trace[j + 1], h)
  {
    RunInv(c, trace, acts, j);
    RunAges(c, trace, acts, i, j);
    assert Step(c, trace[j], acts[j], trace[j + 1]);
  }

  // ----- the flow gauge -----

  /**
   * In every state of every run: gauge + opens not yet recorded
   * = table size + closes not yet recorded + decrements lost to saturation.
   */
  lemma GaugeLaw(c: Config, trace: seq<State>, acts: seq<Action>, i: nat)
    requires Run(c, trace, acts) && i < |trace|
    ensures trace[i].gauge + Count(trace[i].tasks, OpenPending)
         == |trace[i].table| + Count(trace[i].tasks, ClosePending) + trace[i].lost
    ensures trace[i].lost == 0 <==>
            trace[i].gauge + Count(trace[i].tasks, OpenPending)
            == |trace[i].table| + Count(trace[i].tasks, ClosePending)
  {
    RunInv(c, trace, acts, i);
  }

  /** The step removes no session whose own open is still unrecorded. */
  ghost predicate Disciplined(s: State, a: Action)
    requires Typed(s)
  {
    a.RemoveIf? && Hits(s, a.pair) ==>
      forall i | 0 <= i < |s.tasks| && s.tasks[i].pc.Inserted? :: s.tasks[i].pc.h != s.table[a.pair.source]
  }

  ghost predicate NothingLost(s: State)
    requires Typed(s)
  {
    && s.lost == 0
    && forall i | 0 <= i < |s.tasks| && s.tasks[i].pc.Inserted? :: s.sessions[s.tasks[i].pc.h].life.Listed?
  }

  /** Distinct pending opens stand for distinct table keys. */
  lemma {:induction false} PendingOpensFit(tasks: seq<Task>, sources: map<nat, SocketAddr>, keys: set<SocketAddr>)
    requires Exclusive(tasks)
    requires forall i | 0 <= i < |tasks| && tasks[i].pc.Inserted? ::
               tasks[i].pc.h in sources && sources[tasks[i].pc.h] in keys
    requires forall h, k | h in sources && k in sources && h != k :: sources[h] != sources[k]
    ensures Count(tasks, OpenPending) <= |keys|
  {
    if tasks != [] {
      var n := |tasks| - 1;
      var front, last := tasks[..n], tasks[n];
      if last.pc.Inserted? {
        var gone := sources[last.pc.h];
        forall i | 0 <= i < n && front[i].pc.Inserted?
          ensures front[i].pc.h in sources && sources[front[i].pc.h] in keys - {gone}
        {
          assert ClaimOf(tasks[i].pc) != ClaimOf(tasks[n].pc);
        }
        PendingOpensFit(front, sources, keys - {gone});
      } else {
        PendingOpensFit(front, sources, keys);
      }
    }
  }

  lemma GaugeCoversCloses(s: State)
    requires Inv(s) && NothingLost(s)
    ensures s.gauge >= Count(s.tasks, ClosePending)
  {
    var sources := map h | 0 <= h < |s.sessions| && s.sessions[h].life.Listed? :: s.sessions[h].source;
    PendingOpensFit(s.tasks, sources, s.table.Keys);
    assert |s.table.Keys| == |s.table|;
  }

  lemma DisciplinedEnter(c: Config, s: State, t: nat, reading: nat)
    requires Inv(s) && NothingLost(s) && Enabled(c, s, Enter(t, reading))
    ensures Typed(Next(c, s, Enter(t, reading))) && NothingLost(Next(c, s, Enter(t, reading)))
  {
    InvStep(c, s, Enter(t, reading));
  }

  lemma DisciplinedRemove(c: Config, s: State, t: nat, p: Pair)
    requires Inv(s) && NothingLost(s) && Enabled(c, s, RemoveIf(t, p)) && Disciplined(s, RemoveIf(t, p))
    ensures Typed(Next(c, s, RemoveIf(t, p))) && NothingLost(Next(c, s, RemoveIf(t, p)))
  {
    InvStep(c, s, RemoveIf(t, p));
  }

  /** A close is recorded while the gauge still counts the session. */
  lemma DisciplinedAdvance(s: State, t: nat)
    requires Inv(s) && NothingLost(s) && At(s, t) && CanAdvance(s.tasks[t].pc)
    ensures Typed(AdvanceOp(s, t)) && NothingLost(AdvanceOp(s, t))
  {
    AdvanceShape(s, t);
    match s.tasks[t].pc
    case Marked(_, _) =>
      GaugeCoversCloses(s);
      CountPositive(s.tasks, t, ClosePending);
    case Removed(_, _) => DisciplinedFlag(s, CancelOp(s, t), t);
    case Cancelled(_, _) => DisciplinedFlag(s, MarkOp(s, t), t);
    case _ =>
  }

  lemma DisciplinedFlag(s: State, s': State, t: nat)
    requires Inv(s) && NothingLost(s) && At(s, t) && (s.tasks[t].pc.Removed? || s.tasks[t].pc.Cancelled?)
    requires s' == (if s.tasks[t].pc.Removed? then CancelOp(s, t) else MarkOp(s, t)) && Typed(s')
    ensures NothingLost(s')
  {
  }

  lemma DisciplinedLocal(c: Config, s: State, t: nat, step: LocalStep)
    requires Inv(s) && NothingLost(s) && Enabled(c, s, Local(t, step))
    ensures Typed(Next(c, s, Local(t, step))) && NothingLost(Next(c, s, Local(t, step)))
  {
    InvStep(c, s, Local(t, step));
    LocalHarmless(c, s, s.tasks[t], step);
  }

  lemma DisciplinedStep(c: Config, s: State, a: Action, s': State)
    requires Inv(s) && NothingLost(s) && Step(c, s, a, s') && Disciplined(s, a)
    ensures Inv(s') && NothingLost(s')
  {
    InvStep(c, s, a);
    match a
    case Local(t, step) => DisciplinedLocal(c, s, t, step);
    case Enter(t, reading) => DisciplinedEnter(c, s, t, reading);
    case RemoveIf(t, p) => DisciplinedRemove(c, s, t, p);
    case Advance(t) => DisciplinedAdvance(s, t);
    case _ =>
  }

  ghost predicate DisciplinedRun(c: Config, trace: seq<State>, acts: seq<Action>) {
    && Run(c, trace, acts)
    && forall k | 0 <= k < |acts| :: Typed(trace[k]) && Disciplined(trace[k], acts[k])
  }

  lemma {:induction false} DisciplinedRunKeeps(c: Config, trace: seq<State>, acts: seq<Action>, i: nat)
    requires DisciplinedRun(c, trace, acts) && i < |trace|
    ensures Inv(trace[i]) && NothingLost(trace[i])
    decreases i
  {
    if i == 0 {
      InitInv(trace[0]);
    } else {
      DisciplinedRunKeeps(c, trace, acts, i - 1);
      assert Step(c, trace[i - 1], acts[i - 1], trace[i]);
      DisciplinedStep(c, trace[i - 1], acts[i - 1], trace[i]);
    }
  }

  /** If no session is removed before its own open is recorded, the gauge is exact in every state. */
  lemma GaugeConservation(c: Config, trace: seq<State>, acts: seq<Action>, i: nat)
    requires DisciplinedRun(c, trace, acts) && i < |trace|
    ensures trace[i].lost == 0
    ensures trace[i].gauge + Count(trace[i].tasks, OpenPending)
          == |trace[i].table| + Count(trace[i].tasks, ClosePending)
    ensures (forall k | 0 <= k < |trace[i].tasks| ::
              !OpenPending(trace[i].tasks[k]) && !ClosePending(trace[i].tasks[k]))
            ==> trace[i].gauge == |trace[i].table|
  {
    DisciplinedRunKeeps(c, trace, acts, i);
    if forall k | 0 <= k < |trace[i].tasks| :: !OpenPending(trace[i].tasks[k]) && !ClosePending(trace[i].tasks[k]) {
      CountZero(trace[i].tasks, OpenPending);
      CountZero(trace[i].tasks, ClosePending);
    }
  }

  // ----- why the hypothesis is needed -----

  predicate Quiet(s: State) {
    forall k | 0 <= k < |s.tasks| :: !OpenPending(s.tasks[k]) && !ClosePending(s.tasks[k])
  }

  /** The guard of the saturating branch: a close is recorded while the gauge reads 0. */
  predicate SaturatesHere(s: State, a: Action) {
    a.Advance? && At(s, a.t) && s.tasks[a.t].pc.Marked? && s.gauge == 0
  }

  lemma LostIff(c: Config, s: State, a: Action, s': State)
    requires Step(c, s, a, s')
    ensures s'.lost == s.lost + Bit(SaturatesHere(s, a))
  {
  }

  lemma {:induction false} LostGrows(c: Config, trace: seq<State>, acts: seq<Action>, i: nat, j: nat)
    requires Run(c, trace, acts) && i <= j < |trace|
    ensures trace[i].lost <= trace[j].lost
    decreases j
  {
    if i < j {
      LostGrows(c, trace, acts, i, j - 1);
      assert Step(c, trace[j - 1], acts[j - 1], trace[j]);
      LostIff(c, trace[j - 1], acts[j - 1], trace[j]);
    }
  }

  lemma {:induction false} LostNothingIff(c: Config, trace: seq<State>, acts: seq<Action>, i: nat)
    requires Run(c, trace, acts) && i < |trace|
    ensures trace[i].lost == 0 <==> forall k | 0 <= k < i :: !SaturatesHere(trace[k], acts[k])
    decreases i
  {
    if i > 0 {
      LostNothingIff(c, trace, acts, i - 1);
      assert Step(c, trace[i - 1], acts[i - 1], trace[i]);
      LostIff(c, trace[i - 1], acts[i - 1], trace[i]);
    }
  }

  /** Conservation of the gauge holds in a state of a run iff no close before it found the gauge at 0. */
  lemma GaugeIsExactIff(c: Config, trace: seq<State>, acts: seq<Action>, i: nat)
    requires Run(c, trace, acts) && i < |trace|
    ensures (trace[i].gauge + Count(trace[i].tasks, OpenPending)
             == |trace[i].table| + Count(trace[i].tasks, ClosePending))
            <==> forall k | 0 <= k < i :: !SaturatesHere(trace[k], acts[k])
  {
    GaugeLaw(c, trace, acts, i);
    LostNothingIff(c, trace, acts, i);
  }

  /** A decrement once lost is never made up: every later quiet state over-counts the table. */
  lemma LeakIsPermanent(c: Config, trace: seq<State>, acts: seq<Action>, i: nat, j: nat)
    requires Run(c, trace, acts) && i <= j < |trace| && Quiet(trace[j])
    ensures trace[j].gauge >= |trace[j].table| + trace[i].lost
  {
    LostGrows(c, trace, acts, i, j);
    GaugeLaw(c, trace, acts, j);
    CountZero(trace[j].tasks, OpenPending);
    CountZero(trace[j].tasks, ClosePending);
  }

  const CLIENT := SocketAddr(0, 0)

  ghost function LeakConfig(): Config {
    Config(1, 1, (a: SocketAddr) => 0)
  }

  function LeakState(
    sessions: seq<Session>, table: map<SocketAddr, nat>, nextId: nat, gauge: nat, lost: nat,
    now: nat, l: Pc, k: Pc): State
  {
    State(sessions, table, nextId, gauge, lost, now, false, [Task(Listener, l), Task(Cleaner, k)])
  }

  /** The listener inserts; before it records the open, the clock jumps and the cleaner evicts. */
  function LeakTrace(): seq<State> {
    var x := CLIENT;
    var p := Pair(x, 1);
    var young := [Session(1, x, 0, false, false, Fresh)];
    var listed := [Session(1, x, 0, false, false, Listed)];
    var gone := [Session(1, x, 0, false, false, Gone)];
    var cancelled := [Session(1, x, 0, false, true, Gone)];
    var closed := [Session(1, x, 0, true, true, Gone)];
    [ LeakState([], map[], 1, 0, 0, 0, Serving, Waiting),
      LeakState([], map[], 1, 0, 0, 0, Missed(x), Waiting),
      LeakState([], map[], 2, 0, 0, 0, GotId(x, 1), Waiting),
      LeakState(young, map[], 2, 0, 0, 0, Built(0), Waiting),
      LeakState(listed, map[x := 0], 2, 0, 0, 0, Inserted(0), Waiting),
      LeakState(listed, map[x := 0], 2, 0, 0, 1, Inserted(0), Waiting),
      LeakState(listed, map[x := 0], 2, 0, 0, 1, Inserted(0), Collecting(1, 0, {})),
      LeakState(listed, map[x := 0], 2, 0, 0, 1, Inserted(0), Collecting(1, 1, {p})),
      LeakState(listed, map[x := 0], 2, 0, 0, 1, Inserted(0), Evicting({p})),
      LeakState(gone, map[], 2, 0, 0, 1, Inserted(0), Removed(0, {})),
      LeakState(cancelled, map[], 2, 0, 0, 1, Inserted(0), Cancelled(0, {})),
      LeakState(closed, map[], 2, 0, 0, 1, Inserted(0), Marked(0, {})),
      LeakState(closed, map[], 2, 0, 1, 1, Inserted(0), Evicting({})),
      LeakState(closed, map[], 2, 1, 1, 1, Opened(0), Evicting({})) ]
  }

  function LeakActs(): seq<Action> {
    [ Local(0, Lookup(CLIENT)), Advance(0), Advance(0), Enter(0, 0), SetClock(1), Local(1, Tick),
      Local(1, CollectShard), Local(1, EndCollect), RemoveIf(1, Pair(CLIENT, 1)), Advance(1), Advance(1), Advance(1),
      Advance(0) ]
  }

  lemma LeakMisses()
    ensures forall i | 0 <= i < 2 :: Step(LeakConfig(), LeakTrace()[i], LeakActs()[i], LeakTrace()[i + 1])
  {
    var c, trace, acts := LeakConfig(), LeakTrace(), LeakActs();
    assert Step(c, trace[0], acts[0], trace[1]);
    assert Step(c, trace[1], acts[1], trace[2]);
  }

  lemma LeakInserts()
    ensures forall i | 2 <= i < 4 :: Step(LeakConfig(), LeakTrace()[i], LeakActs()[i], LeakTrace()[i + 1])
  {
    var c, trace, acts := LeakConfig(), LeakTrace(), LeakActs();
    assert Step(c, trace[2], acts[2], trace[3]);
    assert Step(c, trace[3], acts[3], trace[4]);
  }

  lemma LeakTicks()
    ensures forall i | 4 <= i < 6 :: Step(LeakConfig(), LeakTrace()[i], LeakActs()[i], LeakTrace()[i + 1])
  {
    var c, trace, acts := LeakConfig(), LeakTrace(), LeakActs();
    assert Step(c, trace[4], acts[4], trace[5]);
    assert Step(c, trace[5], acts[5], trace[6]);
  }

  lemma LeakSamples()
    ensures forall i | 6 <= i < 7 :: Step(LeakConfig(), LeakTrace()[i], LeakActs()[i], LeakTrace()[i + 1])
  {
    var c, trace, acts := LeakConfig(), LeakTrace(), LeakActs();
    var p := Pair(CLIENT, 1);
    var pairs := ShardPairs(c, trace[6], Cleaner, 1, 0);
    assert trace[6].table.Keys == {CLIENT} && c.shardOf(CLIENT) == 0;
    assert CLIENT in trace[6].table && IsStale(c.timeout, 1, trace[6].sessions[trace[6].table[CLIENT]].lastActive);
    assert p in pairs;
    assert pairs == {p};
    assert LocalPc(c, trace[6], trace[6].tasks[1], CollectShard) == Collecting(1, 1, {p});
    assert Next(c, trace[6], acts[6]).tasks == trace[7].tasks;
    assert Step(c, trace[6], acts[6], trace[7]);
  }

  lemma LeakEvicts()
    ensures forall i | 7 <= i < 9 :: Step(LeakConfig(), LeakTrace()[i], LeakActs()[i], LeakTrace()[i + 1])
  {
    var c, trace, acts := LeakConfig(), LeakTrace(), LeakActs();
    var p := Pair(CLIENT, 1);
    assert Step(c, trace[7], acts[7], trace[8]);
    assert trace[8].table - {CLIENT} == map[] && {p} - {p} == {};
    assert Step(c, trace[8], acts[8], trace[9]);
  }

  lemma LeakCloses()
    ensures forall i | 9 <= i < 13 :: Step(LeakConfig(), LeakTrace()[i], LeakActs()[i], LeakTrace()[i + 1])
  {
    var c, trace, acts := LeakConfig(), LeakTrace(), LeakActs();
    assert Step(c, trace[9], acts[9], trace[10]);
    assert Step(c, trace[10], acts[10], trace[11]);
    assert Step(c, trace[11], acts[11], trace[12]);
    assert Step(c, trace[12], acts[12], trace[13]);
  }

  /** Without the hypothesis conservation fails: a quiet state with an empty table and a gauge of 1. */
  lemma GaugeCanLeak()
    ensures Run(LeakConfig(), LeakTrace(), LeakActs())
    ensures var s := LeakTrace()[13]; Quiet(s) && s.table == map[] && s.gauge == 1 && s.lost == 1
  {
    LeakMisses();
    LeakInserts();
    LeakTicks();
    LeakSamples();
    LeakEvicts();
    LeakCloses();
  }
}
