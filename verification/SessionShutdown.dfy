/**
 * The port as src/listener/udp.rs runs it: one listener task, which alone inserts sessions and
 * runs `shutdown_all` when its loop ends, beside cleaners and reply tasks.
 */
module SessionShutdown {
  import opened Net
  import opened Counting
  import opened SessionProtocol
  import opened SessionTheorems

  ghost predicate OneListener(s: State) {
    forall i | 0 <= i < |s.tasks| && s.tasks[i].role.Listener? :: i == 0
  }

  predicate Creating(pc: Pc) {
    pc.Serving? || pc.Missed? || pc.GotId? || pc.Built? || pc.Inserted? || pc.Opened?
  }

  predicate RoleOk(x: Task) {
    && (Creating(x.pc) ==> x.role.Listener?)
    && (x.pc.Waiting? ==> x.role.Cleaner?)
    && (x.pc.Receiving? ==> x.role.Replier?)
    && (x.pc.Collecting? ==> !x.role.Replier?)
  }

  ghost predicate Sharded(c: Config) {
    forall a: SocketAddr :: c.shardOf(a) < c.shards
  }

  function PairsOf(pc: Pc): set<Pair> {
    match pc
    case Collecting(_, _, found) => found
    case Evicting(todo) => todo
    case Removed(_, todo) => todo
    case Cancelled(_, todo) => todo
    case Marked(_, todo) => todo
    case _ => {}
  }

  ghost predicate RolesInv(s: State) {
    OneListener(s) && forall i | 0 <= i < |s.tasks| :: RoleOk(s.tasks[i])
  }

  lemma RolesUpdate(s: State, s': State, t: nat, pc: Pc)
    requires RolesInv(s) && At(s, t) && RoleOk(Task(s.tasks[t].role, pc))
    requires s'.tasks == s.tasks[t := Task(s.tasks[t].role, pc)]
    ensures RolesInv(s')
  {
  }

  lemma LocalRoles(c: Config, s: State, t: nat, step: LocalStep)
    requires Typed(s) && RolesInv(s) && At(s, t) && LocalEnabled(c, s, s.tasks[t].pc, step)
    ensures RolesInv(SetPc(s, t, LocalPc(c, s, s.tasks[t], step)))
  {
    assert RoleOk(s.tasks[t]);
    RolesUpdate(s, SetPc(s, t, LocalPc(c, s, s.tasks[t], step)), t, LocalPc(c, s, s.tasks[t], step));
  }

  lemma EnterRoles(c: Config, s: State, t: nat, reading: nat)
    requires Inv(s) && RolesInv(s) && Enabled(c, s, Enter(t, reading))
    ensures RolesInv(Next(c, s, Enter(t, reading)))
  {
    assert RoleOk(s.tasks[t]);
    var s' := Next(c, s, Enter(t, reading));
    RolesUpdate(s, s', t, s'.tasks[t].pc);
  }

  lemma RemoveIfRoles(c: Config, s: State, t: nat, p: Pair)
    requires Inv(s) && RolesInv(s) && Enabled(c, s, RemoveIf(t, p))
    ensures RolesInv(Next(c, s, RemoveIf(t, p)))
  {
    var s' := Next(c, s, RemoveIf(t, p));
    RolesUpdate(s, s', t, s'.tasks[t].pc);
  }

  lemma RolesStep(c: Config, s: State, a: Action, s': State)
    requires Inv(s) && RolesInv(s) && Step(c, s, a, s')
    ensures RolesInv(s')
  {
    match a
    case SetClock(_) =>
    case Touch(_, _) =>
    case Shutdown =>
    case Local(t, step) => LocalRoles(c, s, t, step);
    case Enter(t, reading) => EnterRoles(c, s, t, reading);
    case RemoveIf(t, p) => RemoveIfRoles(c, s, t, p);
    case Advance(t) => AdvanceRoles(s, t);
  }

  lemma AdvanceRoles(s: State, t: nat)
    requires Typed(s) && RolesInv(s) && At(s, t) && CanAdvance(s.tasks[t].pc)
    ensures RolesInv(AdvanceOp(s, t))
  {
    assert RoleOk(s.tasks[t]);
    if s.tasks[t].pc.Opened? {
      RolesUpdate(s, SetPc(s, t, Serving), t, Serving);
    } else {
      RolesUpdate(s, AdvanceOp(s, t), t, AdvanceOp(s, t).tasks[t].pc);
    }
  }

  // ----- shutdown_all -----

  predicate HasTodo(pc: Pc) {
    pc.Evicting? || pc.Removed? || pc.Cancelled? || pc.Marked?
  }

  ghost predicate Covers(s: State, todo: set<Pair>)
    requires Typed(s)
  {
    forall a | a in s.table :: Pair(a, s.sessions[s.table[a]].id) in todo
  }

  /** How far `shutdown_all` has come: what is left in the table is on its list or in a later shard. */
  ghost predicate DrainOk(c: Config, s: State, pc: Pc)
    requires Typed(s)
  {
    && (pc.Collecting? ==>
          forall a | a in s.table && c.shardOf(a) < pc.shard :: Pair(a, s.sessions[s.table[a]].id) in pc.found)
    && (HasTodo(pc) ==> Covers(s, pc.todo))
    && (pc.Stopped? ==> s.table == map[])
  }

  ghost predicate Draining(c: Config, s: State)
    requires Typed(s)
  {
    s.tasks != [] && s.tasks[0].role.Listener? ==> DrainOk(c, s, s.tasks[0].pc)
  }

  /** `s'` lists no entry that `s` does not list. */
  ghost predicate Shrinks(s: State, s': State)
    requires Typed(s) && Typed(s')
  {
    forall a | a in s'.table ::
      a in s.table && s'.table[a] == s.table[a] && s'.sessions[s'.table[a]].id == s.sessions[s.table[a]].id
  }

  /** Removals by other tasks cannot undo progress. */
  lemma DrainShrinks(c: Config, s: State, s': State, pc: Pc)
    requires Typed(s) && Typed(s') && DrainOk(c, s, pc) && Shrinks(s, s')
    ensures DrainOk(c, s', pc)
  {
  }

  /** The listener's own step: from shard to shard, then through its list, then to an empty table. */
  lemma DrainOwn(c: Config, s: State, task: Task, step: LocalStep)
    requires Typed(s) && Sharded(c) && LocalEnabled(c, s, task.pc, step) && task.role.Listener? && RoleOk(task)
    requires HasHandle(task.pc) ==> task.pc.h < |s.sessions|
    requires DrainOk(c, s, task.pc)
    ensures DrainOk(c, s, LocalPc(c, s, task, step))
  {
  }

  lemma DrainLocal(c: Config, s: State, t: nat, step: LocalStep)
    requires Inv(s) && Sharded(c) && RolesInv(s) && Draining(c, s) && Enabled(c, s, Local(t, step))
    ensures Typed(Next(c, s, Local(t, step))) && Draining(c, Next(c, s, Local(t, step)))
  {
    LocalHarmless(c, s, s.tasks[t], step);
    var pc := LocalPc(c, s, s.tasks[t], step);
    if t == 0 && s.tasks[0].role.Listener? {
      DrainOwn(c, s, s.tasks[0], step);
    }
    DrainSameTable(c, s, SetPc(s, t, pc), t);
  }

  /** Only the program counter of task `t` has moved. */
  lemma DrainSameTable(c: Config, s: State, s': State, t: nat)
    requires Typed(s) && Typed(s') && At(s, t) && Draining(c, s)
    requires s'.sessions == s.sessions && s'.table == s.table && |s'.tasks| == |s.tasks|
    requires s'.tasks[0].role == s.tasks[0].role && (t != 0 ==> s'.tasks[0] == s.tasks[0])
    requires t == 0 && s.tasks[0].role.Listener? ==> DrainOk(c, s, s'.tasks[0].pc)
    ensures Draining(c, s')
  {
  }

  lemma RemoveShrinks(s: State, t: nat, source: SocketAddr, rest: set<Pair>)
    requires Shape(s) && At(s, t) && s.tasks[t].pc.Evicting? && source in s.table
    ensures Typed(RemoveOp(s, t, source, rest)) && Shrinks(s, RemoveOp(s, t, source, rest))
  {
    RemoveShape(s, t, source, rest);
  }

  /** What a `remove_if` leaves: a smaller table, no entry of the pair, and a shorter list. */
  lemma RemoveIfEffect(c: Config, s: State, t: nat, p: Pair)
    requires Inv(s) && Enabled(c, s, RemoveIf(t, p))
    ensures var s' := Next(c, s, RemoveIf(t, p));
            && Typed(s') && Shrinks(s, s') && !Hits(s', p)
            && |s'.tasks| == |s.tasks| && s'.tasks[t].role == s.tasks[t].role
            && (forall i | 0 <= i < |s.tasks| && i != t :: s'.tasks[i] == s.tasks[i])
            && HasTodo(s'.tasks[t].pc) && s'.tasks[t].pc.todo == s.tasks[t].pc.todo - {p}
  {
    InvStep(c, s, RemoveIf(t, p));
    if Hits(s, p) {
      RemoveShrinks(s, t, p.source, s.tasks[t].pc.todo - {p});
    }
  }

  lemma DrainRemove(c: Config, s: State, t: nat, p: Pair)
    requires Inv(s) && RolesInv(s) && Draining(c, s) && Enabled(c, s, RemoveIf(t, p))
    ensures Typed(Next(c, s, RemoveIf(t, p))) && Draining(c, Next(c, s, RemoveIf(t, p)))
  {
    RemoveIfEffect(c, s, t, p);
    var s' := Next(c, s, RemoveIf(t, p));
    if s.tasks[0].role.Listener? {
      DrainShrinks(c, s, s', s.tasks[0].pc);
      if t == 0 {
        forall a | a in s'.table
          ensures Pair(a, s'.sessions[s'.table[a]].id) in s'.tasks[0].pc.todo
        {
          assert Hits(s', Pair(a, s'.sessions[s'.table[a]].id));
        }
      }
    }
  }

  /** An inserted session or a touched one; nobody else moves. */
  lemma EnterTasks(c: Config, s: State, t: nat, reading: nat)
    requires Typed(s) && Enabled(c, s, Enter(t, reading))
    ensures var tasks := Next(c, s, Enter(t, reading)).tasks;
            && |tasks| == |s.tasks| && tasks[t].role == s.tasks[t].role
            && (tasks[t].pc.Serving? || tasks[t].pc.Inserted?)
            && forall i | 0 <= i < |s.tasks| && i != t :: tasks[i] == s.tasks[i]
  {
  }

  lemma EnterTyped(c: Config, s: State, t: nat, reading: nat)
    requires Inv(s) && Enabled(c, s, Enter(t, reading))
    ensures Typed(Next(c, s, Enter(t, reading)))
  {
    InvStep(c, s, Enter(t, reading));
  }

  lemma DrainEnter(c: Config, s: State, t: nat, reading: nat)
    requires Inv(s) && RolesInv(s) && Enabled(c, s, Enter(t, reading))
    ensures Typed(Next(c, s, Enter(t, reading))) && Draining(c, Next(c, s, Enter(t, reading)))
  {
    EnterTyped(c, s, t, reading);
    EnterTasks(c, s, t, reading);
    assert RoleOk(s.tasks[t]);
  }

  lemma AdvanceShrinks(s: State, t: nat)
    requires Inv(s) && At(s, t) && CanAdvance(s.tasks[t].pc)
    ensures Typed(AdvanceOp(s, t)) && Shrinks(s, AdvanceOp(s, t))
  {
    AdvanceShape(s, t);
  }

  /** It moves on with the list it had; only a reply task may be added. */
  lemma AdvanceTasks(s: State, t: nat)
    requires Typed(s) && At(s, t) && CanAdvance(s.tasks[t].pc)
    ensures var tasks := AdvanceOp(s, t).tasks;
            && |s.tasks| <= |tasks|
            && (forall i | 0 <= i < |s.tasks| && i != t :: tasks[i] == s.tasks[i])
            && (forall i | |s.tasks| <= i < |tasks| :: tasks[i].role.Replier? && tasks[i].pc.Receiving?)
            && tasks[t].role == s.tasks[t].role
            && !tasks[t].pc.Collecting? && !tasks[t].pc.Stopped?
            && (HasTodo(tasks[t].pc) ==> HasTodo(s.tasks[t].pc) && tasks[t].pc.todo == s.tasks[t].pc.todo)
  {
  }

  lemma DrainAdvance(c: Config, s: State, t: nat)
    requires Inv(s) && RolesInv(s) && Draining(c, s) && At(s, t) && CanAdvance(s.tasks[t].pc)
    ensures Typed(AdvanceOp(s, t)) && Draining(c, AdvanceOp(s, t))
  {
    AdvanceShrinks(s, t);
    AdvanceTasks(s, t);
    if s.tasks[0].role.Listener? {
      DrainShrinks(c, s, AdvanceOp(s, t), s.tasks[0].pc);
    }
  }

  lemma DrainStep(c: Config, s: State, a: Action, s': State)
    requires Inv(s) && Sharded(c) && RolesInv(s) && Draining(c, s) && Step(c, s, a, s')
    ensures Inv(s') && Draining(c, s')
  {
    InvStep(c, s, a);
    match a
    case SetClock(_) =>
    case Touch(_, _) =>
    case Shutdown =>
    case Local(t, step) => DrainLocal(c, s, t, step);
    case RemoveIf(t, p) => DrainRemove(c, s, t, p);
    case Enter(t, reading) => DrainEnter(c, s, t, reading);
    case Advance(t) => DrainAdvance(c, s, t);
  }

  /** One listener alone inserts; shards partition the addresses. */
  ghost predicate PortRun(c: Config, trace: seq<State>, acts: seq<Action>) {
    Run(c, trace, acts) && OneListener(trace[0]) && Sharded(c)
  }

  lemma {:induction false} PortRunKeeps(c: Config, trace: seq<State>, acts: seq<Action>, i: nat)
    requires PortRun(c, trace, acts) && i < |trace|
    ensures Inv(trace[i]) && RolesInv(trace[i]) && Draining(c, trace[i])
    decreases i
  {
    if i == 0 {
      InitInv(trace[0]);
    } else {
      PortRunKeeps(c, trace, acts, i - 1);
      assert Step(c, trace[i - 1], acts[i - 1], trace[i]);
      RolesStep(c, trace[i - 1], acts[i - 1], trace[i]);
      DrainStep(c, trace[i - 1], acts[i - 1], trace[i]);
    }
  }

  /** When the listener has finished `shutdown_all` the table is empty, whatever the others removed meanwhile. */
  lemma ShutdownEmptiesTable(c: Config, trace: seq<State>, acts: seq<Action>, i: nat)
    requires PortRun(c, trace, acts) && i < |trace|
    requires trace[i].tasks != [] && trace[i].tasks[0] == Task(Listener, Stopped)
    ensures trace[i].table == map[]
  {
    PortRunKeeps(c, trace, acts, i);
  }

  // ----- the open-before-remove hypothesis, from the clock -----

  /** No session waits a whole idle timeout for its own open to be recorded. */
  ghost predicate Calm(c: Config, s: State)
    requires Typed(s)
  {
    forall i | 0 <= i < |s.tasks| && s.tasks[i].pc.Inserted? ::
      !IsStale(c.timeout, s.now, s.sessions[s.tasks[i].pc.h].lastActive)
  }

  /** Every pair on a list was taken from a published session. */
  ghost predicate PairOk(s: State, p: Pair) {
    && p.id < s.nextId
    && (forall i | 0 <= i < |s.tasks| && s.tasks[i].pc.GotId? :: s.tasks[i].pc.id != p.id)
    && (forall h | 0 <= h < |s.sessions| && s.sessions[h].id == p.id :: !s.sessions[h].life.Fresh?)
    && (forall i | 0 <= i < |s.tasks| && s.tasks[i].pc.Inserted? && s.tasks[i].pc.h < |s.sessions| ::
          s.sessions[s.tasks[i].pc.h].id != p.id)
  }

  ghost predicate TaskCalm(s: State, pc: Pc) {
    && (forall p | p in PairsOf(pc) :: PairOk(s, p))
    && (pc.Collecting? ==> pc.sampled <= s.now)
    && (pc.Receiving? ==> forall i | 0 <= i < |s.tasks| && s.tasks[i].pc.Inserted? :: s.tasks[i].pc.h != pc.h)
  }

  /** No remover knows a session whose open is unrecorded. */
  ghost predicate Unexposed(s: State) {
    forall i | 0 <= i < |s.tasks| :: TaskCalm(s, s.tasks[i].pc)
  }

  lemma UnexposedUpdate(s: State, s': State, t: nat, pc: Pc)
    requires Unexposed(s) && At(s, t) && !pc.GotId? && !pc.Inserted? && TaskCalm(s, pc)
    requires s'.tasks == s.tasks[t := Task(s.tasks[t].role, pc)] && s'.nextId == s.nextId && s'.now >= s.now
    requires |s'.sessions| == |s.sessions|
    requires forall h | 0 <= h < |s.sessions| ::
               s'.sessions[h].id == s.sessions[h].id && (s'.sessions[h].life.Fresh? ==> s.sessions[h].life.Fresh?)
    ensures Unexposed(s')
  {
    forall p | PairOk(s, p)
      ensures PairOk(s', p)
    {
    }
    forall i | 0 <= i < |s'.tasks|
      ensures TaskCalm(s', s'.tasks[i].pc)
    {
      assert i != t ==> TaskCalm(s, s.tasks[i].pc);
    }
  }

  lemma CollectCalm(c: Config, s: State, t: nat)
    requires Inv(s) && RolesInv(s) && Calm(c, s) && Unexposed(s)
    requires At(s, t) && LocalEnabled(c, s, s.tasks[t].pc, CollectShard)
    ensures TaskCalm(s, LocalPc(c, s, s.tasks[t], CollectShard))
  {
    var pc := s.tasks[t].pc;
    assert TaskCalm(s, pc) && RoleOk(s.tasks[t]);
    forall p | p in ShardPairs(c, s, s.tasks[t].role, pc.sampled, pc.shard)
      ensures PairOk(s, p)
    {
      var h := s.table[p.source];
      assert p.id == s.sessions[h].id && s.sessions[h].life.Listed?;
      forall i | 0 <= i < |s.tasks|
        ensures s.tasks[i].pc.GotId? ==> s.tasks[i].pc.id != p.id
        ensures s.tasks[i].pc.Inserted? ==> s.sessions[s.tasks[i].pc.h].id != p.id
      {
        assert TaskOk(s, s.tasks[i].pc) && RoleOk(s.tasks[i]);
      }
    }
  }

  lemma LocalCalm(c: Config, s: State, t: nat, step: LocalStep)
    requires Inv(s) && RolesInv(s) && Calm(c, s) && Unexposed(s) && Enabled(c, s, Local(t, step))
    ensures Unexposed(Next(c, s, Local(t, step)))
  {
    var pc := LocalPc(c, s, s.tasks[t], step);
    assert TaskCalm(s, s.tasks[t].pc);
    if step.CollectShard? {
      CollectCalm(c, s, t);
    } else if step.ReplyExit? {
      var h := s.tasks[t].pc.h;
      assert TaskOk(s, s.tasks[t].pc);
      forall i | 0 <= i < |s.tasks|
        ensures s.tasks[i].pc.GotId? ==> s.tasks[i].pc.id != s.sessions[h].id
        ensures s.tasks[i].pc.Inserted? ==> s.sessions[s.tasks[i].pc.h].id != s.sessions[h].id
      {
        assert TaskOk(s, s.tasks[i].pc);
      }
      assert PairOk(s, Pair(s.sessions[h].source, s.sessions[h].id));
    }
    UnexposedUpdate(s, SetPc(s, t, pc), t, pc);
  }

  lemma InsertCalm(s: State, t: nat)
    requires Inv(s) && Unexposed(s) && At(s, t) && s.tasks[t].pc.Built?
    ensures Unexposed(InsertOp(s, t))
  {
    var s' := InsertOp(s, t);
    assert TaskOk(s, s.tasks[t].pc);
    forall i | 0 <= i < |s'.tasks|
      ensures TaskCalm(s', s'.tasks[i].pc)
    {
      assert i != t ==> TaskCalm(s, s.tasks[i].pc) && TaskOk(s, s.tasks[i].pc);
    }
  }

  lemma EnterCalm(c: Config, s: State, t: nat, reading: nat)
    requires Inv(s) && Unexposed(s) && Enabled(c, s, Enter(t, reading))
    ensures Unexposed(Next(c, s, Enter(t, reading)))
  {
    var source := s.sessions[s.tasks[t].pc.h].source;
    if source in s.table {
      UnexposedUpdate(s, SetPc(TouchOp(s, s.table[source], reading), t, Serving), t, Serving);
    } else {
      InsertCalm(s, t);
    }
  }

  lemma RemoveIfCalm(c: Config, s: State, t: nat, p: Pair)
    requires Inv(s) && Unexposed(s) && Enabled(c, s, RemoveIf(t, p))
    ensures Unexposed(Next(c, s, RemoveIf(t, p))) && Disciplined(s, RemoveIf(t, p))
  {
    var s' := Next(c, s, RemoveIf(t, p));
    assert TaskCalm(s, s.tasks[t].pc) && PairOk(s, p);
    UnexposedUpdate(s, s', t, s'.tasks[t].pc);
  }

  lemma SpawnCalm(s: State, t: nat)
    requires Inv(s) && RolesInv(s) && Unexposed(s) && At(s, t) && s.tasks[t].pc.Opened?
    ensures Unexposed(SpawnOp(s, t))
  {
    var mid := SetPc(s, t, Serving);
    UnexposedUpdate(s, mid, t, Serving);
    forall i | 0 <= i < |mid.tasks|
      ensures !mid.tasks[i].pc.Inserted?
    {
      assert RoleOk(s.tasks[i]) && RoleOk(s.tasks[t]);
    }
  }

  lemma FetchIdCalm(s: State, t: nat)
    requires Unexposed(s) && At(s, t) && s.tasks[t].pc.Missed?
    ensures Unexposed(FetchIdOp(s, t))
  {
    var s' := FetchIdOp(s, t);
    forall i | 0 <= i < |s'.tasks|
      ensures TaskCalm(s', s'.tasks[i].pc)
    {
      assert i != t ==> TaskCalm(s, s.tasks[i].pc);
    }
  }

  lemma BuildCalm(s: State, t: nat)
    requires Inv(s) && Unexposed(s) && At(s, t) && s.tasks[t].pc.GotId?
    ensures Unexposed(BuildOp(s, t))
  {
    var s' := BuildOp(s, t);
    forall i | 0 <= i < |s'.tasks|
      ensures TaskCalm(s', s'.tasks[i].pc)
    {
      assert i != t ==> TaskCalm(s, s.tasks[i].pc);
    }
  }

  lemma AdvanceCalm(s: State, t: nat)
    requires Inv(s) && RolesInv(s) && Unexposed(s) && At(s, t) && CanAdvance(s.tasks[t].pc)
    ensures Unexposed(AdvanceOp(s, t))
  {
    assert TaskCalm(s, s.tasks[t].pc);
    var pc := s.tasks[t].pc;
    if pc.Missed? {
      FetchIdCalm(s, t);
    } else if pc.GotId? {
      BuildCalm(s, t);
    } else if pc.Opened? {
      SpawnCalm(s, t);
    } else {
      UnexposedUpdate(s, AdvanceOp(s, t), t, AdvanceOp(s, t).tasks[t].pc);
    }
  }

  /** On a calm port the clock hypothesis alone gives the open-before-remove discipline. */
  lemma CalmStep(c: Config, s: State, a: Action, s': State)
    requires Inv(s) && RolesInv(s) && Calm(c, s) && Unexposed(s) && Step(c, s, a, s')
    requires a.SetClock? ==> a.now >= s.now
    ensures Disciplined(s, a) && Unexposed(s')
  {
    match a
    case SetClock(_) => assert forall i | 0 <= i < |s.tasks| :: TaskCalm(s, s.tasks[i].pc);
    case Touch(_, _) => assert forall i | 0 <= i < |s.tasks| :: TaskCalm(s, s.tasks[i].pc);
    case Shutdown => assert forall i | 0 <= i < |s.tasks| :: TaskCalm(s, s.tasks[i].pc);
    case Local(t, step) => LocalCalm(c, s, t, step);
    case Enter(t, reading) => EnterCalm(c, s, t, reading);
    case RemoveIf(t, p) => RemoveIfCalm(c, s, t, p);
    case Advance(t) => AdvanceCalm(s, t);
  }

  /** The clock never goes back, and never runs a whole timeout ahead of an unrecorded open. */
  ghost predicate CalmPortRun(c: Config, trace: seq<State>, acts: seq<Action>) {
    && PortRun(c, trace, acts)
    && (forall k | 0 <= k < |acts| :: Typed(trace[k]) && Calm(c, trace[k]))
    && (forall k | 0 <= k < |acts| && acts[k].SetClock? :: acts[k].now >= trace[k].now)
  }

  lemma CalmAt(c: Config, trace: seq<State>, acts: seq<Action>, i: nat)
    requires CalmPortRun(c, trace, acts) && i < |acts| && Unexposed(trace[i])
    ensures Typed(trace[i]) && Disciplined(trace[i], acts[i]) && Unexposed(trace[i + 1])
  {
    PortRunKeeps(c, trace, acts, i);
    assert Step(c, trace[i], acts[i], trace[i + 1]);
    CalmStep(c, trace[i], acts[i], trace[i + 1]);
  }

  lemma {:induction false} CalmPortRunKeeps(c: Config, trace: seq<State>, acts: seq<Action>, i: nat)
    requires CalmPortRun(c, trace, acts) && i < |trace|
    ensures Unexposed(trace[i])
    decreases i
  {
    if i > 0 {
      CalmPortRunKeeps(c, trace, acts, i - 1);
      CalmAt(c, trace, acts, i - 1);
    }
  }

  /**
   * After shutdown the table is empty and the gauge counts the closes still being recorded and
   * the decrements lost; once every remover has finished it is 0 iff no close found it at 0.
   */
  lemma ShutdownGaugeExactly(c: Config, trace: seq<State>, acts: seq<Action>, i: nat)
    requires PortRun(c, trace, acts) && i < |trace|
    requires trace[i].tasks != [] && trace[i].tasks[0] == Task(Listener, Stopped)
    ensures trace[i].table == map[]
    ensures trace[i].gauge == Count(trace[i].tasks, ClosePending) + trace[i].lost
    ensures (forall k | 0 <= k < |trace[i].tasks| :: !ClosePending(trace[i].tasks[k])) ==>
              (trace[i].gauge == 0 <==> forall k | 0 <= k < i :: !SaturatesHere(trace[k], acts[k]))
  {
    ShutdownEmptiesTable(c, trace, acts, i);
    GaugeLaw(c, trace, acts, i);
    LostNothingIff(c, trace, acts, i);
    PortRunKeeps(c, trace, acts, i);
    forall k | 0 <= k < |trace[i].tasks|
      ensures !OpenPending(trace[i].tasks[k])
    {
      assert RoleOk(trace[i].tasks[k]);
    }
    CountZero(trace[i].tasks, OpenPending);
    if forall k | 0 <= k < |trace[i].tasks| :: !ClosePending(trace[i].tasks[k]) {
      CountZero(trace[i].tasks, ClosePending);
    }
  }

  /** If no session is removed before its own open is recorded, the gauge ends at 0. */
  lemma ShutdownZeroesGauge(c: Config, trace: seq<State>, acts: seq<Action>, i: nat)
    requires PortRun(c, trace, acts) && DisciplinedRun(c, trace, acts) && i < |trace|
    requires trace[i].tasks != [] && trace[i].tasks[0] == Task(Listener, Stopped)
    ensures trace[i].gauge == Count(trace[i].tasks, ClosePending)
    ensures (forall k | 0 <= k < |trace[i].tasks| :: !ClosePending(trace[i].tasks[k])) ==> trace[i].gauge == 0
  {
    ShutdownGaugeExactly(c, trace, acts, i);
    GaugeConservation(c, trace, acts, i);
    if forall k | 0 <= k < |trace[i].tasks| :: !ClosePending(trace[i].tasks[k]) {
      CountZero(trace[i].tasks, ClosePending);
    }
  }

  /** With one listener the condition on the clock is enough for that discipline. */
  lemma CalmIsDisciplined(c: Config, trace: seq<State>, acts: seq<Action>)
    requires CalmPortRun(c, trace, acts)
    ensures DisciplinedRun(c, trace, acts)
  {
    forall k | 0 <= k < |acts|
      ensures Typed(trace[k]) && Disciplined(trace[k], acts[k])
    {
      CalmPortRunKeeps(c, trace, acts, k);
      CalmAt(c, trace, acts, k);
    }
  }
}
