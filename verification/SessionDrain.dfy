/**
 * How the removals of a task end (src/udp_session.rs): `shutdown_all`, a cleanup tick and the exit
 * of a reply loop each finish in a bounded number of their own steps, whatever the others do.
 */
module SessionDrain {
  import opened Net
  import opened Counting
  import opened SessionProtocol
  import opened SessionShutdown

  /** The task whose operation the step is, if it is one. */
  function OwnerOf(a: Action): Option<nat> {
    match a
    case Local(t, _) => Some(t)
    case Enter(t, _) => Some(t)
    case RemoveIf(t, _) => Some(t)
    case Advance(t) => Some(t)
    case _ => None
  }

  /** 2 while a list is collected, 1 while it is worked off, 0 otherwise. */
  function Phase(pc: Pc): nat {
    if pc.Collecting? then 2 else if HasTodo(pc) then 1 else 0
  }

  /** How many steps of its own the task can take before the phase ends, at most. */
  function StepsLeft(c: Config, pc: Pc): nat {
    match pc
    case Collecting(_, shard, _) => SaturatingSub(c.shards, shard) + 1
    case Evicting(todo) => 4 * |todo| + 1
    case Removed(_, todo) => 4 * |todo| + 4
    case Cancelled(_, todo) => 4 * |todo| + 3
    case Marked(_, todo) => 4 * |todo| + 2
    case _ => 0
  }

  /** The phase goes down, or the same phase has less left. */
  predicate Progress(c: Config, pc: Pc, pc': Pc) {
    Phase(pc') < Phase(pc) || (Phase(pc') == Phase(pc) && StepsLeft(c, pc') < StepsLeft(c, pc))
  }

  lemma LocalProgress(c: Config, s: State, t: nat, step: LocalStep)
    requires Typed(s) && Enabled(c, s, Local(t, step)) && Phase(s.tasks[t].pc) > 0
    ensures Progress(c, s.tasks[t].pc, LocalPc(c, s, s.tasks[t], step))
  {
  }

  lemma RemoveIfProgress(c: Config, s: State, t: nat, p: Pair)
    requires Inv(s) && Enabled(c, s, RemoveIf(t, p))
    ensures Progress(c, s.tasks[t].pc, Next(c, s, RemoveIf(t, p)).tasks[t].pc)
  {
    assert |s.tasks[t].pc.todo - {p}| == |s.tasks[t].pc.todo| - 1;
  }

  lemma AdvanceProgress(c: Config, s: State, t: nat)
    requires Inv(s) && At(s, t) && CanAdvance(s.tasks[t].pc) && Phase(s.tasks[t].pc) > 0
    ensures Progress(c, s.tasks[t].pc, AdvanceOp(s, t).tasks[t].pc)
  {
  }

  /** Every step a remover takes brings it forward. */
  lemma OwnStepProgress(c: Config, s: State, a: Action, t: nat)
    requires Inv(s) && Enabled(c, s, a) && OwnerOf(a) == Some(t) && At(s, t) && Phase(s.tasks[t].pc) > 0
    ensures At(Next(c, s, a), t) && Progress(c, s.tasks[t].pc, Next(c, s, a).tasks[t].pc)
  {
    match a
    case Local(_, step) => LocalProgress(c, s, t, step);
    case RemoveIf(_, p) => RemoveIfProgress(c, s, t, p);
    case Advance(_) =>
      AdvanceProgress(c, s, t);
      AdvanceTasks(s, t);
    case _ =>
  }

  /** No step of another task touches it. */
  lemma OtherStepsStandBy(c: Config, s: State, a: Action, t: nat)
    requires Inv(s) && Enabled(c, s, a) && OwnerOf(a) != Some(t) && At(s, t)
    ensures At(Next(c, s, a), t) && Next(c, s, a).tasks[t] == s.tasks[t]
  {
    match a
    case Enter(u, reading) => EnterTasks(c, s, u, reading);
    case RemoveIf(u, p) => RemoveIfEffect(c, s, u, p);
    case Advance(u) => AdvanceTasks(s, u);
    case _ =>
  }

  /** A remover never waits for anybody. */
  lemma RemoverNeverStuck(c: Config, s: State, t: nat)
    requires At(s, t) && Phase(s.tasks[t].pc) > 0
    ensures exists a :: OwnerOf(a) == Some(t) && Enabled(c, s, a)
  {
    var pc := s.tasks[t].pc;
    if pc.Collecting? {
      var step := if pc.shard < c.shards then CollectShard else EndCollect;
      assert Enabled(c, s, Local(t, step));
    } else if pc.Evicting? && pc.todo == {} {
      assert Enabled(c, s, Local(t, EndEvict));
    } else if pc.Evicting? {
      var p :| p in pc.todo;
      assert Enabled(c, s, RemoveIf(t, p));
    } else {
      assert Enabled(c, s, Advance(t));
    }
  }

  /** The listener that has worked off its list has stopped. */
  lemma ListenerEndsStopped(c: Config, s: State, a: Action, t: nat)
    requires Inv(s) && Enabled(c, s, a) && At(s, t) && s.tasks[t].role.Listener? && Phase(s.tasks[t].pc) > 0
    ensures At(Next(c, s, a), t)
    ensures Phase(Next(c, s, a).tasks[t].pc) == 0 ==> Next(c, s, a).tasks[t] == Task(Listener, Stopped)
  {
    if OwnerOf(a) != Some(t) {
      OtherStepsStandBy(c, s, a, t);
    } else {
      OwnStepProgress(c, s, a, t);
    }
    if OwnerOf(a) == Some(t) && a.RemoveIf? {
      RemoveIfEffect(c, s, t, a.pair);
    }
  }

  /** Steps `i..j` that are operations of task `t`. */
  function OwnSteps(acts: seq<Action>, t: nat, i: nat, j: nat): nat
    requires i <= j <= |acts|
  {
    if i == j then 0 else OwnSteps(acts, t, i, j - 1) + Bit(OwnerOf(acts[j - 1]) == Some(t))
  }

  /** Task `t` is in phase `phase` > 0 in all the states `i..=j`. */
  ghost predicate InPhase(trace: seq<State>, t: nat, phase: nat, i: nat, j: nat) {
    phase > 0 && i <= j < |trace| && forall k | i <= k <= j :: At(trace[k], t) && Phase(trace[k].tasks[t].pc) == phase
  }

  lemma PhaseStep(c: Config, s: State, a: Action, s': State, t: nat)
    requires Inv(s) && Step(c, s, a, s') && At(s, t) && At(s', t)
    requires Phase(s.tasks[t].pc) == Phase(s'.tasks[t].pc) > 0
    ensures Bit(OwnerOf(a) == Some(t)) + StepsLeft(c, s'.tasks[t].pc) <= StepsLeft(c, s.tasks[t].pc)
  {
    if OwnerOf(a) == Some(t) {
      OwnStepProgress(c, s, a, t);
    } else {
      OtherStepsStandBy(c, s, a, t);
    }
  }

  lemma PhaseRunStep(c: Config, trace: seq<State>, acts: seq<Action>, t: nat, phase: nat, i: nat, j: nat)
    requires Run(c, trace, acts) && i < j && InPhase(trace, t, phase, i, j)
    ensures Bit(OwnerOf(acts[j - 1]) == Some(t)) + StepsLeft(c, trace[j].tasks[t].pc)
            <= StepsLeft(c, trace[j - 1].tasks[t].pc)
  {
    RunInv(c, trace, acts, j - 1);
    assert Step(c, trace[j - 1], acts[j - 1], trace[j - 1 + 1]);
    PhaseStep(c, trace[j - 1], acts[j - 1], trace[j], t);
  }

  /** In every run a phase of `shutdown_all`, or of any other removal, lasts at most as many own steps as stated. */
  lemma {:induction false} PhaseIsBounded(
    c: Config, trace: seq<State>, acts: seq<Action>, t: nat, phase: nat, i: nat, j: nat)
    requires Run(c, trace, acts) && InPhase(trace, t, phase, i, j)
    ensures OwnSteps(acts, t, i, j) + StepsLeft(c, trace[j].tasks[t].pc) <= StepsLeft(c, trace[i].tasks[t].pc)
    decreases j
  {
    if i < j {
      PhaseIsBounded(c, trace, acts, t, phase, i, j - 1);
      PhaseRunStep(c, trace, acts, t, phase, i, j);
    }
  }
}
