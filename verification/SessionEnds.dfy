/**
 * How the tasks of a port end (src/udp_session.rs, src/listener/udp.rs): each keeps to its own loop,
 * the listener and the cleaner leave theirs only at shutdown, and a reply task that has ended has
 * left no session behind.
 */
module SessionEnds {
  import opened Net
  import opened SessionProtocol
  import opened SessionTheorems
  import opened SessionShutdown
  import opened SessionDrain

  // ----- every task in its loop -----

  /** Where a task may stand. */
  predicate Posted(task: Task, shutdown: bool) {
    var pc := task.pc;
    match task.role
    case Listener =>
      || pc.Serving? || pc.Missed? || pc.GotId? || pc.Built? || pc.Inserted? || pc.Opened?
      || (shutdown && (pc.Collecting? || HasTodo(pc) || pc.Stopped?))
    case Cleaner => pc.Waiting? || pc.Collecting? || HasTodo(pc) || (shutdown && pc.Stopped?)
    case Replier => pc.Receiving? || HasTodo(pc) || pc.Stopped?
  }

  lemma OwnStepPosted(c: Config, s: State, a: Action, t: nat)
    requires Inv(s) && Enabled(c, s, a) && OwnerOf(a) == Some(t) && At(s, t) && Posted(s.tasks[t], s.shutdown)
    ensures At(Next(c, s, a), t) && Posted(Next(c, s, a).tasks[t], Next(c, s, a).shutdown)
  {
    match a
    case Local(_, _) =>
    case Enter(_, reading) => EnterTasks(c, s, t, reading);
    case RemoveIf(_, p) => RemoveIfEffect(c, s, t, p);
    case Advance(_) => AdvancePosted(s, t);
    case _ =>
  }

  lemma AdvancePosted(s: State, t: nat)
    requires Typed(s) && At(s, t) && CanAdvance(s.tasks[t].pc) && Posted(s.tasks[t], s.shutdown)
    ensures At(AdvanceOp(s, t), t) && Posted(AdvanceOp(s, t).tasks[t], s.shutdown)
    ensures AdvanceOp(s, t).shutdown == s.shutdown
  {
  }

  /** A step keeps the roles, and the tasks it adds are reply loops. */
  lemma RolesStay(c: Config, s: State, a: Action)
    requires Inv(s) && Enabled(c, s, a)
    ensures |s.tasks| <= |Next(c, s, a).tasks|
    ensures forall t | 0 <= t < |s.tasks| :: Next(c, s, a).tasks[t].role == s.tasks[t].role
    ensures forall t | |s.tasks| <= t < |Next(c, s, a).tasks| ::
              Next(c, s, a).tasks[t].role.Replier? && Next(c, s, a).tasks[t].pc.Receiving?
  {
    match a
    case Enter(t, reading) => EnterTasks(c, s, t, reading);
    case RemoveIf(t, p) => RemoveIfEffect(c, s, t, p);
    case Advance(t) => AdvanceTasks(s, t);
    case _ =>
  }

  lemma ShutdownStays(c: Config, s: State, a: Action)
    requires Inv(s) && Enabled(c, s, a)
    ensures Next(c, s, a).shutdown <==> s.shutdown || a.Shutdown?
  {
  }

  lemma PostedStep(c: Config, s: State, a: Action, t: nat)
    requires Inv(s) && Enabled(c, s, a) && At(s, t) && Posted(s.tasks[t], s.shutdown)
    ensures At(Next(c, s, a), t) && Posted(Next(c, s, a).tasks[t], Next(c, s, a).shutdown)
  {
    if OwnerOf(a) == Some(t) {
      OwnStepPosted(c, s, a, t);
    } else {
      OtherStepsStandBy(c, s, a, t);
      ShutdownStays(c, s, a);
    }
  }

  /** In every run the listener and the cleaners stand in their loops until shutdown. */
  lemma {:induction false} EveryTaskPosted(c: Config, trace: seq<State>, acts: seq<Action>, i: nat, t: nat)
    requires Run(c, trace, acts) && i < |trace| && At(trace[i], t)
    ensures Posted(trace[i].tasks[t], trace[i].shutdown)
    decreases i
  {
    if i > 0 {
      RunInv(c, trace, acts, i - 1);
      assert Step(c, trace[i - 1], acts[i - 1], trace[i - 1 + 1]);
      RolesStay(c, trace[i - 1], acts[i - 1]);
      if At(trace[i - 1], t) {
        EveryTaskPosted(c, trace, acts, i - 1, t);
        PostedStep(c, trace[i - 1], acts[i - 1], t);
      }
    }
  }

  lemma OwnStepMisses(c: Config, s: State, a: Action, t: nat)
    requires Inv(s) && Enabled(c, s, a) && OwnerOf(a) == Some(t) && At(s, t)
    requires At(Next(c, s, a), t) && Next(c, s, a).tasks[t].pc.Missed?
    ensures var source := Next(c, s, a).tasks[t].pc.source; a == Local(t, Lookup(source)) && source !in s.table
  {
    match a
    case Enter(_, reading) => EnterTasks(c, s, t, reading);
    case RemoveIf(_, p) => RemoveIfEffect(c, s, t, p);
    case _ =>
  }

  lemma MissedStep(c: Config, s: State, a: Action, t: nat)
    requires Inv(s) && Enabled(c, s, a) && At(Next(c, s, a), t) && Next(c, s, a).tasks[t].pc.Missed?
    ensures var now := Next(c, s, a).tasks[t];
            || (a == Local(t, Lookup(now.pc.source)) && now.pc.source !in s.table)
            || (At(s, t) && s.tasks[t] == now)
  {
    RolesStay(c, s, a);
    if OwnerOf(a) == Some(t) {
      OwnStepMisses(c, s, a, t);
    } else {
      OtherStepsStandBy(c, s, a, t);
    }
  }

  /** In every run a listener that goes on to create a session has looked its client up and not found it. */
  lemma {:induction false} MissedWasAbsent(c: Config, trace: seq<State>, acts: seq<Action>, j: nat, t: nat)
    returns (i: nat)
    requires Run(c, trace, acts) && j < |trace| && At(trace[j], t) && trace[j].tasks[t].pc.Missed?
    ensures var a := trace[j].tasks[t].pc.source;
            i < j && acts[i] == Local(t, Lookup(a)) && a !in trace[i].table
    decreases j
  {
    assert j > 0;
    i := j - 1;
    RunInv(c, trace, acts, i);
    assert Step(c, trace[i], acts[i], trace[i + 1]);
    MissedStep(c, trace[i], acts[i], t);
    if At(trace[i], t) && trace[i].tasks[t] == trace[j].tasks[t] {
      i := MissedWasAbsent(c, trace, acts, j - 1, t);
    }
  }

  // ----- a reply task removes its session -----

  /** The reply task `t` of session `h`: it still serves it, is about to remove it, or it is gone. */
  ghost predicate Leaving(s: State, t: nat, h: nat) {
    && At(s, t) && h < |s.sessions| && !s.sessions[h].life.Fresh? && s.tasks[t].role.Replier?
    && var pc := s.tasks[t].pc;
       var mine := Pair(s.sessions[h].source, s.sessions[h].id);
       || pc == Receiving(h)
       || (HasTodo(pc) && (mine in pc.todo || s.sessions[h].life.Gone?))
       || (pc.Stopped? && s.sessions[h].life.Gone?)
  }

  lemma LeavingBeside(c: Config, s: State, a: Action, s': State, t: nat, h: nat)
    requires Inv(s) && Step(c, s, a, s') && Leaving(s, t, h) && OwnerOf(a) != Some(t)
    ensures Leaving(s', t, h)
  {
    StepAges(c, s, a, s');
    OtherStepsStandBy(c, s, a, t);
  }

  lemma LeavingRemoves(c: Config, s: State, s': State, t: nat, h: nat, p: Pair)
    requires Inv(s) && Step(c, s, RemoveIf(t, p), s') && Leaving(s, t, h)
    ensures Leaving(s', t, h)
  {
    StepAges(c, s, RemoveIf(t, p), s');
    RemoveIfEffect(c, s, t, p);
  }

  lemma LeavingLocally(c: Config, s: State, s': State, t: nat, h: nat, step: LocalStep)
    requires Inv(s) && Step(c, s, Local(t, step), s') && Leaving(s, t, h)
    ensures Leaving(s', t, h)
  {
  }

  lemma LeavingAdvances(c: Config, s: State, s': State, t: nat, h: nat)
    requires Inv(s) && Step(c, s, Advance(t), s') && Leaving(s, t, h)
    ensures Leaving(s', t, h)
  {
    StepAges(c, s, Advance(t), s');
    AdvanceTasks(s, t);
  }

  lemma LeavingStep(c: Config, s: State, a: Action, s': State, t: nat, h: nat)
    requires Inv(s) && Step(c, s, a, s') && Leaving(s, t, h)
    ensures Leaving(s', t, h)
  {
    if OwnerOf(a) != Some(t) {
      LeavingBeside(c, s, a, s', t, h);
    } else {
      match a
      case Local(_, step) => LeavingLocally(c, s, s', t, h, step);
      case RemoveIf(_, p) => LeavingRemoves(c, s, s', t, h, p);
      case Advance(_) => LeavingAdvances(c, s, s', t, h);
      case _ =>
    }
  }

  /** A task a step adds is the reply loop of a session that has been listed. */
  lemma NewTaskReceives(c: Config, s: State, a: Action, s': State, t: nat) returns (h: nat)
    requires Inv(s) && Step(c, s, a, s') && !At(s, t) && At(s', t)
    ensures s'.tasks[t] == Task(Replier, Receiving(h)) && Leaving(s', t, h)
  {
    RolesStay(c, s, a);
    StepAges(c, s, a, s');
    h := s'.tasks[t].pc.h;
    assert TaskOk(s', s'.tasks[t].pc);
  }

  /** Every reply task began with one session and, in every state, is on its way to removing it. */
  lemma {:induction false} ReplierOf(c: Config, trace: seq<State>, acts: seq<Action>, j: nat, t: nat)
    returns (i: nat, h: nat)
    requires Run(c, trace, acts) && j < |trace| && At(trace[j], t) && trace[j].tasks[t].role.Replier?
    ensures i <= j && At(trace[i], t) && trace[i].tasks[t] == Task(Replier, Receiving(h))
    ensures Leaving(trace[j], t, h)
    decreases j
  {
    assert j > 0;
    RunInv(c, trace, acts, j - 1);
    assert Step(c, trace[j - 1], acts[j - 1], trace[j - 1 + 1]);
    if At(trace[j - 1], t) {
      RolesStay(c, trace[j - 1], acts[j - 1]);
      i, h := ReplierOf(c, trace, acts, j - 1, t);
      LeavingStep(c, trace[j - 1], acts[j - 1], trace[j], t, h);
    } else {
      i := j;
      h := NewTaskReceives(c, trace[j - 1], acts[j - 1], trace[j], t);
    }
  }

  /** In every interleaving a reply task that has ended leaves its session removed and out of the table. */
  lemma ReplierLeavesNothing(c: Config, trace: seq<State>, acts: seq<Action>, j: nat, t: nat)
    returns (i: nat, h: nat)
    requires Run(c, trace, acts) && j < |trace| && At(trace[j], t)
    requires trace[j].tasks[t] == Task(Replier, Stopped)
    ensures i <= j && At(trace[i], t) && trace[i].tasks[t] == Task(Replier, Receiving(h))
    ensures h < |trace[j].sessions| && trace[j].sessions[h].life.Gone? && !InTable(trace[j], h)
  {
    i, h := ReplierOf(c, trace, acts, j, t);
    RunInv(c, trace, acts, j);
  }
}
