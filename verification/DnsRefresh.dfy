/**
 * The refreshed target address (src/target.rs) as a state machine: any number of readers, and
 * refresh tasks they spawn. Instants and durations are natural numbers of one unit.
 */
module DnsRefresh {
  import opened Net
  import opened Counting

  const SECOND := 1_000_000_000
  const DNS_POSITIVE_MIN_TTL := 5 * SECOND
  const DNS_POSITIVE_MAX_TTL := 600 * SECOND
  const DNS_FAILURE_REFRESH := 30 * SECOND

  datatype Resolved = Resolved(addr: SocketAddr, validUntil: nat)

  function ClampedTtl(raw: nat): nat {
    if raw < DNS_POSITIVE_MIN_TTL then DNS_POSITIVE_MIN_TTL
    else if raw > DNS_POSITIVE_MAX_TTL then DNS_POSITIVE_MAX_TTL
    else raw
  }

  /** A successful `resolve_once`: the answer's first address, the configured port, a clamped lifetime. */
  function Fresh(ip: nat, port: nat, deadline: nat, now: nat): Resolved {
    Resolved(SocketAddr(ip, port), now + ClampedTtl(SaturatingSub(deadline, now)))
  }

  /** The record's own deadline, moved to the nearer of 5 s and 600 s from now if it lies outside. */
  lemma TtlIsClamped(ip: nat, port: nat, deadline: nat, now: nat)
    ensures var r := Fresh(ip, port, deadline, now);
            && r.addr == SocketAddr(ip, port)
            && (deadline <= now + 5 * SECOND ==> r.validUntil == now + 5 * SECOND)
            && (now + 5 * SECOND <= deadline <= now + 600 * SECOND ==> r.validUntil == deadline)
            && (deadline >= now + 600 * SECOND ==> r.validUntil == now + 600 * SECOND)
  {
  }

  datatype Pc =
    | Start                                            // reader, before taking the read lock
    | Have(r: Resolved)                                // reader, holds a copy of the entry
    | Expired(addr: SocketAddr)                        // reader, about to compare-exchange
    | Returned(addr: SocketAddr)
    | Resolving                                        // refresh task, lookup running
    | Failing                                          // refresh task, lookup failed
    | Stale(addr: SocketAddr)                          // refresh task, has read the old address
    | Ready(next: Resolved, answer: Option<nat>)       // refresh task, before the write lock
    | Installed                                        // refresh task, before the flag reset
    | Finished

  datatype State = State(
    port: nat,
    now: nat,
    current: Resolved,
    inflight: bool,
    tasks: seq<Pc>,
    installed: seq<SocketAddr>,     // history: every address `current` has held, in order
    answers: seq<Option<nat>>)      // history: the lookups behind them, None for a failure

  datatype Action =
    | Tick(now: nat)
    | NewReader
    | ReadCurrent(t: nat)
    | Check(t: nat)
    | CompareExchange(t: nat)
    | LookupOk(t: nat, ip: nat, deadline: nat)
    | LookupFails(t: nat)
    | ReadStale(t: nat)
    | StampStale(t: nat)
    | Install(t: nat)
    | ResetFlag(t: nat)

  predicate At(s: State, t: nat) {
    t < |s.tasks|
  }

  predicate Enabled(s: State, a: Action) {
    match a
    case Tick(now) => now >= s.now
    case NewReader => true
    case ReadCurrent(t) => At(s, t) && s.tasks[t].Start?
    case Check(t) => At(s, t) && s.tasks[t].Have?
    case CompareExchange(t) => At(s, t) && s.tasks[t].Expired?
    case LookupOk(t, _, _) => At(s, t) && s.tasks[t].Resolving?
    case LookupFails(t) => At(s, t) && s.tasks[t].Resolving?
    case ReadStale(t) => At(s, t) && s.tasks[t].Failing?
    case StampStale(t) => At(s, t) && s.tasks[t].Stale?
    case Install(t) => At(s, t) && s.tasks[t].Ready?
    case ResetFlag(t) => At(s, t) && s.tasks[t].Installed?
  }

  function Goto(s: State, t: nat, pc: Pc): State
    requires t < |s.tasks|
  {
    s.(tasks := s.tasks[t := pc])
  }

  function Next(s: State, a: Action): State
    requires Enabled(s, a)
  {
    match a
    case Tick(now) => s.(now := now)
    case NewReader => s.(tasks := s.tasks + [Start])
    case ReadCurrent(t) => Goto(s, t, Have(s.current))
    case Check(t) =>
      var r := s.tasks[t].r;
      Goto(s, t, if s.now >= r.validUntil then Expired(r.addr) else Returned(r.addr))
    case CompareExchange(t) =>
      var s' := Goto(s, t, Returned(s.tasks[t].addr));
      if s.inflight then s' else s'.(inflight := true, tasks := s'.tasks + [Resolving])
    case LookupOk(t, ip, deadline) => Goto(s, t, Ready(Fresh(ip, s.port, deadline, s.now), Some(ip)))
    case LookupFails(t) => Goto(s, t, Failing)
    case ReadStale(t) => Goto(s, t, Stale(s.current.addr))
    case StampStale(t) => Goto(s, t, Ready(Resolved(s.tasks[t].addr, s.now + DNS_FAILURE_REFRESH), None))
    case Install(t) =>
      var next := s.tasks[t].next;
      Goto(s, t, Installed).(
        current := next, installed := s.installed + [next.addr], answers := s.answers + [s.tasks[t].answer])
    case ResetFlag(t) => Goto(s, t, Finished).(inflight := false)
  }

  /** After `bind`: the initial lookup is installed and no refresh runs. */
  ghost predicate Init(s: State) {
    && s.current.addr.port == s.port && !s.inflight && s.tasks == []
    && s.installed == [s.current.addr] && s.answers == []
  }

  ghost predicate Step(s: State, a: Action, s': State) {
    Enabled(s, a) && s' == Next(s, a)
  }

  ghost predicate Run(trace: seq<State>, acts: seq<Action>) {
    && |trace| == |acts| + 1
    && Init(trace[0])
    && forall i | 0 <= i < |acts| :: Step(trace[i], acts[i], trace[i + 1])
  }

  // ----- the invariant -----

  /** Between the winning compare-exchange and the flag reset. */
  predicate Busy(pc: Pc) {
    pc.Resolving? || pc.Failing? || pc.Stale? || pc.Ready? || pc.Installed?
  }

  /** The sequential meaning of a series of lookups: a success replaces the address, a failure repeats it. */
  function Replay(initial: SocketAddr, port: nat, answers: seq<Option<nat>>): (r: seq<SocketAddr>)
    ensures |r| == |answers| + 1
  {
    if answers == [] then [initial]
    else
      var n := |answers| - 1;
      var before := Replay(initial, port, answers[..n]);
      before + [if answers[n].Some? then SocketAddr(answers[n].value, port) else before[n]]
  }

  ghost predicate SingleFlight(s: State) {
    && (forall i, j | 0 <= i < j < |s.tasks| :: !(Busy(s.tasks[i]) && Busy(s.tasks[j])))
    && (forall i | 0 <= i < |s.tasks| && Busy(s.tasks[i]) :: s.inflight)
    && (s.inflight ==> exists i :: 0 <= i < |s.tasks| && Busy(s.tasks[i]))
  }

  ghost predicate Known(s: State, a: SocketAddr) {
    a in s.installed && a.port == s.port
  }

  ghost predicate TaskOk(s: State, pc: Pc) {
    match pc
    case Have(r) => Known(s, r.addr)
    case Expired(addr) => Known(s, addr)
    case Returned(addr) => Known(s, addr)
    case Stale(addr) => addr == s.current.addr
    case Ready(next, answer) =>
      next.addr == if answer.Some? then SocketAddr(answer.value, s.port) else s.current.addr
    case _ => true
  }

  ghost predicate Inv(s: State, initial: SocketAddr) {
    && SingleFlight(s)
    && s.installed == Replay(initial, s.port, s.answers)
    && s.current.addr == s.installed[|s.answers|]
    && (forall a | a in s.installed :: a.port == s.port)
    && (forall i | 0 <= i < |s.tasks| :: TaskOk(s, s.tasks[i]))
  }

  lemma GotoSingleFlight(s: State, s': State, t: nat, pc: Pc)
    requires SingleFlight(s) && t < |s.tasks| && s'.tasks == s.tasks[t := pc] && s'.inflight == s.inflight
    requires Busy(pc) == Busy(s.tasks[t])
    ensures SingleFlight(s')
  {
    if s.inflight {
      var i :| 0 <= i < |s.tasks| && Busy(s.tasks[i]);
      assert Busy(s'.tasks[i]);
    }
  }

  lemma ReaderStep(s: State, a: Action, initial: SocketAddr)
    requires Inv(s, initial) && Enabled(s, a)
    requires a.Tick? || a.NewReader? || a.ReadCurrent? || a.Check?
    ensures Inv(Next(s, a), initial)
  {
    var s' := Next(s, a);
    match a
    case Tick(_) =>
    case NewReader => assert forall i | 0 <= i < |s.tasks| :: s'.tasks[i] == s.tasks[i];
    case ReadCurrent(t) =>
      assert s.current.addr in s.installed;
      GotoSingleFlight(s, s', t, s'.tasks[t]);
    case Check(t) =>
      assert TaskOk(s, s.tasks[t]);
      GotoSingleFlight(s, s', t, s'.tasks[t]);
    case _ =>
  }

  lemma CompareExchangeStep(s: State, t: nat, initial: SocketAddr)
    requires Inv(s, initial) && At(s, t) && s.tasks[t].Expired?
    ensures Inv(Next(s, CompareExchange(t)), initial)
  {
    var s' := Next(s, CompareExchange(t));
    assert TaskOk(s, s.tasks[t]);
    var mid := Goto(s, t, Returned(s.tasks[t].addr));
    GotoSingleFlight(s, mid, t, mid.tasks[t]);
    if !s.inflight {
      assert Busy(s'.tasks[|s.tasks|]);
    }
  }

  lemma RefreshStep(s: State, a: Action, initial: SocketAddr)
    requires Inv(s, initial) && Enabled(s, a)
    requires a.LookupOk? || a.LookupFails? || a.ReadStale? || a.StampStale?
    ensures Inv(Next(s, a), initial)
  {
    assert TaskOk(s, s.tasks[a.t]);
    GotoSingleFlight(s, Next(s, a), a.t, Next(s, a).tasks[a.t]);
  }

  /** The only writer: nobody else can hold an address read before this write. */
  lemma InstallStep(s: State, t: nat, initial: SocketAddr)
    requires Inv(s, initial) && At(s, t) && s.tasks[t].Ready?
    ensures Inv(Next(s, Install(t)), initial)
  {
    var s' := Next(s, Install(t));
    assert TaskOk(s, s.tasks[t]);
    GotoSingleFlight(s, s', t, Installed);
    assert s'.answers[..|s.answers|] == s.answers;
    assert s.current.addr in s.installed;
    forall i | 0 <= i < |s'.tasks|
      ensures TaskOk(s', s'.tasks[i])
    {
      assert i != t ==> TaskOk(s, s.tasks[i]) && !Busy(s.tasks[i]);
    }
  }

  lemma ResetStep(s: State, t: nat, initial: SocketAddr)
    requires Inv(s, initial) && At(s, t) && s.tasks[t].Installed?
    ensures Inv(Next(s, ResetFlag(t)), initial)
  {
    var s' := Next(s, ResetFlag(t));
    forall i | 0 <= i < |s'.tasks|
      ensures !Busy(s'.tasks[i]) && TaskOk(s', s'.tasks[i])
    {
      assert i != t ==> TaskOk(s, s.tasks[i]) && !Busy(s.tasks[i]);
    }
  }

  lemma StepKeeps(s: State, a: Action, s': State, initial: SocketAddr)
    requires Inv(s, initial) && Step(s, a, s')
    ensures Inv(s', initial)
  {
    match a
    case CompareExchange(t) => CompareExchangeStep(s, t, initial);
    case Install(t) => InstallStep(s, t, initial);
    case ResetFlag(t) => ResetStep(s, t, initial);
    case Tick(_) => ReaderStep(s, a, initial);
    case NewReader => ReaderStep(s, a, initial);
    case ReadCurrent(_) => ReaderStep(s, a, initial);
    case Check(_) => ReaderStep(s, a, initial);
    case _ => RefreshStep(s, a, initial);
  }

  lemma {:induction false} RunInv(trace: seq<State>, acts: seq<Action>, i: nat)
    requires Run(trace, acts) && i < |trace|
    ensures Inv(trace[i], trace[0].current.addr)
    decreases i
  {
    if i > 0 {
      RunInv(trace, acts, i - 1);
      assert Step(trace[i - 1], acts[i - 1], trace[i - 1 + 1]);
      StepKeeps(trace[i - 1], acts[i - 1], trace[i], trace[0].current.addr);
    }
  }

  // ----- what every run guarantees -----

  /** At most one refresh runs, and the flag says exactly whether one does. */
  lemma AtMostOneRefresh(trace: seq<State>, acts: seq<Action>, i: nat)
    requires Run(trace, acts) && i < |trace|
    ensures forall j, k | 0 <= j < |trace[i].tasks| && 0 <= k < |trace[i].tasks|
              && Busy(trace[i].tasks[j]) && Busy(trace[i].tasks[k]) :: j == k
    ensures trace[i].inflight <==> exists j :: 0 <= j < |trace[i].tasks| && Busy(trace[i].tasks[j])
  {
    RunInv(trace, acts, i);
    assert forall j, k | 0 <= j < k < |trace[i].tasks| :: !(Busy(trace[i].tasks[j]) && Busy(trace[i].tasks[k]));
  }

  /**
   * No lost update: the addresses the cache has held are exactly the initial lookup followed by
   * the lookups in the order they finished, and a failed one never reverts a newer address.
   */
  lemma InstalledIsReplay(trace: seq<State>, acts: seq<Action>, i: nat)
    requires Run(trace, acts) && i < |trace|
    ensures var s := trace[i];
            && s.installed == Replay(trace[0].current.addr, s.port, s.answers)
            && s.current.addr == s.installed[|s.installed| - 1]
            && forall a | a in s.installed :: a.port == s.port
  {
    RunInv(trace, acts, i);
  }

  /** A reader only ever returns an address the cache has held, with the configured port. */
  lemma ReadersReturnInstalled(trace: seq<State>, acts: seq<Action>, i: nat, t: nat)
    requires Run(trace, acts) && i < |trace| && t < |trace[i].tasks| && trace[i].tasks[t].Returned?
    ensures trace[i].tasks[t].addr in trace[i].installed && trace[i].tasks[t].addr.port == trace[i].port
  {
    RunInv(trace, acts, i);
    assert TaskOk(trace[i], trace[i].tasks[t]);
  }

  // ----- which refreshes are needed -----

  /** Only an install changes the entry. */
  lemma {:induction false} EntryStands(trace: seq<State>, acts: seq<Action>, i: nat, j: nat)
    requires Run(trace, acts) && i <= j < |trace|
    requires forall k | i <= k < j :: !acts[k].Install?
    ensures trace[j].current == trace[i].current
    decreases j
  {
    if i < j {
      EntryStands(trace, acts, i, j - 1);
      assert Step(trace[j - 1], acts[j - 1], trace[j - 1 + 1]);
    }
  }

  /** Reader `t` still holds the entry `r`, or has found it expired. */
  ghost predicate HoldsOrExpired(s: State, t: nat, r: Resolved) {
    t < |s.tasks| && match s.tasks[t]
                     case Have(copy) => copy == r
                     case Expired(_) => s.now >= r.validUntil
                     case Returned(_) => true
                     case _ => false
  }

  lemma HoldsStep(s: State, a: Action, t: nat, r: Resolved)
    requires Enabled(s, a) && HoldsOrExpired(s, t, r)
    ensures HoldsOrExpired(Next(s, a), t, r)
  {
  }

  lemma {:induction false} ReaderHolds(trace: seq<State>, acts: seq<Action>, r: nat, i: nat, t: nat)
    requires Run(trace, acts) && r < i < |trace| && acts[r] == ReadCurrent(t)
    ensures HoldsOrExpired(trace[i], t, trace[r].current)
    decreases i
  {
    assert Step(trace[i - 1], acts[i - 1], trace[i - 1 + 1]);
    if r < i - 1 {
      ReaderHolds(trace, acts, r, i - 1, t);
      HoldsStep(trace[i - 1], acts[i - 1], t, trace[r].current);
    }
  }

  predicate IsReader(pc: Pc) {
    pc.Have? || pc.Expired?
  }

  lemma ReaderStarts(s: State, a: Action, t: nat)
    requires Enabled(s, a) && At(Next(s, a), t) && IsReader(Next(s, a).tasks[t])
    ensures a == ReadCurrent(t) || (At(s, t) && IsReader(s.tasks[t]))
  {
  }

  /** A reader past its load has loaded the entry at some step. */
  lemma {:induction false} EveryReaderHasLoaded(trace: seq<State>, acts: seq<Action>, i: nat, t: nat)
    requires Run(trace, acts) && i < |trace| && At(trace[i], t) && IsReader(trace[i].tasks[t])
    ensures exists r :: 0 <= r < i && acts[r] == ReadCurrent(t)
    decreases i
  {
    if i > 0 {
      assert Step(trace[i - 1], acts[i - 1], trace[i - 1 + 1]);
      ReaderStarts(trace[i - 1], acts[i - 1], t);
      if acts[i - 1] != ReadCurrent(t) {
        EveryReaderHasLoaded(trace, acts, i - 1, t);
      }
    }
  }

  /** Step `k` is the last install between the steps `r` and `i`. */
  ghost predicate LastInstall(acts: seq<Action>, r: nat, k: nat, i: nat) {
    r < k < i <= |acts| && acts[k].Install? && forall j | k < j < i :: !acts[j].Install?
  }

  lemma {:induction false} LastInstallExists(acts: seq<Action>, r: nat, i: nat)
    requires r < i <= |acts| && exists j :: r < j < i && acts[j].Install?
    ensures exists k: nat :: LastInstall(acts, r, k, i)
  {
    if acts[i - 1].Install? && r < i - 1 {
      assert LastInstall(acts, r, i - 1, i);
    } else {
      LastInstallExists(acts, r, i - 1);
      var k: nat :| LastInstall(acts, r, k, i - 1);
      assert LastInstall(acts, r, k, i);
    }
  }

  /** A reader's compare-exchange, made from the load at step `r`, that starts a refresh. */
  ghost predicate StartsRefresh(trace: seq<State>, acts: seq<Action>, r: nat, i: nat, t: nat) {
    && r < i < |acts| && |trace| == |acts| + 1
    && acts[r] == ReadCurrent(t) && acts[i] == CompareExchange(t) && !trace[i].inflight
  }

  /**
   * A refresh starts over an entry that is still fresh iff some install came between the reader's
   * load and its compare-exchange, and what the last of them installed has not expired.
   */
  lemma SuperfluousIff(trace: seq<State>, acts: seq<Action>, r: nat, i: nat, t: nat)
    requires Run(trace, acts) && StartsRefresh(trace, acts, r, i, t)
    ensures trace[i].now < trace[i].current.validUntil
            <==> exists k: nat :: LastInstall(acts, r, k, i) && trace[i].now < trace[k + 1].current.validUntil
  {
    forall k: nat | LastInstall(acts, r, k, i)
      ensures trace[i].current == trace[k + 1].current
    {
      EntryStands(trace, acts, k + 1, i);
    }
    if exists j :: r < j < i && acts[j].Install? {
      LastInstallExists(acts, r, i);
    } else {
      NeverSuperfluousAlone(trace, acts, r, i, t);
    }
  }

  /** Without an install between the load and the compare-exchange, the entry has expired. */
  lemma NeverSuperfluousAlone(trace: seq<State>, acts: seq<Action>, r: nat, i: nat, t: nat)
    requires Run(trace, acts) && StartsRefresh(trace, acts, r, i, t)
    requires forall j | r < j < i :: !acts[j].Install?
    ensures trace[i].now >= trace[i].current.validUntil
  {
    EntryStands(trace, acts, r, i);
    ReaderHolds(trace, acts, r, i, t);
    assert Step(trace[i], acts[i], trace[i + 1]);
  }

  /** The step is the expiry check of reader `t`, and the entry it holds has expired. */
  predicate SeesExpiry(s: State, a: Action, t: nat) {
    a == Check(t) && Enabled(s, a) && s.now >= s.tasks[t].r.validUntil
  }

  lemma ExpiredStep(s: State, a: Action, t: nat)
    requires Enabled(s, a) && At(Next(s, a), t) && Next(s, a).tasks[t].Expired?
    ensures SeesExpiry(s, a, t) || (At(s, t) && s.tasks[t].Expired?)
  {
  }

  lemma {:induction false} ExpiredWasSeen(trace: seq<State>, acts: seq<Action>, i: nat, t: nat)
    requires Run(trace, acts) && i < |trace| && At(trace[i], t) && trace[i].tasks[t].Expired?
    ensures exists j :: 0 <= j < i && SeesExpiry(trace[j], acts[j], t)
    decreases i
  {
    if i > 0 {
      assert Step(trace[i - 1], acts[i - 1], trace[i - 1 + 1]);
      ExpiredStep(trace[i - 1], acts[i - 1], t);
      if !SeesExpiry(trace[i - 1], acts[i - 1], t) {
        ExpiredWasSeen(trace, acts, i - 1, t);
      }
    }
  }

  /** The flag is raised by nothing but a compare-exchange that finds it clear. */
  lemma StartsRefreshIff(s: State, a: Action)
    requires Enabled(s, a)
    ensures !s.inflight && Next(s, a).inflight <==> a.CompareExchange? && !s.inflight
  {
  }

  /** Every refresh comes from a reader that saw its copy expired; the entry it loaded has expired by now. */
  lemma RefreshNeedsExpiry(trace: seq<State>, acts: seq<Action>, i: nat)
    requires Run(trace, acts) && i < |acts| && !trace[i].inflight && trace[i + 1].inflight
    ensures acts[i].CompareExchange? && exists j :: 0 <= j < i && SeesExpiry(trace[j], acts[j], acts[i].t)
    ensures exists r: nat :: StartsRefresh(trace, acts, r, i, acts[i].t) && trace[i].now >= trace[r].current.validUntil
  {
    assert Step(trace[i], acts[i], trace[i + 1]);
    StartsRefreshIff(trace[i], acts[i]);
    ExpiredWasSeen(trace, acts, i, acts[i].t);
    EveryReaderHasLoaded(trace, acts, i, acts[i].t);
    var r: nat :| r < i && acts[r] == ReadCurrent(acts[i].t);
    ReaderHolds(trace, acts, r, i, acts[i].t);
    assert StartsRefresh(trace, acts, r, i, acts[i].t);
  }

  // ----- what is not guaranteed -----

  function SlowTrace(): seq<State> {
    var a, b := SocketAddr(1, 80), SocketAddr(2, 80);
    var old_, new_ := Resolved(a, 0), Fresh(2, 80, 0, 0);
    var s := State(80, 0, old_, false, [], [a], []);
    var done := s.(current := new_, installed := [a, b], answers := [Some(2)], inflight := true);
    [ s,
      s.(tasks := [Start]),
      s.(tasks := [Start, Start]),
      s.(tasks := [Have(old_), Start]),
      s.(tasks := [Have(old_), Have(old_)]),
      s.(tasks := [Expired(a), Have(old_)]),
      s.(tasks := [Expired(a), Expired(a)]),
      s.(tasks := [Returned(a), Expired(a), Resolving], inflight := true),
      s.(tasks := [Returned(a), Expired(a), Ready(new_, Some(2))], inflight := true),
      done.(tasks := [Returned(a), Expired(a), Installed]),
      done.(tasks := [Returned(a), Expired(a), Finished], inflight := false),
      done.(tasks := [Returned(a), Returned(a), Finished, Resolving]) ]
  }

  function SlowActs(): seq<Action> {
    [ NewReader, NewReader, ReadCurrent(0), ReadCurrent(1), Check(0), Check(1), CompareExchange(0),
      LookupOk(2, 2, 0), Install(2), ResetFlag(2), CompareExchange(1) ]
  }

  ghost predicate SlowStep(i: nat)
    requires i < |SlowActs()|
  {
    Step(SlowTrace()[i], SlowActs()[i], SlowTrace()[i + 1])
  }

  lemma SlowStarts()
    ensures SlowStep(0) && SlowStep(1)
  {
  }

  lemma SlowLoads()
    ensures SlowStep(2) && SlowStep(3)
  {
  }

  lemma SlowFirstCheck()
    ensures SlowStep(4)
  {
  }

  lemma SlowSecondCheck()
    ensures SlowStep(5)
  {
  }

  lemma SlowRefreshStarts()
    ensures SlowStep(6) && SlowStep(7)
  {
  }

  lemma SlowRefreshEnds()
    ensures SlowStep(8) && SlowStep(9)
  {
  }

  lemma SlowRefreshesAgain()
    ensures SlowStep(10)
  {
  }

  /**
   * A reader that saw an expired entry and is slow may refresh again although a fresh entry has
   * been installed meanwhile: after this run a refresh is in flight and the entry is not expired.
   */
  lemma SlowReaderRefreshesAgain()
    ensures Run(SlowTrace(), SlowActs())
    ensures var s := SlowTrace()[11]; s.inflight && s.now < s.current.validUntil && s.answers == [Some(2)]
  {
    SlowStarts();
    SlowLoads();
    SlowFirstCheck();
    SlowSecondCheck();
    SlowRefreshStarts();
    SlowRefreshEnds();
    SlowRefreshesAgain();
    assert forall i | 0 <= i < |SlowActs()| :: SlowStep(i);
  }

  // ----- the object, without interference -----

  class DynamicTarget {
    const port: nat
    var current: Resolved
    var refreshInflight: bool

    constructor (port: nat, initial: Resolved)
      requires initial.addr.port == port
      ensures this.port == port && current == initial && !refreshInflight
    {
      this.port, current, refreshInflight := port, initial, false;
    }

    /** Always answers from the cache; at most starts a refresh in the background. */
    method Current(now: nat) returns (addr: SocketAddr, spawned: bool)
      modifies this`refreshInflight
      ensures addr == current.addr
      ensures spawned <==> now >= current.validUntil && !old(refreshInflight)
      ensures refreshInflight == (old(refreshInflight) || now >= current.validUntil)
    {
      addr, spawned := current.addr, false;
      if now >= current.validUntil && !refreshInflight {
        refreshInflight, spawned := true, true;
      }
    }

    /** The body of the refresh task: `answer` is the lookup's first address and deadline. */
    method Refresh(answer: Option<(nat, nat)>, now: nat)
      requires refreshInflight
      modifies this
      ensures !refreshInflight
      ensures match answer
              case Some(a) =>
                && current == Fresh(a.0, port, a.1, now) && current.addr == SocketAddr(a.0, port)
                && (a.1 <= now + 5 * SECOND ==> current.validUntil == now + 5 * SECOND)
                && (now + 5 * SECOND <= a.1 <= now + 600 * SECOND ==> current.validUntil == a.1)
                && (a.1 >= now + 600 * SECOND ==> current.validUntil == now + 600 * SECOND)
              case None => current == Resolved(old(current.addr), now + 30 * SECOND)
    {
      var next: Resolved;
      match answer {
        case Some(a) => next := Fresh(a.0, port, a.1, now);
        case None =>
          var staleAddr := current.addr;
          next := Resolved(staleAddr, now + DNS_FAILURE_REFRESH);
      }
      current := next;
      refreshInflight := false;
    }
  }

  // ----- the atomic steps, run without interference, compute the methods -----

  /** A reader's steps from its load to its answer. */
  function ReadAlone(s: State, t: nat): State
    requires At(s, t) && s.tasks[t].Start?
  {
    var s1 := Next(s, ReadCurrent(t));
    var s2 := Next(s1, Check(t));
    if s2.tasks[t].Expired? then Next(s2, CompareExchange(t)) else s2
  }

  /** The effect `Current` states: answered from the cache, a refresh started iff expired and none runs. */
  lemma StepsOfCurrent(s: State, t: nat)
    requires At(s, t) && s.tasks[t].Start?
    ensures var spawned := s.now >= s.current.validUntil && !s.inflight;
            ReadAlone(s, t) == s.(
              inflight := s.inflight || s.now >= s.current.validUntil,
              tasks := s.tasks[t := Returned(s.current.addr)] + if spawned then [Resolving] else [])
  {
    var tasks := s.tasks[t := Have(s.current)];
    assert tasks[t := Returned(s.current.addr)] == s.tasks[t := Returned(s.current.addr)];
    assert tasks[t := Expired(s.current.addr)][t := Returned(s.current.addr)] == s.tasks[t := Returned(s.current.addr)];
    assert s.tasks[t := Returned(s.current.addr)] + [] == s.tasks[t := Returned(s.current.addr)];
  }

  /** A refresh task's steps from the answer of its lookup to the flag reset. */
  function RefreshAlone(s: State, t: nat, answer: Option<(nat, nat)>): State
    requires At(s, t) && s.tasks[t].Resolving?
  {
    var ready := match answer
      case Some(a) => Next(s, LookupOk(t, a.0, a.1))
      case None => Next(Next(Next(s, LookupFails(t)), ReadStale(t)), StampStale(t));
    Next(Next(ready, Install(t)), ResetFlag(t))
  }

  /** The effect `Refresh` states on the entry and the flag. */
  lemma StepsOfRefresh(s: State, t: nat, answer: Option<(nat, nat)>)
    requires At(s, t) && s.tasks[t].Resolving?
    ensures var r := RefreshAlone(s, t, answer);
            && !r.inflight && r.installed == s.installed + [r.current.addr]
            && r.current == match answer
                 case Some(a) => Fresh(a.0, s.port, a.1, s.now)
                 case None => Resolved(s.current.addr, s.now + DNS_FAILURE_REFRESH)
  {
  }
}
