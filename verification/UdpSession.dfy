/**
 * The session table of src/udp_session.rs as its methods run when no other task interferes.
 * SessionProtocol has the interleavings; the last section ties the two together.
 */
module UdpSession {
  import opened Net
  import opened Counting
  import opened PortStats
  import Protocol = SessionProtocol

  datatype SessionView = SessionView(id: nat, source: SocketAddr, lastActive: nat, closed: bool, cancelled: bool)

  class Session {
    const id: nat
    const source: SocketAddr
    var lastActiveEpoch: nat
    var closed: bool
    var cancelled: bool

    function View(): SessionView
      reads this
    {
      SessionView(id, source, lastActiveEpoch, closed, cancelled)
    }

    constructor (id: nat, source: SocketAddr, now: nat)
      ensures View() == SessionView(id, source, now, false, false)
    {
      this.id, this.source := id, source;
      lastActiveEpoch, closed, cancelled := now, false, false;
    }

    method Touch(now: nat)
      modifies this`lastActiveEpoch
      ensures View() == old(View()).(lastActive := now)
    {
      lastActiveEpoch := now;
    }

    method Cancel()
      modifies this`cancelled
      ensures View() == old(View()).(cancelled := true)
    {
      cancelled := true;
    }

    method MarkClosed() returns (first: bool)
      modifies this`closed
      ensures View() == old(View()).(closed := true) && first == !old(closed)
    {
      first := !closed;
      closed := true;
    }
  }

  class SessionTable {
    const idleTimeout: nat   // whole seconds
    const stats: Counters
    var nextSessionId: nat
    var sessions: map<SocketAddr, Session>

    ghost predicate Valid()
      reads this`sessions, this`nextSessionId, stats`udpActiveFlows
      reads sessions.Values`closed, sessions.Values`cancelled
    {
      stats.udpActiveFlows == |sessions| && Kept()
    }

    /** Every entry sits under its own source, below the id counter, and is open. */
    ghost predicate Kept()
      reads this`sessions, this`nextSessionId, sessions.Values`closed, sessions.Values`cancelled
    {
      && (forall a | a in sessions :: sessions[a].source == a && sessions[a].id < nextSessionId)
      && (forall a | a in sessions :: !sessions[a].closed && !sessions[a].cancelled)
    }

    ghost function Entries(): map<SocketAddr, SessionView>
      reads this`sessions, sessions.Values
    {
      map a | a in sessions :: sessions[a].View()
    }

    constructor (idleTimeout: nat, stats: Counters)
      requires stats.udpActiveFlows == 0
      ensures Valid() && this.stats == stats && this.idleTimeout == idleTimeout
      ensures Entries() == map[] && nextSessionId == 1
    {
      this.idleTimeout, this.stats := idleTimeout, stats;
      nextSessionId, sessions := 1, map[];
    }

    /** The lookup branch: an existing session is touched. */
    method TouchExisting(source: SocketAddr, now: nat) returns (session: Session)
      requires Valid() && source in sessions
      modifies sessions.Values
      ensures Valid() && session == sessions[source]
      ensures Entries() == old(Entries())[source := old(Entries()[source]).(lastActive := now)]
    {
      session := sessions[source];
      assert forall a | a in sessions && a != source :: sessions[a] != session;
      session.Touch(now);
      assert forall a | a in sessions && a != source :: sessions[a].View() == old(sessions[a].View());
    }

    /** A session under a fresh id, not listed yet. */
    method NewSession(source: SocketAddr, now: nat) returns (session: Session)
      requires Valid()
      modifies this`nextSessionId
      ensures Valid() && fresh(session) && nextSessionId == old(nextSessionId) + 1 && Entries() == old(Entries())
      ensures session.View() == SessionView(old(nextSessionId), source, now, false, false)
    {
      session := new Session(nextSessionId, source, now);
      nextSessionId := nextSessionId + 1;
    }

    /** The entry is inserted, then its open recorded. */
    method List(session: Session)
      requires Valid() && session.source !in sessions && session.id < nextSessionId
      requires !session.closed && !session.cancelled
      modifies this`sessions, stats`udpActiveFlows
      ensures Valid() && sessions == old(sessions)[session.source := session]
      ensures Entries() == old(Entries())[session.source := session.View()]
      ensures stats.udpActiveFlows == old(stats.udpActiveFlows) + 1
    {
      sessions := sessions[session.source := session];
      stats.RecordUdpFlowOpen();
    }

    /** The vacant-entry branch: a fresh id, a new session, the open recorded. */
    method InsertNew(source: SocketAddr, now: nat) returns (session: Session)
      requires Valid() && source !in sessions
      modifies this, stats`udpActiveFlows
      ensures Valid() && fresh(session) && sessions == old(sessions)[source := session]
      ensures Entries() == old(Entries())[source := SessionView(old(nextSessionId), source, now, false, false)]
      ensures nextSessionId == old(nextSessionId) + 1
      ensures stats.udpActiveFlows == old(stats.udpActiveFlows) + 1
    {
      session := NewSession(source, now);
      List(session);
    }

    /** `socketOk` is the outcome of opening the upstream socket; `spawned` says that a reply task starts. */
    method GetOrCreate(source: SocketAddr, socketOk: bool, now: nat) returns (r: Option<Session>, spawned: bool)
      requires Valid()
      modifies this, stats`udpActiveFlows, sessions.Values
      ensures Valid()
      ensures source in old(sessions) ==>
                && r == Some(old(sessions[source])) && !spawned && sessions == old(sessions)
                && Entries() == old(Entries())[source := old(Entries()[source]).(lastActive := now)]
                && nextSessionId == old(nextSessionId) && stats.udpActiveFlows == old(stats.udpActiveFlows)
      ensures source !in old(sessions) && !socketOk ==>
                && r == None && !spawned && sessions == old(sessions)
                && Entries() == old(Entries())
                && nextSessionId == old(nextSessionId) && stats.udpActiveFlows == old(stats.udpActiveFlows)
      ensures source !in old(sessions) && socketOk ==>
                && r.Some? && spawned && fresh(r.value) && sessions == old(sessions)[source := r.value]
                && Entries() == old(Entries())[source := SessionView(old(nextSessionId), source, now, false, false)]
                && nextSessionId == old(nextSessionId) + 1
                && stats.udpActiveFlows == old(stats.udpActiveFlows) + 1
    {
      if source in sessions {
        var session := TouchExisting(source, now);
        return Some(session), false;
      }
      if !socketOk {
        return None, false;
      }
      var session := InsertNew(source, now);
      return Some(session), true;
    }

    /** Evicts the entry of `source` if and only if it still carries `id`. */
    method RemoveSession(source: SocketAddr, id: nat)
      requires Valid()
      modifies this, stats`udpActiveFlows, sessions.Values
      ensures Valid() && nextSessionId == old(nextSessionId)
      ensures var hit := source in old(sessions) && old(sessions[source].id) == id;
              && sessions == (if hit then old(sessions) - {source} else old(sessions))
              && Entries() == (if hit then old(Entries()) - {source} else old(Entries()))
              && (hit ==>
                     old(sessions[source]).View() == old(sessions[source].View()).(closed := true, cancelled := true))
              && (forall a | a in old(sessions) && !(hit && a == source) ::
                    old(sessions[a]).View() == old(sessions[a].View()))
      ensures stats.udpActiveFlows == |sessions|
    {
      if source in sessions && sessions[source].id == id {
        var session := Unlist(source);
        Close(session);
      }
    }

    /** The entry is gone, its flow still counted. */
    method Unlist(source: SocketAddr) returns (session: Session)
      requires Valid() && source in sessions
      modifies this`sessions
      ensures sessions == old(sessions) - {source} && stats.udpActiveFlows == |sessions| + 1
      ensures Kept() && session == old(sessions)[source] && session !in sessions.Values
      ensures Entries() == old(Entries()) - {source}
    {
      session := sessions[source];
      assert (sessions - {source}).Keys == sessions.Keys - {source};
      sessions := sessions - {source};
    }

    /** The removed session is cancelled and, as it was not closed before, its close recorded. */
    method Close(session: Session)
      requires Kept() && session !in sessions.Values && !session.closed && stats.udpActiveFlows == |sessions| + 1
      modifies session`cancelled, session`closed, stats`udpActiveFlows
      ensures Valid() && Entries() == old(Entries())
      ensures session.View() == old(session.View()).(closed := true, cancelled := true)
    {
      session.Cancel();
      var first := session.MarkClosed();
      if first {
        stats.RecordUdpFlowClose();
      }
      assert forall a | a in sessions :: sessions[a] != session && sessions[a].View() == old(sessions[a].View());
    }

    /** The iteration of `shutdown_all` (no filter) and of one cleanup tick (`sampled` is its clock). */
    method Collect(sampled: Option<nat>) returns (pairs: seq<Protocol.Pair>)
      ensures forall p :: p in pairs <==>
                && p.source in sessions && sessions[p.source].id == p.id
                && (sampled.Some? ==> Protocol.IsStale(idleTimeout, sampled.value, sessions[p.source].lastActiveEpoch))
    {
      pairs := [];
      var todo := sessions.Keys;
      while todo != {}
        invariant todo <= sessions.Keys
        invariant forall p :: p in pairs <==>
                    && p.source in sessions.Keys - todo && sessions[p.source].id == p.id
                    && (sampled.Some? ==>
                          Protocol.IsStale(idleTimeout, sampled.value, sessions[p.source].lastActiveEpoch))
      {
        var a :| a in todo;
        if sampled.None? || Protocol.IsStale(idleTimeout, sampled.value, sessions[a].lastActiveEpoch) {
          pairs := pairs + [Protocol.Pair(a, sessions[a].id)];
        }
        todo := todo - {a};
      }
    }

    method RemovePair(p: Protocol.Pair)
      requires Valid()
      modifies this, stats`udpActiveFlows, sessions.Values
      ensures Valid() && nextSessionId == old(nextSessionId) && sessions.Values <= old(sessions.Values)
      ensures Entries() == Drop(old(Entries()), p)
      ensures stats.udpActiveFlows == |sessions|
    {
      RemoveSession(p.source, p.id);
    }

    method RemoveAll(pairs: seq<Protocol.Pair>)
      requires Valid()
      modifies this, stats`udpActiveFlows, sessions.Values
      ensures Valid() && nextSessionId == old(nextSessionId)
      ensures Entries() == Without(old(Entries()), pairs)
      ensures stats.udpActiveFlows == |Entries()|
    {
      ghost var before := Entries();
      var i := 0;
      WithoutNothing(before);
      while i < |pairs|
        invariant 0 <= i <= |pairs| && Valid() && nextSessionId == old(nextSessionId)
        invariant sessions.Values <= old(sessions.Values)
        invariant Entries() == Without(before, pairs[..i])
      {
        WithoutSnoc(before, pairs, i);
        RemovePair(pairs[i]);
        i := i + 1;
      }
      assert pairs[..i] == pairs;
      assert Entries().Keys == sessions.Keys;
    }

    /** Run alone it empties the table and zeroes the gauge. */
    method ShutdownAll()
      requires Valid()
      modifies this, stats`udpActiveFlows, sessions.Values
      ensures Valid() && sessions == map[]
      ensures stats.udpActiveFlows == 0
    {
      var pairs := Collect(None);
      RemoveAll(pairs);
      assert Entries() == map[];
      assert Entries().Keys == sessions.Keys;
    }

    /** One cleanup tick keeps exactly the sessions idle for less than the timeout. */
    method Sweep(sampled: nat)
      requires Valid()
      modifies this, stats`udpActiveFlows, sessions.Values
      ensures Valid() && nextSessionId == old(nextSessionId)
      ensures Entries() == map a | a in old(Entries())
                             && !Protocol.IsStale(idleTimeout, sampled, old(Entries())[a].lastActive)
                           :: old(Entries())[a]
      ensures stats.udpActiveFlows == |Entries()|
    {
      var pairs := Collect(Some(sampled));
      WithoutStale(Entries(), pairs, idleTimeout, sampled);
      RemoveAll(pairs);
    }
  }

  /** The entries whose (source, id) is not listed. */
  ghost function Without(
    entries: map<SocketAddr, SessionView>, pairs: seq<Protocol.Pair>): map<SocketAddr, SessionView> {
    map a | a in entries && Protocol.Pair(a, entries[a].id) !in pairs :: entries[a]
  }

  /** What is left when exactly the stale entries are listed. */
  lemma WithoutStale(entries: map<SocketAddr, SessionView>, pairs: seq<Protocol.Pair>, timeout: nat, sampled: nat)
    requires forall p :: p in pairs <==>
               && p.source in entries && entries[p.source].id == p.id
               && Protocol.IsStale(timeout, sampled, entries[p.source].lastActive)
    ensures Without(entries, pairs)
            == map a | a in entries && !Protocol.IsStale(timeout, sampled, entries[a].lastActive) :: entries[a]
  {
    forall a | a in entries
      ensures Protocol.Pair(a, entries[a].id) in pairs <==> Protocol.IsStale(timeout, sampled, entries[a].lastActive)
    {
    }
  }

  ghost function Drop(entries: map<SocketAddr, SessionView>, p: Protocol.Pair): map<SocketAddr, SessionView> {
    if p.source in entries && entries[p.source].id == p.id then entries - {p.source} else entries
  }

  lemma WithoutNothing(entries: map<SocketAddr, SessionView>)
    ensures Without(entries, []) == entries
  {
  }

  lemma WithoutSnoc(entries: map<SocketAddr, SessionView>, pairs: seq<Protocol.Pair>, i: nat)
    requires i < |pairs|
    ensures Without(entries, pairs[..i + 1]) == Drop(Without(entries, pairs[..i]), pairs[i])
  {
    assert pairs[..i + 1] == pairs[..i] + [pairs[i]];
  }

  // ----- the atomic steps, run without interference, compute the methods -----

  ghost function Observed(s: Protocol.State): map<SocketAddr, SessionView>
    requires Protocol.Typed(s)
  {
    map a | a in s.table ::
      var x := s.sessions[s.table[a]];
      SessionView(x.id, x.source, x.lastActive, x.closed, x.cancelled)
  }

  ghost function CreateAlone(s: Protocol.State, t: nat, source: SocketAddr): Protocol.State
    requires Protocol.At(s, t) && s.tasks[t].pc.Serving?
  {
    var s1 := Protocol.SetPc(s, t, Protocol.Missed(source));
    var s2 := Protocol.FetchIdOp(s1, t);
    var s3 := Protocol.BuildOp(s2, t);
    var s4 := Protocol.InsertOp(s3, t);
    var s5 := Protocol.OpenOp(s4, t);
    Protocol.SpawnOp(s5, t)
  }

  lemma CreateAloneState(s: Protocol.State, t: nat, source: SocketAddr)
    requires Protocol.At(s, t) && s.tasks[t].pc.Serving?
    ensures CreateAlone(s, t, source) == s.(
              sessions := s.sessions + [Protocol.Session(s.nextId, source, s.now, false, false, Protocol.Listed)],
              table := s.table[source := |s.sessions|],
              nextId := s.nextId + 1,
              gauge := s.gauge + 1,
              tasks := s.tasks + [Protocol.Task(Protocol.Replier, Protocol.Receiving(|s.sessions|))])
  {
    assert s.tasks[t := s.tasks[t].(pc := Protocol.Serving)] == s.tasks;
  }

  /** Lookup, fetch_add, build, insert, record the open, spawn: the effect `GetOrCreate` states. */
  lemma StepsOfCreate(s: Protocol.State, t: nat, source: SocketAddr)
    requires Protocol.Inv(s) && Protocol.At(s, t) && s.tasks[t].pc.Serving?
    ensures var s' := CreateAlone(s, t, source);
            && Protocol.Typed(s')
            && Observed(s') == Observed(s)[source := SessionView(s.nextId, source, s.now, false, false)]
            && s'.nextId == s.nextId + 1 && s'.gauge == s.gauge + 1
            && s'.tasks == s.tasks + [Protocol.Task(Protocol.Replier, Protocol.Receiving(|s.sessions|))]
  {
    CreateAloneState(s, t, source);
  }

  ghost function RemoveAlone(s: Protocol.State, t: nat, source: SocketAddr): Protocol.State
    requires Protocol.Shape(s) && Protocol.At(s, t) && s.tasks[t].pc.Evicting? && source in s.table
  {
    var s1 := Protocol.RemoveOp(s, t, source,
                                s.tasks[t].pc.todo - {Protocol.Pair(source, s.sessions[s.table[source]].id)});
    var s2 := Protocol.CancelOp(s1, t);
    var s3 := Protocol.MarkOp(s2, t);
    if s3.tasks[t].pc.Marked? then Protocol.CloseOp(s3, t) else s3
  }

  lemma RemoveAloneState(s: Protocol.State, t: nat, source: SocketAddr)
    requires Protocol.Shape(s) && Protocol.At(s, t) && s.tasks[t].pc.Evicting? && source in s.table
    ensures var h := s.table[source];
            var rest := s.tasks[t].pc.todo - {Protocol.Pair(source, s.sessions[h].id)};
            RemoveAlone(s, t, source) == s.(
              sessions := s.sessions[h := s.sessions[h].(closed := true, cancelled := true, life := Protocol.Gone)],
              table := s.table - {source},
              gauge := SaturatingSub(s.gauge, 1),
              lost := s.lost + (if s.gauge == 0 then 1 else 0),
              tasks := s.tasks[t := s.tasks[t].(pc := Protocol.Evicting(rest))])
  {
    assert !s.sessions[s.table[source]].closed;
  }

  /** remove_if, cancel, mark_closed, record the close: the effect `RemoveSession` states on a hit. */
  lemma StepsOfRemove(s: Protocol.State, t: nat, source: SocketAddr)
    requires Protocol.Shape(s) && Protocol.At(s, t) && s.tasks[t].pc.Evicting? && source in s.table
    ensures var s' := RemoveAlone(s, t, source);
            && Protocol.Typed(s')
            && Observed(s') == Observed(s) - {source}
            && s'.gauge == SaturatingSub(s.gauge, 1)
  {
    RemoveAloneState(s, t, source);
  }
}
