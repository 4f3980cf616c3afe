/**
 * The accept loop and the connection task as they run when no other task interferes
 * (src/listener/tcp.rs, src/forward/tcp.rs). TcpAdmission has the interleavings.
 */
module TcpListener {
  import opened Counting
  import opened PortStats
  import Machine = TcpAdmission

  class Semaphore {
    var available: nat
    var closed: bool

    constructor (permits: nat)
      ensures available == permits && !closed
    {
      available, closed := permits, false;
    }

    /** A permit, unless the semaphore is closed or the caller would have to wait. */
    method TryAcquire() returns (ok: bool)
      modifies this
      ensures ok <==> !old(closed) && old(available) > 0
      ensures available == (if ok then old(available) - 1 else old(available)) && closed == old(closed)
    {
      ok := !closed && available > 0;
      if ok {
        available := available - 1;
      }
    }

    method Release()
      modifies this
      ensures available == old(available) + 1 && closed == old(closed)
    {
      available := available + 1;
    }
  }

  /** What one turn of the accept loop sees: which select branch fires, and what accept yields. */
  datatype Turn = CancelledBeforePermit | CancelledBeforeAccept | AcceptFailed | Stream

  /** The streams the loop takes when nobody returns a permit meanwhile. */
  function Streams(turns: seq<Turn>, permits: nat): (r: nat)
    ensures r <= permits
  {
    if turns == [] || permits == 0 then 0
    else match turns[0]
      case Stream => 1 + Streams(turns[1..], permits - 1)
      case AcceptFailed => Streams(turns[1..], permits)
      case _ => 0
  }

  /** Whether the loop ends up waiting for a permit that nobody returns. */
  predicate Waits(turns: seq<Turn>, permits: nat) {
    && turns != [] && turns[0] != CancelledBeforePermit
    && (permits == 0
        || match turns[0]
           case Stream => Waits(turns[1..], permits - 1)
           case AcceptFailed => Waits(turns[1..], permits)
           case _ => false)
  }

  predicate IsStream(t: Turn) { t == Stream }

  /** In the first `n` turns nothing is cancelled. */
  predicate Uncancelled(turns: seq<Turn>, n: nat)
    requires n <= |turns|
  {
    forall i | 0 <= i < n :: turns[i] == Stream || turns[i] == AcceptFailed
  }

  lemma CountFirst(turns: seq<Turn>, n: nat)
    requires 0 < n <= |turns|
    ensures Count(turns[..n], IsStream) == Bit(turns[0] == Stream) + Count(turns[1..][..n - 1], IsStream)
  {
    assert turns[..n] == [turns[0]] + turns[1..][..n - 1];
    CountConcat([turns[0]], turns[1..][..n - 1], IsStream);
    assert [turns[0]][..0] == [];
  }

  /**
   * The loop takes as many streams as come before the first cancellation, at most one per permit;
   * failed accepts in between change nothing.
   */
  lemma {:induction false} StreamsIs(turns: seq<Turn>, permits: nat, n: nat)
    requires n <= |turns| && Uncancelled(turns, n)
    requires n < |turns| ==> turns[n] == CancelledBeforePermit || turns[n] == CancelledBeforeAccept
    ensures var streams := Count(turns[..n], IsStream);
            Streams(turns, permits) == if streams < permits then streams else permits
    decreases n
  {
    if n > 0 {
      CountFirst(turns, n);
      StreamsIs(turns[1..], permits, n - 1);
      if turns[0] == Stream && permits > 0 {
        StreamsIs(turns[1..], permits - 1, n - 1);
      }
    }
  }

  /** The loop waits iff it comes back for a permit when as many streams as there were permits are taken. */
  lemma {:induction false} WaitsIff(turns: seq<Turn>, permits: nat)
    ensures Waits(turns, permits) <==> exists m: nat :: WaitsAt(turns, permits, m)
    decreases turns
  {
    if Waits(turns, permits) {
      if permits == 0 {
        assert WaitsAt(turns, 0, 0);
      } else {
        var rest := permits - Bit(turns[0] == Stream);
        WaitsIff(turns[1..], rest);
        var m: nat :| WaitsAt(turns[1..], rest, m);
        CountFirst(turns, m + 1);
        assert WaitsAt(turns, permits, m + 1);
      }
    }
    if m: nat :| WaitsAt(turns, permits, m) {
      WaitingWaits(turns, permits, m);
    }
  }

  predicate WaitsAt(turns: seq<Turn>, permits: nat, m: nat) {
    && m < |turns| && Uncancelled(turns, m) && turns[m] != CancelledBeforePermit
    && Count(turns[..m], IsStream) == permits
  }

  lemma {:induction false} WaitingWaits(turns: seq<Turn>, permits: nat, m: nat)
    requires WaitsAt(turns, permits, m)
    ensures Waits(turns, permits)
    decreases m
  {
    if m > 0 && permits > 0 {
      CountFirst(turns, m);
      WaitingWaits(turns[1..], permits - Bit(turns[0] == Stream), m - 1);
    }
  }

  /** Every branch gives the permit back except the one that hands it to a connection task. */
  method AcceptLoop(semaphore: Semaphore, stats: Counters, turns: seq<Turn>)
    returns (connections: nat, waiting: bool)
    modifies semaphore, stats
    ensures connections == if old(semaphore.closed) then 0 else Streams(turns, old(semaphore.available))
    ensures waiting <==> !old(semaphore.closed) && Waits(turns, old(semaphore.available))
    ensures semaphore.available + connections == old(semaphore.available) && semaphore.closed == old(semaphore.closed)
    ensures stats.View() == old(stats.View()).(
              tcpAccepted := old(stats.tcpAccepted) + connections, tcpActive := old(stats.tcpActive) + connections)
  {
    connections, waiting := 0, false;
    var i := 0;
    while i < |turns|
      invariant 0 <= i <= |turns| && semaphore.closed == old(semaphore.closed) && !waiting
      invariant semaphore.available + connections == old(semaphore.available)
      invariant !semaphore.closed ==>
                  Streams(turns, old(semaphore.available)) == connections + Streams(turns[i..], semaphore.available)
      invariant !semaphore.closed ==>
                  Waits(turns, old(semaphore.available)) == Waits(turns[i..], semaphore.available)
      invariant semaphore.closed ==> connections == 0
      invariant stats.View() == old(stats.View()).(
                  tcpAccepted := old(stats.tcpAccepted) + connections, tcpActive := old(stats.tcpActive) + connections)
    {
      assert turns[i..][1..] == turns[i + 1..];
      if turns[i] == CancelledBeforePermit {
        break;
      }
      var permit := semaphore.TryAcquire();
      if !permit {
        waiting := !semaphore.closed;
        break;
      }
      match turns[i] {
        case CancelledBeforeAccept =>
          semaphore.Release();
          break;
        case AcceptFailed =>
          semaphore.Release();
        case Stream =>
          stats.RecordTcpAccept();
          connections := connections + 1;
        case CancelledBeforePermit =>
      }
      i := i + 1;
    }
  }

  /** How the proxied stream ended. */
  datatype Outcome = Cancelled | Forwarded(inBytes: nat, outBytes: nat) | ForwardError

  function InBytes(o: Outcome): nat {
    if o.Forwarded? then o.inBytes else 0
  }

  function OutBytes(o: Outcome): nat {
    if o.Forwarded? then o.outBytes else 0
  }

  /** Bytes are recorded only for a completed copy; the close is recorded on every exit, then the permit returns. */
  method Proxy(semaphore: Semaphore, stats: Counters, outcome: Outcome)
    modifies semaphore, stats
    ensures semaphore.available == old(semaphore.available) + 1 && semaphore.closed == old(semaphore.closed)
    ensures stats.View() == old(stats.View()).(
              tcpActive := SaturatingSub(old(stats.tcpActive), 1), tcpClosed := old(stats.tcpClosed) + 1,
              tcpInBytes := stats.tcpInBytes, tcpOutBytes := stats.tcpOutBytes)
    ensures match outcome
            case Forwarded(inBytes, outBytes) =>
              && stats.tcpInBytes == old(stats.tcpInBytes) + inBytes
              && stats.tcpOutBytes == old(stats.tcpOutBytes) + outBytes
            case _ => stats.tcpInBytes == old(stats.tcpInBytes) && stats.tcpOutBytes == old(stats.tcpOutBytes)
  {
    match outcome {
      case Forwarded(inBytes, outBytes) => stats.AddTcpBytes(inBytes, outBytes);
      case Cancelled =>
      case ForwardError =>
    }
    stats.RecordTcpClose();
    semaphore.Release();
  }

  function Outcomes(n: nat, outcome: nat -> Outcome): (r: seq<Outcome>)
    ensures |r| == n && forall i | 0 <= i < n :: r[i] == outcome(i)
  {
    seq(n, i requires 0 <= i < n => outcome(i))
  }

  /**
   * A whole listener: accept loop, then the join loop over its connections. Every permit is back,
   * nothing is active, everything accepted is closed, and the bytes are those of the completed copies.
   */
  method Run(semaphore: Semaphore, stats: Counters, turns: seq<Turn>, outcome: nat -> Outcome)
    returns (connections: nat)
    modifies semaphore, stats
    ensures connections == if old(semaphore.closed) then 0 else Streams(turns, old(semaphore.available))
    ensures semaphore.available == old(semaphore.available)
    ensures stats.View() == old(stats.View()).(
              tcpAccepted := old(stats.tcpAccepted) + connections,
              tcpClosed := old(stats.tcpClosed) + connections,
              tcpInBytes := old(stats.tcpInBytes) + Sum(Outcomes(connections, outcome), InBytes),
              tcpOutBytes := old(stats.tcpOutBytes) + Sum(Outcomes(connections, outcome), OutBytes))
  {
    var waiting: bool;
    connections, waiting := AcceptLoop(semaphore, stats, turns);
    ghost var all := Outcomes(connections, outcome);
    var joined := 0;
    while joined < connections
      invariant 0 <= joined <= connections
      invariant semaphore.available + (connections - joined) == old(semaphore.available)
      invariant stats.View() == old(stats.View()).(
                  tcpAccepted := old(stats.tcpAccepted) + connections,
                  tcpActive := old(stats.tcpActive) + (connections - joined),
                  tcpClosed := old(stats.tcpClosed) + joined,
                  tcpInBytes := old(stats.tcpInBytes) + Sum(all[..joined], InBytes),
                  tcpOutBytes := old(stats.tcpOutBytes) + Sum(all[..joined], OutBytes))
    {
      Proxy(semaphore, stats, outcome(joined));
      assert all[..joined + 1][..joined] == all[..joined] && all[joined] == outcome(joined);
      joined := joined + 1;
    }
    assert all[..joined] == all;
  }

  // ----- the atomic steps, run without interference, compute the branches -----

  /** Permit, stream, both counts, hand-off. */
  ghost function StreamAlone(s: Machine.State, l: nat): Machine.State
    requires Machine.Enabled(s, Machine.Acquire(l)) && l < |s.ports|
  {
    var s1 := Machine.Next(s, Machine.Acquire(l));
    var s2 := Machine.Next(s1, Machine.Accept(l));
    var s3 := Machine.Next(s2, Machine.CountAccepted(l));
    var s4 := Machine.Next(s3, Machine.CountActive(l));
    Machine.Next(s4, Machine.Spawn(l))
  }

  /** The effect `AcceptLoop` states for one stream. */
  lemma StepsOfStream(s: Machine.State, l: nat)
    requires Machine.Enabled(s, Machine.Acquire(l)) && l < |s.ports|
    ensures var c := s.ports[l];
            StreamAlone(s, l) == s.(
              available := s.available - 1,
              ports := s.ports[l := c.(accepted := c.accepted + 1, active := c.active + 1)],
              conns := s.conns + [Machine.Conn(l, Machine.Proxying)])
  {
    assert s.listeners[l := Machine.Acquiring] == s.listeners;
  }

  /** A failed accept and a shutdown before accept both give the permit back. */
  lemma StepsOfNoStream(s: Machine.State, l: nat)
    requires Machine.Enabled(s, Machine.Acquire(l))
    ensures var s1 := Machine.Next(s, Machine.Acquire(l));
            && Machine.Next(s1, Machine.AcceptError(l)) == s
            && (s.cancelled ==>
                  Machine.Next(s1, Machine.LeaveWithPermit(l)) == Machine.SetListener(s, l, Machine.Joining))
  {
    assert s.listeners[l := Machine.Acquiring] == s.listeners;
  }

  /** End of the copy, the close in two updates, the permit. */
  ghost function ProxyAlone(s: Machine.State, k: nat): Machine.State
    requires Machine.Enabled(s, Machine.EndProxy(k))
  {
    var s1 := Machine.Next(s, Machine.EndProxy(k));
    var s2 := Machine.Next(s1, Machine.DropActive(k));
    var s3 := Machine.Next(s2, Machine.CountClosed(k));
    Machine.Next(s3, Machine.Release(k))
  }

  /** The effect `Proxy` states. */
  lemma StepsOfProxy(s: Machine.State, k: nat)
    requires Machine.Enabled(s, Machine.EndProxy(k))
    ensures var p := s.conns[k].port;
            var c := s.ports[p];
            ProxyAlone(s, k) == s.(
              available := s.available + 1,
              ports := s.ports[p := c.(active := SaturatingSub(c.active, 1), closed := c.closed + 1,
                                       lost := c.lost + Bit(c.active == 0))],
              conns := s.conns[k := Machine.Conn(p, Machine.Finished)])
  {
  }
}
