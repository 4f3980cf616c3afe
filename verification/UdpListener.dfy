/**
 * The receive loop of one UDP listener (src/listener/udp.rs) as it runs when no other task
 * interferes. What the kernel and the targets answer is an input.
 */
module UdpListener {
  import opened Net
  import opened Counting
  import opened PortStats
  import opened UdpBatch
  import opened UdpSession

  /** Whether the upstream socket opens, whether the send succeeds, and the clock at the two touches. */
  datatype Outcome = Outcome(socketOk: bool, sendOk: bool, now: nat, later: nat)

  /** A datagram sent to the target over the upstream socket of session `id`. */
  datatype Forward = Forward(id: nat, source: SocketAddr, payload: Bytes)

  datatype Ledger = Ledger(entries: map<SocketAddr, SessionView>, nextId: nat, inBytes: nat, out: seq<Forward>)

  /** One wake-up of the loop: the kernel's replies, and the outcome for each datagram of the batch. */
  datatype Round = Round(script: seq<RecvReply>, outcomes: nat -> Outcome)

  /** Datagrams without a readable sender and empty ones are skipped. */
  predicate Served(d: Arrival) {
    d.from.Some? && d.payload != []
  }

  /** `get_or_create` with an entry to return. */
  ghost function Located(l: Ledger, source: SocketAddr, now: nat): Ledger {
    if source in l.entries then
      l.(entries := l.entries[source := l.entries[source].(lastActive := now)])
    else
      l.(entries := l.entries[source := SessionView(l.nextId, source, now, false, false)], nextId := l.nextId + 1)
  }

  /** `forward_client_packet` that succeeds: send, touch, count. */
  ghost function Sent(l: Ledger, source: SocketAddr, payload: Bytes, later: nat): Ledger
    requires source in l.entries
  {
    l.(entries := l.entries[source := l.entries[source].(lastActive := later)],
       inBytes := l.inBytes + |payload|,
       out := l.out + [Forward(l.entries[source].id, source, payload)])
  }

  ghost function AfterOne(l: Ledger, d: Arrival, o: Outcome): Ledger {
    if !Served(d) || (d.from.value !in l.entries && !o.socketOk) then l
    else if o.sendOk then Sent(Located(l, d.from.value, o.now), d.from.value, d.payload, o.later)
    else Located(l, d.from.value, o.now)
  }

  ghost function AfterAll(l: Ledger, ds: seq<Arrival>, outcomes: nat -> Outcome): Ledger {
    if ds == [] then l else AfterOne(AfterAll(l, ds[..|ds| - 1], outcomes), ds[|ds| - 1], outcomes(|ds| - 1))
  }

  lemma AfterMore(l: Ledger, ds: seq<Arrival>, outcomes: nat -> Outcome, i: nat)
    requires i < |ds|
    ensures AfterAll(l, ds[..i + 1], outcomes) == AfterOne(AfterAll(l, ds[..i], outcomes), ds[i], outcomes(i))
  {
    assert ds[..i + 1][..i] == ds[..i];
  }

  /** What one receive puts in a buffer of this shape. */
  function Taken(script: seq<RecvReply>, batchSize: nat, slotSize: nat): seq<Arrival> {
    match FirstReady(script)
    case Failed(_) => []
    case Arrived(ds) =>
      seq(Min(|ds|, batchSize),
          i requires 0 <= i < |ds| => Arrival(Truncated(ds[i].payload, slotSize), ds[i].from))
  }

  ghost function AfterRounds(l: Ledger, rounds: seq<Round>, batchSize: nat, slotSize: nat): Ledger {
    if rounds == [] then l
    else
      var last := rounds[|rounds| - 1];
      AfterAll(AfterRounds(l, rounds[..|rounds| - 1], batchSize, slotSize),
               Taken(last.script, batchSize, slotSize), last.outcomes)
  }

  class Listener {
    const table: SessionTable
    const batch: BatchBuf
    var out: seq<Forward>

    ghost predicate Valid()
      reads table, table.stats`udpActiveFlows, table.sessions.Values, batch.lens
    {
      table.Valid() && batch.Valid()
    }

    ghost function View(): Ledger
      reads this`out, table`sessions, table`nextSessionId, table.stats`udpInBytes, table.sessions.Values
    {
      Ledger(table.Entries(), table.nextSessionId, table.stats.udpInBytes, out)
    }

    constructor (table: SessionTable, batch: BatchBuf)
      requires table.Valid() && batch.Valid()
      ensures Valid() && this.table == table && this.batch == batch && out == []
    {
      this.table, this.batch, this.out := table, batch, [];
    }

    /** Finds or creates the session. */
    method Locate(source: SocketAddr, o: Outcome) returns (r: Option<nat>)
      requires Valid()
      modifies table, table.stats`udpActiveFlows, table.sessions.Values
      ensures Valid() && r.Some? == (source in old(table.sessions) || o.socketOk)
      ensures View() == if r.Some? then Located(old(View()), source, o.now) else old(View())
      ensures r.Some? ==> source in table.sessions && table.Entries()[source].id == r.value
      ensures fresh(table.sessions.Values - old(table.sessions.Values))
    {
      var session, spawned := table.GetOrCreate(source, o.socketOk, o.now);
      r := match session
        case None => None
        case Some(found) => Some(found.id);
    }

    method Send(source: SocketAddr, payload: Bytes)
      requires Valid() && source in table.sessions
      modifies this`out
      ensures Valid() && View() == old(View()).(
                out := old(out) + [Forward(old(View()).entries[source].id, source, payload)])
    {
      out := out + [Forward(table.sessions[source].id, source, payload)];
    }

    method Touch(source: SocketAddr, now: nat)
      requires Valid() && source in table.sessions
      modifies table.sessions.Values
      ensures Valid()
      ensures var l := old(View()); View() == l.(entries := l.entries[source := l.entries[source].(lastActive := now)])
    {
      var session := table.TouchExisting(source, now);
    }

    method CountIn(bytes: nat)
      requires Valid()
      modifies table.stats`udpInBytes
      ensures Valid() && View() == old(View()).(inBytes := old(View().inBytes) + bytes)
    {
      table.stats.AddUdpIn(bytes);
    }

    /** A successful send, then the touch, then the byte count. */
    method ForwardCounted(source: SocketAddr, payload: Bytes, later: nat)
      requires Valid() && source in table.sessions
      modifies this`out, table.stats`udpInBytes, table.sessions.Values
      ensures Valid() && table.sessions == old(table.sessions)
      ensures View() == Sent(old(View()), source, payload, later)
    {
      Send(source, payload);
      Touch(source, later);
      CountIn(|payload|);
    }

    /** A failed send leaves the session in place. */
    method HandleOne(source: SocketAddr, payload: Bytes, o: Outcome)
      requires Valid() && payload != []
      modifies this`out, table, table.stats`udpActiveFlows, table.stats`udpInBytes, table.sessions.Values
      ensures Valid() && View() == AfterOne(old(View()), Arrival(payload, Some(source)), o)
      ensures !o.sendOk ==> out == old(out) && table.stats.udpInBytes == old(table.stats.udpInBytes)
      ensures fresh(table.sessions.Values - old(table.sessions.Values))
    {
      var id := Locate(source, o);
      if id.Some? && o.sendOk {
        ForwardCounted(source, payload, o.later);
      }
    }

    /** `held` are the datagrams in the first slots of the batch. */
    ghost predicate Holds(held: seq<Arrival>)
      reads batch.data, batch.lens, batch.addrs
    {
      && batch.Valid() && |held| <= batch.batchSize
      && forall i | 0 <= i < |held| :: batch.Slot(i) == held[i].payload && batch.Addr(i) == held[i].from
    }

    method HandleSlot(i: nat, o: Outcome, ghost held: seq<Arrival>)
      requires Valid() && Holds(held) && i < |held|
      modifies this`out, table, table.stats`udpActiveFlows, table.stats`udpInBytes, table.sessions.Values
      ensures Valid() && View() == AfterOne(old(View()), held[i], o)
      ensures fresh(table.sessions.Values - old(table.sessions.Values))
    {
      var source := batch.Addr(i);
      var payload := batch.Slot(i);
      if source.Some? && payload != [] {
        HandleOne(source.value, payload, o);
      }
    }

    method HandleBatch(count: nat, outcomes: nat -> Outcome, ghost held: seq<Arrival>)
      requires Valid() && Holds(held) && count == |held|
      modifies this`out, table, table.stats`udpActiveFlows, table.stats`udpInBytes, table.sessions.Values
      ensures Valid() && View() == AfterAll(old(View()), held, outcomes)
      ensures fresh(table.sessions.Values - old(table.sessions.Values))
    {
      ghost var before := View();
      var i := 0;
      while i < count
        invariant 0 <= i <= count && Valid()
        invariant View() == AfterAll(before, held[..i], outcomes)
        invariant fresh(table.sessions.Values - old(table.sessions.Values))
      {
        AfterMore(before, held, outcomes, i);
        HandleSlot(i, outcomes(i), held);
        i := i + 1;
      }
      assert held[..i] == held;
    }

    method Receive(script: seq<RecvReply>) returns (r: Result<nat, ErrorKind>, ghost taken: seq<Arrival>)
      requires Valid()
      modifies batch.data, batch.lens, batch.addrs
      ensures Valid() && Holds(taken) && taken == Taken(script, batch.batchSize, batch.slotSize)
      ensures if r.Ok? then r.value == |taken| else taken == []
      ensures View() == old(View()) && table.sessions == old(table.sessions)
    {
      r := batch.RecvBatch(script);
      taken := Taken(script, batch.batchSize, batch.slotSize);
    }

    /** One wake-up: receive a batch and serve it; a receive error is only logged. */
    method HandleRound(round: Round)
      requires Valid()
      modifies this`out, table, table.stats`udpActiveFlows, table.stats`udpInBytes, table.sessions.Values
      modifies batch.data, batch.lens, batch.addrs
      ensures Valid()
      ensures View() == AfterAll(old(View()), Taken(round.script, batch.batchSize, batch.slotSize), round.outcomes)
      ensures fresh(table.sessions.Values - old(table.sessions.Values))
    {
      var r, taken := Receive(round.script);
      if r.Ok? {
        HandleBatch(r.value, round.outcomes, taken);
      }
    }

    /** The loop until shutdown, then `shutdown_all`: the table is empty and the gauge is 0. */
    method Run(rounds: seq<Round>)
      requires Valid()
      modifies this`out, table, table.stats`udpActiveFlows, table.stats`udpInBytes, table.sessions.Values
      modifies batch.data, batch.lens, batch.addrs
      ensures Valid() && table.sessions == map[]
      ensures var l := AfterRounds(old(View()), rounds, batch.batchSize, batch.slotSize);
              && out == l.out
              && table.stats.View() == old(table.stats.View()).(udpActiveFlows := 0, udpInBytes := l.inBytes)
    {
      ghost var before := View();
      var i := 0;
      while i < |rounds|
        invariant 0 <= i <= |rounds| && Valid()
        invariant View() == AfterRounds(before, rounds[..i], batch.batchSize, batch.slotSize)
        invariant fresh(table.sessions.Values - old(table.sessions.Values))
      {
        assert rounds[..i + 1][..i] == rounds[..i];
        HandleRound(rounds[i]);
        i := i + 1;
      }
      assert rounds[..i] == rounds;
      table.ShutdownAll();
    }
  }

  // ----- what the loop guarantees -----

  /** Entries sit under their own source, with distinct ids below the counter. */
  ghost predicate WellKept(l: Ledger) {
    && (forall a | a in l.entries :: l.entries[a].source == a && l.entries[a].id < l.nextId)
    && (forall a, b | a in l.entries && b in l.entries && a != b :: l.entries[a].id != l.entries[b].id)
  }

  /** `l'` keeps every session of `l` under the same id, and forwards each datagram on its sender's session. */
  ghost predicate Extends(l: Ledger, l': Ledger) {
    && (forall a | a in l.entries :: a in l'.entries && l'.entries[a].id == l.entries[a].id)
    && l.out <= l'.out
    && (forall k | |l.out| <= k < |l'.out| ::
          l'.out[k].source in l'.entries && l'.entries[l'.out[k].source].id == l'.out[k].id)
  }

  lemma LocatedExtends(l: Ledger, source: SocketAddr, now: nat)
    requires WellKept(l)
    ensures WellKept(Located(l, source, now)) && Extends(l, Located(l, source, now))
  {
  }

  lemma SentExtends(l: Ledger, source: SocketAddr, payload: Bytes, later: nat)
    requires WellKept(l) && source in l.entries
    ensures WellKept(Sent(l, source, payload, later)) && Extends(l, Sent(l, source, payload, later))
  {
  }

  lemma OneExtends(l: Ledger, d: Arrival, o: Outcome)
    requires WellKept(l)
    ensures WellKept(AfterOne(l, d, o)) && Extends(l, AfterOne(l, d, o))
  {
    if AfterOne(l, d, o) != l {
      var m := Located(l, d.from.value, o.now);
      LocatedExtends(l, d.from.value, o.now);
      if o.sendOk {
        SentExtends(m, d.from.value, d.payload, o.later);
        ExtendsTransitive(l, m, AfterOne(l, d, o));
      }
    }
  }

  lemma ExtendsTransitive(l: Ledger, m: Ledger, r: Ledger)
    requires Extends(l, m) && Extends(m, r)
    ensures Extends(l, r)
  {
    forall k | |l.out| <= k < |r.out|
      ensures r.out[k].source in r.entries && r.entries[r.out[k].source].id == r.out[k].id
    {
      if k < |m.out| {
        assert r.out[k] == m.out[k] && m.out[k].source in m.entries;
      }
    }
  }

  lemma {:induction false} BatchExtends(l: Ledger, ds: seq<Arrival>, outcomes: nat -> Outcome)
    requires WellKept(l)
    ensures WellKept(AfterAll(l, ds, outcomes)) && Extends(l, AfterAll(l, ds, outcomes))
  {
    if ds != [] {
      var n := |ds| - 1;
      BatchExtends(l, ds[..n], outcomes);
      OneExtends(AfterAll(l, ds[..n], outcomes), ds[n], outcomes(n));
      ExtendsTransitive(l, AfterAll(l, ds[..n], outcomes), AfterAll(l, ds, outcomes));
    }
  }

  lemma {:induction false} RoundsExtend(l: Ledger, rounds: seq<Round>, batchSize: nat, slotSize: nat)
    requires WellKept(l)
    ensures var l' := AfterRounds(l, rounds, batchSize, slotSize); WellKept(l') && Extends(l, l')
  {
    if rounds != [] {
      var front, last := rounds[..|rounds| - 1], rounds[|rounds| - 1];
      var m := AfterRounds(l, front, batchSize, slotSize);
      RoundsExtend(l, front, batchSize, slotSize);
      BatchExtends(m, Taken(last.script, batchSize, slotSize), last.outcomes);
      ExtendsTransitive(l, m, AfterRounds(l, rounds, batchSize, slotSize));
    }
  }

  /**
   * Without removals by other tasks two forwarded datagrams go over the same session exactly when
   * they come from the same client, over any number of batches.
   */
  lemma OneSessionPerClient(l: Ledger, rounds: seq<Round>, batchSize: nat, slotSize: nat, i: nat, j: nat)
    requires WellKept(l)
    requires var out := AfterRounds(l, rounds, batchSize, slotSize).out; |l.out| <= i < |out| && |l.out| <= j < |out|
    ensures var out := AfterRounds(l, rounds, batchSize, slotSize).out;
            out[i].id == out[j].id <==> out[i].source == out[j].source
  {
    RoundsExtend(l, rounds, batchSize, slotSize);
  }

  /** A datagram with a sender and a payload, a session listed or a socket that opens, and a send that succeeds. */
  ghost predicate Forwarded(l: Ledger, d: Arrival, o: Outcome) {
    d.from.Some? && d.payload != [] && (d.from.value in l.entries || o.socketOk) && o.sendOk
  }

  /**
   * One datagram. If it is forwarded, it goes out over its sender's session, new or old, its bytes are
   * counted and the session is touched after the send. If not, nothing goes out and nothing is
   * counted; a session that was found or created keeps the touch from before the send.
   */
  lemma OneDatagram(l: Ledger, d: Arrival, o: Outcome)
    ensures var r := AfterOne(l, d, o);
            if Forwarded(l, d, o) then
              var a := d.from.value;
              && a in r.entries && r.entries[a].lastActive == o.later
              && r.entries[a].id == (if a in l.entries then l.entries[a].id else l.nextId)
              && r.out == l.out + [Forward(r.entries[a].id, a, d.payload)] && r.inBytes == l.inBytes + |d.payload|
              && r.entries - {a} == l.entries - {a}
            else if d.from.None? || d.payload == [] then r == l
            else
              var a := d.from.value;
              && r.out == l.out && r.inBytes == l.inBytes && r.entries - {a} == l.entries - {a}
              && (a in r.entries <==> a in l.entries || o.socketOk)
              && (a in r.entries ==> r.entries[a].lastActive == o.now)
  {
    if d.from.Some? {
      var a := d.from.value;
      assert AfterOne(l, d, o).entries - {a} == l.entries - {a};
    }
  }

  /** A client is listed if it was at first, or sent something when the socket opened. */
  lemma {:induction false} ListedIff(l: Ledger, ds: seq<Arrival>, outcomes: nat -> Outcome, a: SocketAddr)
    ensures a in AfterAll(l, ds, outcomes).entries
            <==> || a in l.entries
                 || exists i: nat :: i < |ds| && ds[i].from == Some(a) && ds[i].payload != [] && outcomes(i).socketOk
    decreases ds
  {
    if ds != [] {
      var n := |ds| - 1;
      ListedIff(l, ds[..n], outcomes, a);
      ListedStep(AfterAll(l, ds[..n], outcomes), ds[n], outcomes(n), a);
      assert forall i | 0 <= i < n :: ds[..n][i] == ds[i];
    }
  }

  lemma ListedStep(l: Ledger, d: Arrival, o: Outcome, a: SocketAddr)
    ensures a in AfterOne(l, d, o).entries
            <==> a in l.entries || (d.from == Some(a) && d.payload != [] && o.socketOk)
  {
  }

  /** A forward carries this datagram, from its sender. */
  ghost predicate IsForwardOf(f: Forward, d: Arrival) {
    f.payload == d.payload && Some(f.source) == d.from
  }

  /** `at` lists, in order, which of the first `n` datagrams are forwarded. */
  ghost predicate Selects(l: Ledger, ds: seq<Arrival>, outcomes: nat -> Outcome, n: nat, at: seq<nat>)
    requires n <= |ds|
  {
    && (forall i, j | 0 <= i < j < |at| :: at[i] < at[j])
    && (forall i: nat :: i in at <==> i < n && Forwarded(AfterAll(l, ds[..i], outcomes), ds[i], outcomes(i)))
  }

  ghost predicate Match(l: Ledger, ds: seq<Arrival>, out: seq<Forward>, at: seq<nat>) {
    && |out| == |l.out| + |at| && l.out <= out
    && forall k | 0 <= k < |at| :: at[k] < |ds| && IsForwardOf(out[|l.out| + k], ds[at[k]])
  }

  lemma OneMoreForward(l: Ledger, ds: seq<Arrival>, outcomes: nat -> Outcome, n: nat)
    requires n < |ds|
    ensures var was, now := AfterAll(l, ds[..n], outcomes), AfterAll(l, ds[..n + 1], outcomes);
            if Forwarded(was, ds[n], outcomes(n)) then
              |now.out| == |was.out| + 1 && was.out <= now.out && IsForwardOf(now.out[|was.out|], ds[n])
            else now.out == was.out
  {
    AfterMore(l, ds, outcomes, n);
    OneDatagram(AfterAll(l, ds[..n], outcomes), ds[n], outcomes(n));
  }

  lemma MatchMore(l: Ledger, ds: seq<Arrival>, was: seq<Forward>, now: seq<Forward>, at: seq<nat>, n: nat)
    requires Match(l, ds, was, at) && n < |ds|
    requires |now| == |was| + 1 && was <= now && IsForwardOf(now[|was|], ds[n])
    ensures Match(l, ds, now, at + [n])
  {
  }

  lemma SelectsMore(l: Ledger, ds: seq<Arrival>, outcomes: nat -> Outcome, n: nat, at: seq<nat>)
    requires n < |ds| && Selects(l, ds, outcomes, n, at)
    ensures Selects(l, ds, outcomes, n + 1,
                    at + if Forwarded(AfterAll(l, ds[..n], outcomes), ds[n], outcomes(n)) then [n] else [])
  {
    assert forall k | 0 <= k < |at| :: at[k] in at;
  }

  lemma {:induction false} ForwardsUpTo(l: Ledger, ds: seq<Arrival>, outcomes: nat -> Outcome, n: nat)
    returns (at: seq<nat>)
    requires n <= |ds|
    ensures Selects(l, ds, outcomes, n, at) && Match(l, ds, AfterAll(l, ds[..n], outcomes).out, at)
    decreases n
  {
    if n == 0 {
      at := [];
    } else {
      at := ForwardsUpTo(l, ds, outcomes, n - 1);
      var was, now := AfterAll(l, ds[..n - 1], outcomes), AfterAll(l, ds[..n - 1 + 1], outcomes);
      OneMoreForward(l, ds, outcomes, n - 1);
      SelectsMore(l, ds, outcomes, n - 1, at);
      if Forwarded(was, ds[n - 1], outcomes(n - 1)) {
        MatchMore(l, ds, was.out, now.out, at, n - 1);
        at := at + [n - 1];
      }
    }
  }

  /**
   * What the loop forwards is an in-order, duplicate-free selection of its datagrams, each from its
   * sender: exactly those with a sender, a payload, a session and a successful send.
   */
  lemma ForwardsInOrder(l: Ledger, ds: seq<Arrival>, outcomes: nat -> Outcome) returns (at: seq<nat>)
    ensures Selects(l, ds, outcomes, |ds|, at) && Match(l, ds, AfterAll(l, ds, outcomes).out, at)
  {
    assert ds[..|ds|] == ds;
    at := ForwardsUpTo(l, ds, outcomes, |ds|);
  }

  function Size(f: Forward): nat {
    |f.payload|
  }

  lemma SumSnoc(out: seq<Forward>, f: Forward)
    ensures Sum(out + [f], Size) == Sum(out, Size) + |f.payload|
  {
    assert (out + [f])[..|out|] == out;
  }

  lemma InBytesOfOne(l: Ledger, d: Arrival, o: Outcome)
    requires l.inBytes == Sum(l.out, Size)
    ensures AfterOne(l, d, o).inBytes == Sum(AfterOne(l, d, o).out, Size)
  {
    if Served(d) && (d.from.value in l.entries || o.socketOk) && o.sendOk {
      var m := Located(l, d.from.value, o.now);
      var f := Forward(m.entries[d.from.value].id, d.from.value, d.payload);
      assert AfterOne(l, d, o).out == l.out + [f];
      SumSnoc(l.out, f);
    }
  }

  /** `udp_in_bytes` grows by exactly the bytes forwarded. */
  lemma {:induction false} InBytesAreForwarded(l: Ledger, ds: seq<Arrival>, outcomes: nat -> Outcome)
    requires l.inBytes == Sum(l.out, Size)
    ensures AfterAll(l, ds, outcomes).inBytes == Sum(AfterAll(l, ds, outcomes).out, Size)
  {
    if ds != [] {
      var n := |ds| - 1;
      InBytesAreForwarded(l, ds[..n], outcomes);
      InBytesOfOne(AfterAll(l, ds[..n], outcomes), ds[n], outcomes(n));
    }
  }

  /** When every socket opens and every send succeeds, nothing served is lost. */
  lemma {:induction false} NothingServedIsLost(l: Ledger, ds: seq<Arrival>, outcomes: nat -> Outcome)
    requires forall i | 0 <= i < |ds| :: outcomes(i).socketOk && outcomes(i).sendOk
    ensures |AfterAll(l, ds, outcomes).out| == |l.out| + Count(ds, Served)
  {
    if ds != [] {
      NothingServedIsLost(l, ds[..|ds| - 1], outcomes);
    }
  }
}
