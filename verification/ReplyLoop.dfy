/**
 * The reply loop of one session (src/udp_session.rs) as it runs when no other task interferes.
 * ReplyPipeline has any number of them beside the sender task.
 */
module ReplyLoop {
  import opened Net
  import opened PortStats
  import opened UdpBatch
  import opened UdpSession
  import opened UdpSend
  import Pipeline = ReplyPipeline

  /** One wake-up: the kernel's replies, and the clock while each slot is handled. */
  datatype Round = Round(script: seq<RecvReply>, clock: nat -> nat)

  /** ICMP errors queued on a connected socket; they do not end the session. */
  predicate Transient(kind: ErrorKind) {
    kind.ConnectionRefused? || kind.HostUnreachable? || kind.NetworkUnreachable?
  }

  /** A packet, and the clock when it is offered to the queue. */
  datatype Timed = Timed(packet: Packet, at: nat)

  function PacketsIn(timed: seq<Timed>): (r: seq<Packet>)
    ensures |r| == |timed| && forall i | 0 <= i < |timed| :: r[i] == timed[i].packet
  {
    seq(|timed|, i requires 0 <= i < |timed| => timed[i].packet)
  }

  /** The packet of one slot, if it is not empty. */
  function OneTimed(source: SocketAddr, payload: Bytes, at: nat): seq<Timed> {
    if payload == [] then [] else [Timed(Packet(source, payload, |payload|), at)]
  }

  /** The non-empty payloads of the first `n` slots, each addressed to the session's client. */
  function TimedOf(source: SocketAddr, payloads: seq<Bytes>, clock: nat -> nat, n: nat): seq<Timed>
    requires n <= |payloads|
    decreases n
  {
    if n == 0 then []
    else TimedOf(source, payloads, clock, n - 1) + OneTimed(source, payloads[n - 1], clock(n - 1))
  }

  /** What one receive puts in a buffer of this shape. */
  function Payloads(script: seq<RecvReply>, batchSize: nat, slotSize: nat): seq<Bytes> {
    match FirstReady(script)
    case Failed(_) => []
    case Arrived(ds) => seq(Min(|ds|, batchSize), i requires 0 <= i < |ds| => Truncated(ds[i].payload, slotSize))
  }

  predicate Fatal(script: seq<RecvReply>) {
    match FirstReady(script)
    case Failed(kind) => !Transient(kind)
    case Arrived(_) => false
  }

  /** Wake-ups before the first fatal receive error. */
  function Alive(rounds: seq<Round>): (n: nat)
    ensures n <= |rounds|
    ensures forall i | 0 <= i < n :: !Fatal(rounds[i].script)
    ensures n < |rounds| ==> Fatal(rounds[n].script)
  {
    if rounds == [] || Fatal(rounds[0].script) then 0 else 1 + Alive(rounds[1..])
  }

  function HeardIn(source: SocketAddr, round: Round, batchSize: nat, slotSize: nat): seq<Timed> {
    var payloads := Payloads(round.script, batchSize, slotSize);
    TimedOf(source, payloads, round.clock, |payloads|)
  }

  function Heard(source: SocketAddr, rounds: seq<Round>, batchSize: nat, slotSize: nat): seq<Timed> {
    if rounds == [] then []
    else HeardIn(source, rounds[0], batchSize, slotSize) + Heard(source, rounds[1..], batchSize, slotSize)
  }

  /** The reply queue, how many packets were dropped because it was full, and the session's clock. */
  datatype Intake = Intake(queue: seq<Packet>, dropped: nat, lastActive: nat)

  predicate Bounded(q: Intake) {
    |q.queue| <= Pipeline.REPLY_QUEUE_CAPACITY
  }

  /** `try_send`: queued and the session touched, or dropped because the queue is full. */
  function OfferOne(q: Intake, t: Timed): Intake {
    if |q.queue| < Pipeline.REPLY_QUEUE_CAPACITY then Intake(q.queue + [t.packet], q.dropped, t.at)
    else q.(dropped := q.dropped + 1)
  }

  function Offered(q: Intake, timed: seq<Timed>): (r: Intake)
    requires Bounded(q)
    ensures Bounded(r)
    decreases timed
  {
    if timed == [] then q else OfferOne(Offered(q, timed[..|timed| - 1]), timed[|timed| - 1])
  }

  lemma OfferedMore(q: Intake, timed: seq<Timed>, t: Timed)
    requires Bounded(q)
    ensures Offered(q, timed + [t]) == OfferOne(Offered(q, timed), t)
  {
    assert (timed + [t])[..|timed|] == timed;
  }

  /** Offering two batches one after the other is offering them at once. */
  lemma {:induction false} OfferedTwice(q: Intake, a: seq<Timed>, b: seq<Timed>)
    requires Bounded(q)
    ensures Offered(Offered(q, a), b) == Offered(q, a + b)
    decreases b
  {
    if b == [] {
      assert a + b == a;
    } else {
      var n := |b| - 1;
      assert a + b == (a + b[..n]) + [b[n]];
      OfferedTwice(q, a, b[..n]);
      OfferedMore(q, a + b[..n], b[n]);
    }
  }

  /**
   * Of what is offered, the queue takes the longest prefix it has room for, up to 512 packets, and
   * the rest is counted as dropped. The session's clock is that of the last packet queued, if any.
   */
  lemma {:induction false} OfferedIs(q: Intake, timed: seq<Timed>)
    requires Bounded(q)
    ensures var n := Min(|timed|, 512 - |q.queue|);
            && Offered(q, timed).queue == q.queue + PacketsIn(timed[..n])
            && Offered(q, timed).dropped == q.dropped + (|timed| - n)
            && Offered(q, timed).lastActive == if n == 0 then q.lastActive else timed[n - 1].at
    decreases timed
  {
    if timed != [] {
      var k := |timed| - 1;
      OfferedIs(q, timed[..k]);
      var n := Min(k, 512 - |q.queue|);
      assert timed[..k][..n] == timed[..n];
      if n == k < 512 - |q.queue| {
        assert PacketsIn(timed[..k + 1]) == PacketsIn(timed[..k]) + [timed[k].packet];
        Associates(q.queue, PacketsIn(timed[..k]), [timed[k].packet]);
      }
    }
  }

  /** The session's clock is that of the last packet queued, or as before if none was. */
  predicate TouchedByLast(q: Intake, r: Intake, timed: seq<Timed>) {
    var queued := |r.queue| - |q.queue|;
    0 <= queued <= |timed| && r.lastActive == if queued == 0 then q.lastActive else timed[queued - 1].at
  }

  lemma LastQueued(q: Intake, timed: seq<Timed>)
    requires Bounded(q)
    ensures TouchedByLast(q, Offered(q, timed), timed)
  {
    OfferedIs(q, timed);
  }

  /** What reaches the queue; a sender that is gone takes nothing. */
  function Taken(closed: bool, timed: seq<Timed>): seq<Timed> {
    if closed then [] else timed
  }

  predicate Blank(payloads: seq<Bytes>) {
    forall i | 0 <= i < |payloads| :: payloads[i] == []
  }

  lemma BlankMore(payloads: seq<Bytes>, i: nat)
    requires i < |payloads|
    ensures Blank(payloads[..i + 1]) <==> Blank(payloads[..i]) && payloads[i] == []
  {
    assert payloads[..i + 1] == payloads[..i] + [payloads[i]];
  }

  lemma SlotTaken(
    q: Intake, closed: bool, source: SocketAddr, payloads: seq<Bytes>, clock: nat -> nat, i: nat)
    requires Bounded(q) && i < |payloads|
    ensures Offered(q, Taken(closed, TimedOf(source, payloads, clock, i + 1)))
            == Offered(Offered(q, Taken(closed, TimedOf(source, payloads, clock, i))),
                       Taken(closed, OneTimed(source, payloads[i], clock(i))))
  {
    OfferedTwice(q, Taken(closed, TimedOf(source, payloads, clock, i)),
                 Taken(closed, OneTimed(source, payloads[i], clock(i))));
  }

  /** The slot loop stops early only for a closed sender that saw a packet. */
  lemma SlotsEnd(closed: bool, source: SocketAddr, payloads: seq<Bytes>, clock: nat -> nat, i: nat)
    requires i <= |payloads| && (i < |payloads| ==> closed && !Blank(payloads[..i]))
    ensures Taken(closed, TimedOf(source, payloads, clock, i))
            == Taken(closed, TimedOf(source, payloads, clock, |payloads|))
    ensures Blank(payloads[..i]) <==> Blank(payloads)
  {
    if i == |payloads| {
      assert payloads[..i] == payloads;
    } else {
      var k :| 0 <= k < i && payloads[..i][k] != [];
      assert payloads[k] != [];
    }
  }

  class ReplyTask {
    const table: SessionTable
    const session: Session
    const batch: BatchBuf
    const sender: ReplySender

    ghost predicate Valid()
      reads table, table.stats`udpActiveFlows, table.sessions.Values`closed, table.sessions.Values`cancelled
      reads batch.lens, sender`queue
    {
      table.Valid() && batch.Valid() && sender.Valid() && sender.stats == table.stats
    }

    constructor (table: SessionTable, session: Session, batch: BatchBuf, sender: ReplySender)
      requires table.Valid() && batch.Valid() && sender.Valid() && sender.stats == table.stats
      ensures Valid() && this.table == table && this.session == session && this.batch == batch && this.sender == sender
    {
      this.table, this.session, this.batch, this.sender := table, session, batch, sender;
    }

    ghost function View(): Intake
      reads sender`queue, table.stats`udpDropped, session`lastActiveEpoch
    {
      Intake(sender.queue, table.stats.udpDropped, session.lastActiveEpoch)
    }

    /** One non-empty datagram: queued and the session touched, or dropped, or the sender is gone. */
    method Offer(payload: Bytes, now: nat) returns (open: bool)
      requires Valid() && payload != []
      modifies session`lastActiveEpoch, sender`queue, table.stats`udpDropped
      ensures Valid() && open == !sender.closed
      ensures View() == Offered(old(View()), Taken(sender.closed, OneTimed(session.source, payload, now)))
    {
      var outcome := sender.TrySend(Packet(session.source, payload, |payload|));
      if outcome.Queued? {
        session.Touch(now);
      }
      open := !outcome.Closed?;
    }

    /** `held` are the payloads in the first slots of the batch. */
    ghost predicate Holds(held: seq<Bytes>)
      reads batch.data, batch.lens
    {
      batch.Valid() && |held| <= batch.batchSize && forall i | 0 <= i < |held| :: batch.Slot(i) == held[i]
    }

    /** Empty datagrams are skipped. */
    method OfferSlot(i: nat, now: nat, ghost held: seq<Bytes>) returns (open: bool)
      requires Valid() && Holds(held) && i < |held|
      modifies session`lastActiveEpoch, sender`queue, table.stats`udpDropped
      ensures Valid() && open == (!sender.closed || held[i] == [])
      ensures View() == Offered(old(View()), Taken(sender.closed, OneTimed(session.source, held[i], now)))
    {
      open := true;
      var payload := batch.Slot(i);
      if payload != [] {
        open := Offer(payload, now);
      }
    }

    /** Where the slot loop stands after `i` slots that started from `q`. */
    ghost predicate Offering(q: Intake, held: seq<Bytes>, clock: nat -> nat, i: nat, open: bool)
      requires Bounded(q) && i <= |held|
      reads sender, table.stats`udpDropped, session`lastActiveEpoch
    {
      && View() == Offered(q, Taken(sender.closed, TimedOf(session.source, held, clock, i)))
      && open == (!sender.closed || Blank(held[..i]))
    }

    /** The filled slots in order; a closed sender ends the loop at the first packet. */
    method OfferSlots(count: nat, clock: nat -> nat, ghost held: seq<Bytes>) returns (open: bool, ghost stop: nat)
      requires Valid() && Holds(held) && count == |held|
      modifies session`lastActiveEpoch, sender`queue, table.stats`udpDropped
      ensures Valid() && stop <= count && (open ==> stop == count)
      ensures Offering(old(View()), held, clock, stop, open)
    {
      ghost var q := View();
      assert Bounded(q);
      open := true;
      var i := 0;
      while i < count && open
        invariant 0 <= i <= count && Valid() && Holds(held) && Offering(q, held, clock, i, open)
      {
        BlankMore(held, i);
        SlotTaken(q, sender.closed, session.source, held, clock, i);
        open := OfferSlot(i, clock(i), held);
        i := i + 1;
      }
      stop := i;
    }

    /** What the slot loop does to a whole batch. */
    method OfferAll(count: nat, clock: nat -> nat, ghost held: seq<Bytes>) returns (open: bool)
      requires Valid() && Holds(held) && count == |held|
      modifies session`lastActiveEpoch, sender`queue, table.stats`udpDropped
      ensures Valid()
      ensures View() == Offered(old(View()), Taken(sender.closed, TimedOf(session.source, held, clock, |held|)))
      ensures open <==> !sender.closed || Blank(held)
    {
      ghost var stop: nat;
      open, stop := OfferSlots(count, clock, held);
      SlotsEnd(sender.closed, session.source, held, clock, stop);
    }

    /** One wake-up: receive a batch and offer it, shrug off an ICMP error, or end. */
    method HandleRound(round: Round) returns (again: bool)
      requires Valid()
      modifies session`lastActiveEpoch, sender`queue, table.stats`udpDropped, batch.data, batch.lens
      ensures Valid()
      ensures View() == Offered(old(View()),
                Taken(sender.closed, HeardIn(session.source, round, batch.batchSize, batch.slotSize)))
      ensures match FirstReady(round.script)
              case Failed(kind) =>
                again <==> kind in {ConnectionRefused, HostUnreachable, NetworkUnreachable}
              case Arrived(_) =>
                var payloads := Payloads(round.script, batch.batchSize, batch.slotSize);
                again <==> !sender.closed || Blank(payloads)
    {
      var r := batch.RecvBatchConnected(round.script);
      match r {
        case Err(kind) =>
          again := Transient(kind);
        case Ok(count) =>
          again := OfferAll(count, round.clock, Payloads(round.script, batch.batchSize, batch.slotSize));
      }
    }

    /** The loop up to its exit. */
    method Listen(rounds: seq<Round>)
      requires Valid()
      modifies session`lastActiveEpoch, sender`queue, table.stats`udpDropped, batch.data, batch.lens
      ensures Valid()
      ensures View() == Total(old(View()), sender.closed, session.source, rounds, batch.batchSize, batch.slotSize)
    {
      ghost var q, closed := View(), sender.closed;
      var again := true;
      var i := 0;
      assert rounds[0..] == rounds;
      while i < |rounds| && again
        invariant 0 <= i <= |rounds| && Valid() && sender.closed == closed
        invariant Total(q, closed, session.source, rounds, batch.batchSize, batch.slotSize)
                  == if again then Total(View(), closed, session.source, rounds[i..], batch.batchSize, batch.slotSize)
                     else View()
      {
        TotalStep(View(), closed, session.source, rounds[i..], batch.batchSize, batch.slotSize);
        assert rounds[i..][1..] == rounds[i + 1..];
        again := HandleRound(rounds[i]);
        i := i + 1;
      }
      assert rounds[i..] == [] || !again;
    }

    /** The loop up to its exit, with all it has heard taken at once. */
    method ListenToEnd(rounds: seq<Round>)
      requires Valid()
      modifies session`lastActiveEpoch, sender`queue, table.stats`udpDropped, batch.data, batch.lens
      ensures Valid()
      ensures var replies := HandedOver(sender.closed, session.source, rounds, batch.batchSize, batch.slotSize);
              View() == Offered(old(View()), replies) && TouchedByLast(old(View()), View(), replies)
    {
      ghost var q := View();
      ghost var replies := HandedOver(sender.closed, session.source, rounds, batch.batchSize, batch.slotSize);
      TotalIsOffered(q, sender.closed, session.source, rounds, batch.batchSize, batch.slotSize);
      LastQueued(q, replies);
      Listen(rounds);
    }

    /**
     * The whole loop. Of the replies received before a fatal error the queue gets the longest prefix
     * it has room for, in order, and the rest is counted as dropped. The session was last active when
     * the last of them was queued. Then it removes itself, and only itself, from the table.
     */
    method Run(rounds: seq<Round>)
      requires Valid()
      modifies session`lastActiveEpoch, sender`queue, table, table.stats`udpDropped, table.stats`udpActiveFlows
      modifies table.sessions.Values, batch.data, batch.lens
      ensures Valid()
      ensures var replies := HandedOver(sender.closed, session.source, rounds, batch.batchSize, batch.slotSize);
              View() == Offered(old(View()), replies) && TouchedByLast(old(View()), View(), replies)
      ensures table.sessions ==
                if session.source in old(table.sessions) && old(table.sessions)[session.source].id == session.id
                then old(table.sessions) - {session.source} else old(table.sessions)
      ensures table.stats.udpActiveFlows == |table.sessions|
    {
      ListenToEnd(rounds);
      RemoveItself();
    }

    method RemoveItself()
      requires Valid()
      modifies table, table.stats`udpActiveFlows, table.sessions.Values
      ensures Valid() && View() == old(View())
      ensures table.sessions ==
                if session.source in old(table.sessions) && old(table.sessions)[session.source].id == session.id
                then old(table.sessions) - {session.source} else old(table.sessions)
      ensures table.stats.udpActiveFlows == |table.sessions|
    {
      ghost var was := session.View();
      table.RemoveSession(session.source, session.id);
      assert session.View().lastActive == was.lastActive;
    }
  }

  /** Everything the loop hands to the queue, up to the first fatal receive error. */
  function HandedOver(closed: bool, source: SocketAddr, rounds: seq<Round>, batchSize: nat, slotSize: nat): seq<Timed> {
    if closed then [] else Heard(source, rounds[..Alive(rounds)], batchSize, slotSize)
  }

  /** The same, batch by batch. */
  function Total(q: Intake, closed: bool, source: SocketAddr, rounds: seq<Round>, batchSize: nat, slotSize: nat): Intake
    requires Bounded(q)
    decreases rounds
  {
    if rounds == [] || Fatal(rounds[0].script) then q
    else
      var now := Offered(q, Taken(closed, HeardIn(source, rounds[0], batchSize, slotSize)));
      Total(now, closed, source, rounds[1..], batchSize, slotSize)
  }

  lemma {:induction false} TotalOfClosed(
    q: Intake, source: SocketAddr, rounds: seq<Round>, batchSize: nat, slotSize: nat)
    requires Bounded(q)
    ensures Total(q, true, source, rounds, batchSize, slotSize) == q
  {
    if rounds != [] && !Fatal(rounds[0].script) {
      TotalOfClosed(q, source, rounds[1..], batchSize, slotSize);
    }
  }

  /** One wake-up of `Total`; a fatal one and, for a closed sender, any one changes nothing. */
  lemma TotalStep(q: Intake, closed: bool, source: SocketAddr, rounds: seq<Round>, batchSize: nat, slotSize: nat)
    requires Bounded(q) && rounds != []
    ensures var now := Offered(q, Taken(closed, HeardIn(source, rounds[0], batchSize, slotSize)));
            && (Fatal(rounds[0].script) || closed ==> now == q)
            && Total(q, closed, source, rounds, batchSize, slotSize)
               == if Fatal(rounds[0].script) || closed then q
                  else Total(now, closed, source, rounds[1..], batchSize, slotSize)
    ensures closed ==> Total(q, closed, source, rounds[1..], batchSize, slotSize) == q
  {
    if closed {
      TotalOfClosed(q, source, rounds, batchSize, slotSize);
      TotalOfClosed(q, source, rounds[1..], batchSize, slotSize);
    }
  }

  lemma HandedOverFromFront(source: SocketAddr, rounds: seq<Round>, batchSize: nat, slotSize: nat)
    requires rounds != [] && !Fatal(rounds[0].script)
    ensures HandedOver(false, source, rounds, batchSize, slotSize)
            == HeardIn(source, rounds[0], batchSize, slotSize)
               + HandedOver(false, source, rounds[1..], batchSize, slotSize)
  {
    var live := rounds[..Alive(rounds)];
    assert live[1..] == rounds[1..][..Alive(rounds[1..])];
  }

  /** Batch by batch or all at once: the queue takes the same prefix. */
  lemma {:induction false} TotalIsOffered(
    q: Intake, closed: bool, source: SocketAddr, rounds: seq<Round>, batchSize: nat, slotSize: nat)
    requires Bounded(q)
    ensures Total(q, closed, source, rounds, batchSize, slotSize)
            == Offered(q, HandedOver(closed, source, rounds, batchSize, slotSize))
    decreases rounds
  {
    if closed {
      TotalOfClosed(q, source, rounds, batchSize, slotSize);
    } else if rounds != [] && !Fatal(rounds[0].script) {
      var first := HeardIn(source, rounds[0], batchSize, slotSize);
      TotalIsOffered(Offered(q, first), closed, source, rounds[1..], batchSize, slotSize);
      HandedOverFromFront(source, rounds, batchSize, slotSize);
      OfferedTwice(q, first, HandedOver(false, source, rounds[1..], batchSize, slotSize));
    }
  }

  /**
   * The packets of a batch are its non-empty payloads, all of them and in order, each addressed to
   * the session's client, with its length and the clock of its slot; `at` says which slots those are.
   */
  lemma {:induction false} PacketsAreReplies(source: SocketAddr, payloads: seq<Bytes>, clock: nat -> nat, n: nat)
    returns (at: seq<nat>)
    requires n <= |payloads|
    ensures |at| == |TimedOf(source, payloads, clock, n)|
    ensures forall j, k | 0 <= j < k < |at| :: at[j] < at[k]
    ensures forall i: nat :: i in at <==> i < n && payloads[i] != []
    ensures forall k | 0 <= k < |at| ::
              && at[k] < n
              && TimedOf(source, payloads, clock, n)[k]
                 == Timed(Packet(source, payloads[at[k]], |payloads[at[k]]|), clock(at[k]))
    decreases n
  {
    at := [];
    if n > 0 {
      at := PacketsAreReplies(source, payloads, clock, n - 1);
      if payloads[n - 1] != [] {
        at := at + [n - 1];
      }
    }
  }

  /** The loop lives through exactly the wake-ups before the first error that is none of the three ICMP kinds. */
  lemma AliveIff(rounds: seq<Round>, n: nat)
    requires n <= |rounds|
    ensures n <= Alive(rounds) <==> forall i | 0 <= i < n ::
              var reply := FirstReady(rounds[i].script);
              reply.Arrived? || reply.kind in {ConnectionRefused, HostUnreachable, NetworkUnreachable}
  {
    var m := Alive(rounds);
    if m < n {
      assert Fatal(rounds[m].script);
    }
    assert forall i | 0 <= i < n && i < m :: !Fatal(rounds[i].script);
  }

  // ----- offering a batch is a run of the pipeline's steps -----

  /** What a reply loop still holds, with the clock at which each datagram will be offered. */
  function Tagged(tags: seq<Pipeline.Tagged>, clock: nat -> nat, first: nat): (r: seq<Timed>)
    ensures |r| == |tags|
  {
    seq(|tags|, i requires 0 <= i < |tags| => Timed(tags[i].packet, clock(first + i)))
  }

  function IntakeOf(st: Pipeline.State, lastActive: nat): Intake {
    Intake(seq(|st.queue|, i requires 0 <= i < |st.queue| => st.queue[i].packet), st.dropped, lastActive)
  }

  function OfferSteps(st: Pipeline.State, s: nat): Pipeline.State
    requires s < |st.producers|
    decreases if st.consumer.Exited? then 0 else |st.producers[s].pending|
  {
    if st.consumer.Exited? || st.producers[s].pending == [] then st
    else OfferSteps(Pipeline.Next(st, Pipeline.Offer(s)), s)
  }

  lemma OneOffer(st: Pipeline.State, s: nat, was: nat, at: nat)
    requires s < |st.producers| && st.producers[s].pending != [] && !st.consumer.Exited? && Bounded(IntakeOf(st, was))
    ensures var st' := Pipeline.Next(st, Pipeline.Offer(s));
            var q := OfferOne(IntakeOf(st, was), Timed(st.producers[s].pending[0].packet, at));
            && IntakeOf(st', q.lastActive) == q
            && st'.producers[s] == st.producers[s].(pending := st.producers[s].pending[1..])
  {
  }

  lemma TaggedSplit(tags: seq<Pipeline.Tagged>, clock: nat -> nat, first: nat)
    requires tags != []
    ensures Tagged(tags, clock, first) == [Timed(tags[0].packet, clock(first))] + Tagged(tags[1..], clock, first + 1)
  {
  }

  /** The `Offer` steps of one batch, uninterrupted, have the effect `OfferAll` states. */
  lemma {:induction false} OfferIsARun(st: Pipeline.State, s: nat, was: nat, clock: nat -> nat, first: nat)
    requires s < |st.producers| && !st.consumer.Exited? && Bounded(IntakeOf(st, was))
    ensures var r := OfferSteps(st, s);
            var q := Offered(IntakeOf(st, was), Tagged(st.producers[s].pending, clock, first));
            && IntakeOf(r, q.lastActive) == q
            && r.producers == st.producers[s := st.producers[s].(pending := [])]
    decreases |st.producers[s].pending|
  {
    var pending := st.producers[s].pending;
    if pending == [] {
      assert st.producers[s := st.producers[s].(pending := [])] == st.producers;
    } else {
      var st' := Pipeline.Next(st, Pipeline.Offer(s));
      var q, t := IntakeOf(st, was), Timed(pending[0].packet, clock(first));
      OneOffer(st, s, was, clock(first));
      OfferIsARun(st', s, OfferOne(q, t).lastActive, clock, first + 1);
      TaggedSplit(pending, clock, first);
      OfferedMore(q, [], t);
      OfferedTwice(q, [t], Tagged(pending[1..], clock, first + 1));
    }
  }
}
