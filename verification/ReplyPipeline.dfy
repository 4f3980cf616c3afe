/**
 * The reply path of one port as a state machine: one reply loop per session (src/udp_session.rs)
 * feeds a bounded queue; one sender task (src/listener/udp_send.rs) takes batches from it and
 * hands them to a kernel that may accept any prefix, interrupt, or fail.
 */
module ReplyPipeline {
  import opened Counting
  import opened Net
  import opened UdpBatch

  const REPLY_QUEUE_CAPACITY := 512
  const SEND_BATCH_SIZE := 32

  /** A packet with its origin: the `seqno`-th non-empty datagram of session `sess`. */
  datatype Tagged = Tagged(sess: nat, seqno: nat, packet: Packet)

  /** A reply loop: what it has received (non-empty datagrams only) and what it still holds in its buffer. */
  datatype Producer = Producer(source: SocketAddr, received: seq<Bytes>, pending: seq<Tagged>, alive: bool)

  datatype Consumer = Idle | Flushing | Exited

  datatype State = State(
    producers: seq<Producer>,
    queue: seq<Tagged>,
    consumer: Consumer,
    batch: seq<Tagged>,
    sent: nat,                // prefix of the batch the kernel has accepted
    counted: nat,             // prefix of the batch whose bytes are recorded
    wire: seq<Tagged>,        // history: accepted by the kernel, in order
    rejected: seq<Tagged>,    // history: refused because the queue was full
    discarded: seq<Tagged>,   // history: lost to a send failure or to shutdown
    history: seq<Tagged>,     // history: every non-empty datagram received
    dropped: nat,             // udp_dropped
    outBytes: nat)            // udp_out_bytes

  datatype Action =
    | NewSession(source: SocketAddr)
    | Receive(s: nat, datagrams: seq<Bytes>)
    | Offer(s: nat)
    | LeaveLoop(s: nat)
    | RecvMany(n: nat)
    | KernelAccepts(n: nat)
    | KernelInterrupts
    | KernelFails
    | CountOne
    | EndFlush
    | SenderExits

  /** The non-empty ones of the first `n` datagrams. */
  function NonEmptyOf(datagrams: seq<Bytes>, n: nat): (r: seq<Bytes>)
    requires n <= |datagrams|
    ensures forall d | d in r :: d != [] && d in datagrams
    decreases n
  {
    if n == 0 then []
    else NonEmptyOf(datagrams, n - 1) + if datagrams[n - 1] == [] then [] else [datagrams[n - 1]]
  }

  function NonEmpty(datagrams: seq<Bytes>): seq<Bytes> {
    NonEmptyOf(datagrams, |datagrams|)
  }

  /** A receive keeps every non-empty datagram, in order, and nothing else; `at` says which those are. */
  lemma {:induction false} NonEmptyIs(datagrams: seq<Bytes>, n: nat) returns (at: seq<nat>)
    requires n <= |datagrams|
    ensures |at| == |NonEmptyOf(datagrams, n)|
    ensures forall j, k | 0 <= j < k < |at| :: at[j] < at[k]
    ensures forall i: nat :: i in at <==> i < n && datagrams[i] != []
    ensures forall k | 0 <= k < |at| :: at[k] < n && NonEmptyOf(datagrams, n)[k] == datagrams[at[k]]
    decreases n
  {
    at := [];
    if n > 0 {
      at := NonEmptyIs(datagrams, n - 1);
      if datagrams[n - 1] != [] {
        at := at + [n - 1];
      }
    }
  }

  function Tag(source: SocketAddr, s: nat, seqno: nat, payload: Bytes): Tagged {
    Tagged(s, seqno, Packet(source, payload, |payload|))
  }

  function TagAll(p: Producer, s: nat, payloads: seq<Bytes>): (r: seq<Tagged>)
    ensures |r| == |payloads|
  {
    seq(|payloads|, k requires 0 <= k < |payloads| => Tag(p.source, s, |p.received| + k, payloads[k]))
  }

  predicate Enabled(st: State, a: Action) {
    match a
    case NewSession(_) => true
    case Receive(s, datagrams) =>
      s < |st.producers| && st.producers[s].alive && st.producers[s].pending == [] && |datagrams| <= SESSION_BATCH_SIZE
    case Offer(s) => s < |st.producers| && st.producers[s].pending != []
    case LeaveLoop(s) => s < |st.producers| && st.producers[s].pending == []
    case RecvMany(n) => st.consumer.Idle? && 1 <= n <= |st.queue| && n <= SEND_BATCH_SIZE
    case KernelAccepts(n) => st.consumer.Flushing? && st.counted == st.sent && 1 <= n && st.sent + n <= |st.batch|
    case KernelInterrupts => st.consumer.Flushing? && st.counted == st.sent && st.sent < |st.batch|
    case KernelFails => st.consumer.Flushing? && st.counted == st.sent && st.sent < |st.batch|
    case CountOne => st.consumer.Flushing? && st.counted < st.sent <= |st.batch|
    case EndFlush => st.consumer.Flushing? && st.counted == st.sent == |st.batch|
    case SenderExits => st.consumer.Idle?
  }

  function ReceiveOp(st: State, s: nat, datagrams: seq<Bytes>): State
    requires s < |st.producers|
  {
    var p := st.producers[s];
    var payloads := NonEmpty(datagrams);
    var tags := TagAll(p, s, payloads);
    st.(producers := st.producers[s := p.(received := p.received + payloads, pending := tags)],
        history := st.history + tags)
  }

  /** `try_send`: queued, dropped because full, or the loop ends because the sender is gone. */
  function OfferOp(st: State, s: nat): State
    requires s < |st.producers| && st.producers[s].pending != []
  {
    var p := st.producers[s];
    var rest := st.(producers := st.producers[s := p.(pending := p.pending[1..])]);
    if st.consumer.Exited? then
      st.(producers := st.producers[s := p.(pending := [], alive := false)], discarded := st.discarded + p.pending)
    else if |st.queue| < REPLY_QUEUE_CAPACITY then
      rest.(queue := st.queue + [p.pending[0]])
    else
      rest.(rejected := st.rejected + [p.pending[0]], dropped := st.dropped + 1)
  }

  function RecvManyOp(st: State, n: nat): State
    requires n <= |st.queue|
  {
    st.(consumer := Flushing, batch := st.queue[..n], sent := 0, counted := 0, queue := st.queue[n..])
  }

  function AcceptOp(st: State, n: nat): State
    requires st.sent + n <= |st.batch|
  {
    st.(wire := st.wire + st.batch[st.sent..st.sent + n], sent := st.sent + n)
  }

  /** A send error other than Interrupted, or a send of 0, abandons the rest of the batch. */
  function FailOp(st: State): State
    requires st.sent <= |st.batch|
  {
    st.(consumer := Idle, discarded := st.discarded + st.batch[st.sent..], batch := [], sent := 0, counted := 0)
  }

  function ExitOp(st: State): State {
    st.(consumer := Exited, discarded := st.discarded + st.queue, queue := [])
  }

  function Next(st: State, a: Action): State
    requires Enabled(st, a)
  {
    match a
    case NewSession(source) => st.(producers := st.producers + [Producer(source, [], [], true)])
    case Receive(s, datagrams) => ReceiveOp(st, s, datagrams)
    case Offer(s) => OfferOp(st, s)
    case LeaveLoop(s) => st.(producers := st.producers[s := st.producers[s].(alive := false)])
    case RecvMany(n) => RecvManyOp(st, n)
    case KernelAccepts(n) => AcceptOp(st, n)
    case KernelInterrupts => st
    case KernelFails => FailOp(st)
    case CountOne => st.(outBytes := st.outBytes + st.batch[st.counted].packet.bytes, counted := st.counted + 1)
    case EndFlush => st.(consumer := Idle, batch := [], sent := 0, counted := 0)
    case SenderExits => ExitOp(st)
  }

  const INIT := State([], [], Idle, [], 0, 0, [], [], [], [], 0, 0)

  predicate Step(st: State, a: Action, st': State) {
    Enabled(st, a) && st' == Next(st, a)
  }

  ghost predicate Run(trace: seq<State>, acts: seq<Action>) {
    && |trace| == |acts| + 1
    && trace[0] == INIT
    && forall i | 0 <= i < |acts| :: Step(trace[i], acts[i], trace[i + 1])
  }

  // ----- the invariant -----

  function Times(ts: seq<Tagged>, t: Tagged): nat {
    multiset(ts)[t]
  }

  lemma TimesConcat(a: seq<Tagged>, b: seq<Tagged>, t: Tagged)
    ensures Times(a + b, t) == Times(a, t) + Times(b, t)
  {
    assert multiset(a + b) == multiset(a) + multiset(b);
  }

  /** How often the reply loops still hold `t`. */
  function Held(producers: seq<Producer>, t: Tagged): nat {
    if producers == [] then 0
    else Held(producers[..|producers| - 1], t) + Times(producers[|producers| - 1].pending, t)
  }

  lemma {:induction false} HeldUpdate(producers: seq<Producer>, s: nat, p: Producer, t: Tagged)
    requires s < |producers|
    ensures Held(producers[s := p], t) + Times(producers[s].pending, t) == Held(producers, t) + Times(p.pending, t)
  {
    var n := |producers| - 1;
    if s == n {
      assert producers[s := p][..n] == producers[..n];
    } else {
      assert producers[s := p][..n] == producers[..n][s := p];
      HeldUpdate(producers[..n], s, p, t);
    }
  }

  /** The unsent part of the batch. */
  function Tail(st: State): seq<Tagged> {
    if st.sent <= |st.batch| then st.batch[st.sent..] else []
  }

  /** Over all the places a received datagram can be in, how often `t` occurs. */
  function Places(st: State, t: Tagged): nat {
    Times(st.wire, t) + Times(Tail(st), t) + Times(st.queue, t)
    + Times(st.rejected, t) + Times(st.discarded, t) + Held(st.producers, t)
  }

  ghost predicate Conserved(st: State) {
    forall t :: Places(st, t) == Times(st.history, t)
  }

  ghost predicate TagOk(st: State, t: Tagged) {
    && t.sess < |st.producers| && t.seqno < |st.producers[t.sess].received|
    && t == Tag(st.producers[t.sess].source, t.sess, t.seqno, st.producers[t.sess].received[t.seqno])
    && t.packet.payload != []
  }

  /** The history is exactly the non-empty datagrams of all sessions, each once. */
  ghost predicate Faithful(st: State) {
    && (forall t | t in st.history :: TagOk(st, t))
    && (forall s, i | 0 <= s < |st.producers| && 0 <= i < |st.producers[s].received| ::
          Tag(st.producers[s].source, s, i, st.producers[s].received[i]) in st.history)
    && (forall i, j | 0 <= i < j < |st.history| ::
          st.history[i].sess != st.history[j].sess || st.history[i].seqno != st.history[j].seqno)
  }

  /** What is past the reply loops and not lost, oldest first. */
  function Pipe(st: State): seq<Tagged> {
    st.wire + Tail(st) + st.queue
  }

  ghost predicate Ordered(ts: seq<Tagged>) {
    forall i, j | 0 <= i < j < |ts| && ts[i].sess == ts[j].sess :: ts[i].seqno < ts[j].seqno
  }

  ghost predicate PendingOk(p: Producer, s: nat) {
    && (forall k | 0 <= k < |p.pending| :: p.pending[k].sess == s && p.pending[k].seqno < |p.received|)
    && Ordered(p.pending)
  }

  /** `t` is a received datagram, older than all its reply loop still holds. */
  ghost predicate Piped(producers: seq<Producer>, t: Tagged) {
    && t.sess < |producers| && t.seqno < |producers[t.sess].received|
    && forall q | q in producers[t.sess].pending :: t.seqno < q.seqno
  }

  ghost predicate InOrder(st: State) {
    && Ordered(Pipe(st))
    && (forall s | 0 <= s < |st.producers| :: PendingOk(st.producers[s], s))
    && (forall t | t in Pipe(st) :: Piped(st.producers, t))
  }

  function TaggedBytes(t: Tagged): nat {
    t.packet.bytes
  }

  function TotalBytes(ts: seq<Tagged>): nat {
    Sum(ts, TaggedBytes)
  }

  ghost predicate Accounted(st: State) {
    && st.dropped == |st.rejected|
    && |st.queue| <= REPLY_QUEUE_CAPACITY && |st.batch| <= SEND_BATCH_SIZE
    && st.counted <= st.sent <= |st.batch|
    && (st.consumer.Flushing? || (st.batch == [] && st.sent == 0))
    && (st.consumer.Exited? ==> st.queue == [])
    && st.outBytes + TotalBytes(st.batch[st.counted..st.sent]) == TotalBytes(st.wire)
  }

  ghost predicate Inv(st: State) {
    Conserved(st) && Faithful(st) && InOrder(st) && Accounted(st)
  }

  lemma TotalBytesConcat(a: seq<Tagged>, b: seq<Tagged>)
    ensures TotalBytes(a + b) == TotalBytes(a) + TotalBytes(b)
  {
    SumConcat(a, b, TaggedBytes);
  }

  lemma TotalBytesFirst(ts: seq<Tagged>)
    requires ts != []
    ensures TotalBytes(ts) == ts[0].packet.bytes + TotalBytes(ts[1..])
  {
    assert ts == [ts[0]] + ts[1..] && [ts[0]][..0] == [];
    TotalBytesConcat([ts[0]], ts[1..]);
    assert Sum([ts[0]], TaggedBytes) == ts[0].packet.bytes;
  }

  // ----- conservation -----

  lemma ReceiveConserves(st: State, s: nat, datagrams: seq<Bytes>)
    requires Conserved(st) && s < |st.producers| && st.producers[s].pending == []
    ensures Conserved(ReceiveOp(st, s, datagrams))
  {
    var st' := ReceiveOp(st, s, datagrams);
    forall t
      ensures Places(st', t) == Times(st'.history, t)
    {
      assert Places(st, t) == Times(st.history, t);
      HeldUpdate(st.producers, s, st'.producers[s], t);
      TimesConcat(st.history, st'.producers[s].pending, t);
    }
  }

  lemma OfferPlaces(st: State, s: nat, t: Tagged)
    requires s < |st.producers| && st.producers[s].pending != []
    ensures Places(OfferOp(st, s), t) == Places(st, t)
  {
    var st' := OfferOp(st, s);
    var pending := st.producers[s].pending;
    assert pending == [pending[0]] + pending[1..];
    HeldUpdate(st.producers, s, st'.producers[s], t);
    TimesConcat([pending[0]], pending[1..], t);
    if st.consumer.Exited? {
      TimesConcat(st.discarded, pending, t);
    } else if |st.queue| < REPLY_QUEUE_CAPACITY {
      TimesConcat(st.queue, [pending[0]], t);
    } else {
      TimesConcat(st.rejected, [pending[0]], t);
    }
  }

  lemma OfferConserves(st: State, s: nat)
    requires Conserved(st) && s < |st.producers| && st.producers[s].pending != []
    ensures Conserved(OfferOp(st, s))
  {
    forall t
      ensures Places(OfferOp(st, s), t) == Times(OfferOp(st, s).history, t)
    {
      assert Places(st, t) == Times(st.history, t);
      OfferPlaces(st, s, t);
    }
  }

  lemma RecvManyConserves(st: State, n: nat)
    requires Conserved(st) && Accounted(st) && st.consumer.Idle? && n <= |st.queue|
    ensures Conserved(RecvManyOp(st, n))
  {
    var st' := RecvManyOp(st, n);
    assert st.queue == st.queue[..n] + st.queue[n..] && Tail(st') == st.queue[..n] && Tail(st) == [];
    forall t
      ensures Places(st', t) == Times(st'.history, t)
    {
      assert Places(st, t) == Times(st.history, t);
      TimesConcat(st.queue[..n], st.queue[n..], t);
    }
  }

  lemma AcceptConserves(st: State, n: nat)
    requires Conserved(st) && st.sent + n <= |st.batch|
    ensures Conserved(AcceptOp(st, n))
  {
    var st' := AcceptOp(st, n);
    var out := st.batch[st.sent..st.sent + n];
    assert Tail(st) == out + Tail(st');
    forall t
      ensures Places(st', t) == Times(st'.history, t)
    {
      assert Places(st, t) == Times(st.history, t);
      TimesConcat(out, Tail(st'), t);
      TimesConcat(st.wire, out, t);
    }
  }

  lemma LossConserves(st: State)
    requires Conserved(st) && Accounted(st)
    ensures Conserved(FailOp(st)) && Conserved(ExitOp(st))
  {
    forall t
      ensures Places(FailOp(st), t) == Times(st.history, t) && Places(ExitOp(st), t) == Times(st.history, t)
    {
      assert Places(st, t) == Times(st.history, t);
      TimesConcat(st.discarded, Tail(st), t);
      TimesConcat(st.discarded, st.queue, t);
    }
  }

  /** Steps that move no packet. */
  lemma SameConserves(st: State, st': State)
    requires Conserved(st) && st'.history == st.history && st'.wire == st.wire && Tail(st') == Tail(st)
    requires st'.queue == st.queue && st'.rejected == st.rejected && st'.discarded == st.discarded
    requires forall t :: Held(st'.producers, t) == Held(st.producers, t)
    ensures Conserved(st')
  {
    assert forall t :: Places(st', t) == Places(st, t);
  }

  // ----- faithfulness -----

  lemma ReceiveFaithful(st: State, s: nat, datagrams: seq<Bytes>)
    requires Faithful(st) && s < |st.producers|
    ensures Faithful(ReceiveOp(st, s, datagrams))
  {
    var st' := ReceiveOp(st, s, datagrams);
    var p := st.producers[s];
    var payloads := NonEmpty(datagrams);
    var tags := TagAll(p, s, payloads);
    forall t | t in st'.history
      ensures TagOk(st', t)
    {
      if t in st.history {
        assert TagOk(st, t);
      } else {
        var k :| 0 <= k < |tags| && tags[k] == t;
        assert payloads[k] in payloads;
      }
    }
    forall u, i | 0 <= u < |st'.producers| && 0 <= i < |st'.producers[u].received|
      ensures Tag(st'.producers[u].source, u, i, st'.producers[u].received[i]) in st'.history
    {
      if u == s && i >= |p.received| {
        assert tags[i - |p.received|] in tags;
      } else {
        assert Tag(st.producers[u].source, u, i, st.producers[u].received[i]) in st.history;
      }
    }
    forall i, j | 0 <= i < j < |st'.history|
      ensures st'.history[i].sess != st'.history[j].sess || st'.history[i].seqno != st'.history[j].seqno
    {
      if i < |st.history| <= j {
        assert TagOk(st, st.history[i]);
      }
    }
  }

  lemma OfferFaithful(st: State, s: nat)
    requires Faithful(st) && s < |st.producers| && st.producers[s].pending != []
    ensures Faithful(OfferOp(st, s))
  {
    assert forall t | t in st.history :: TagOk(st, t);
  }

  // ----- order -----

  lemma OrderedWithout(a: seq<Tagged>, b: seq<Tagged>, c: seq<Tagged>)
    requires Ordered(a + b + c)
    ensures Ordered(a + c)
  {
    var whole := a + b + c;
    forall i, j | 0 <= i < j < |a + c| && (a + c)[i].sess == (a + c)[j].sess
      ensures (a + c)[i].seqno < (a + c)[j].seqno
    {
      var i' := if i < |a| then i else i + |b|;
      var j' := if j < |a| then j else j + |b|;
      assert whole[i'] == (a + c)[i] && whole[j'] == (a + c)[j];
    }
  }

  /** The pipe keeps its content. */
  lemma SamePipeInOrder(st: State, st': State)
    requires InOrder(st) && Pipe(st') == Pipe(st) && st'.producers == st.producers
    ensures InOrder(st')
  {
  }

  /** Losing a stretch of the pipe leaves the rest in order. */
  lemma ShorterPipeInOrder(st: State, st': State, a: seq<Tagged>, b: seq<Tagged>, c: seq<Tagged>)
    requires InOrder(st) && st'.producers == st.producers
    requires Pipe(st) == a + b + c && Pipe(st') == a + c
    ensures InOrder(st')
  {
    OrderedWithout(a, b, c);
    assert forall t | t in Pipe(st') :: t in Pipe(st);
  }

  lemma RecvManyInOrder(st: State, n: nat)
    requires InOrder(st) && Accounted(st) && st.consumer.Idle? && n <= |st.queue|
    ensures InOrder(RecvManyOp(st, n))
  {
    var head, rest := st.queue[..n], st.queue[n..];
    assert head + rest == st.queue;
    assert st.wire + head + rest == st.wire + [] + st.queue;
    assert Tail(st) == [] && Tail(RecvManyOp(st, n)) == head;
    SamePipeInOrder(st, RecvManyOp(st, n));
  }

  lemma AcceptInOrder(st: State, n: nat)
    requires InOrder(st) && st.sent + n <= |st.batch|
    ensures InOrder(AcceptOp(st, n))
  {
    var out, rest := st.batch[st.sent..st.sent + n], st.batch[st.sent + n..];
    assert Tail(st) == out + rest;
    assert st.wire + out + rest + st.queue == st.wire + (out + rest) + st.queue;
    SamePipeInOrder(st, AcceptOp(st, n));
  }

  lemma FailInOrder(st: State)
    requires InOrder(st) && st.sent <= |st.batch|
    ensures InOrder(FailOp(st))
  {
    assert Pipe(FailOp(st)) == st.wire + st.queue;
    ShorterPipeInOrder(st, FailOp(st), st.wire, Tail(st), st.queue);
  }

  lemma ExitInOrder(st: State)
    requires InOrder(st) && Tail(st) == []
    ensures InOrder(ExitOp(st))
  {
    assert Pipe(st) == st.wire + st.queue + [] && Pipe(ExitOp(st)) == st.wire + [];
    ShorterPipeInOrder(st, ExitOp(st), st.wire, st.queue, []);
  }

  lemma TagAllOk(p: Producer, s: nat, payloads: seq<Bytes>)
    ensures PendingOk(p.(received := p.received + payloads, pending := TagAll(p, s, payloads)), s)
    ensures forall q | q in TagAll(p, s, payloads) :: q.seqno >= |p.received|
  {
  }

  /** A reply loop that holds the same, less, or newer datagrams is still in order. */
  lemma ProducerInOrder(st: State, st': State, s: nat, p: Producer)
    requires InOrder(st) && s < |st.producers| && PendingOk(p, s)
    requires |st.producers[s].received| <= |p.received|
    requires forall q | q in p.pending :: q in st.producers[s].pending || q.seqno >= |st.producers[s].received|
    requires Pipe(st') == Pipe(st) && st'.producers == st.producers[s := p]
    ensures InOrder(st')
  {
    forall u | 0 <= u < |st'.producers|
      ensures PendingOk(st'.producers[u], u)
    {
      assert PendingOk(st.producers[u], u);
    }
    forall t | t in Pipe(st')
      ensures Piped(st'.producers, t)
    {
      assert Piped(st.producers, t);
    }
  }

  lemma ReceiveInOrder(st: State, s: nat, datagrams: seq<Bytes>)
    requires InOrder(st) && s < |st.producers| && st.producers[s].pending == []
    ensures InOrder(ReceiveOp(st, s, datagrams))
  {
    var st' := ReceiveOp(st, s, datagrams);
    TagAllOk(st.producers[s], s, NonEmpty(datagrams));
    ProducerInOrder(st, st', s, st'.producers[s]);
  }

  /** A reply loop that holds less is still in order. */
  lemma ShorterPendingInOrder(st: State, s: nat, p: Producer)
    requires InOrder(st) && s < |st.producers|
    requires p.received == st.producers[s].received
    requires p.pending == [] || (st.producers[s].pending != [] && p.pending == st.producers[s].pending[1..])
    ensures InOrder(st.(producers := st.producers[s := p]))
  {
    assert PendingOk(st.producers[s], s);
    assert forall q | q in p.pending :: q in st.producers[s].pending;
    ProducerInOrder(st, st.(producers := st.producers[s := p]), s, p);
  }

  lemma QueueInOrder(st: State, s: nat, t: Tagged)
    requires InOrder(st) && s < |st.producers| && t.sess == s && t.seqno < |st.producers[s].received|
    requires forall q | q in st.producers[s].pending :: t.seqno < q.seqno
    requires forall u | u in Pipe(st) && u.sess == s :: u.seqno < t.seqno
    ensures InOrder(st.(queue := st.queue + [t]))
  {
    assert Pipe(st.(queue := st.queue + [t])) == Pipe(st) + [t];
  }

  lemma OfferInOrder(st: State, s: nat)
    requires InOrder(st) && s < |st.producers| && st.producers[s].pending != []
    ensures InOrder(OfferOp(st, s))
  {
    var st' := OfferOp(st, s);
    var p := st.producers[s].pending;
    var mid := st.(producers := st'.producers);
    ShorterPendingInOrder(st, s, st'.producers[s]);
    if st'.queue == st.queue {
      SamePipeInOrder(mid, st');
    } else {
      assert PendingOk(st.producers[s], s) && p[0] in st.producers[s].pending;
      assert Pipe(mid) == Pipe(st);
      forall q | q in p[1..]
        ensures p[0].seqno < q.seqno
      {
        var k :| 0 <= k < |p[1..]| && p[1..][k] == q;
        assert p[k + 1] == q;
      }
      QueueInOrder(mid, s, p[0]);
    }
  }

  // ----- accounting -----

  lemma AccountedStep(st: State, a: Action)
    requires Accounted(st) && Enabled(st, a)
    ensures Accounted(Next(st, a))
  {
    match a
    case KernelAccepts(n) =>
      TotalBytesConcat(st.wire, st.batch[st.sent..st.sent + n]);
      assert st.batch[st.counted..st.sent] == [];
    case CountOne =>
      var todo := st.batch[st.counted..st.sent];
      assert todo[1..] == st.batch[st.counted + 1..st.sent];
      TotalBytesFirst(todo);
    case _ =>
  }

  lemma InvStep(st: State, a: Action)
    requires Inv(st) && Enabled(st, a)
    ensures Inv(Next(st, a))
  {
    AccountedStep(st, a);
    match a
    case NewSession(source) =>
      NewSessionInv(st, source);
    case Receive(s, datagrams) =>
      ReceiveConserves(st, s, datagrams);
      ReceiveFaithful(st, s, datagrams);
      ReceiveInOrder(st, s, datagrams);
    case Offer(s) =>
      OfferConserves(st, s);
      OfferFaithful(st, s);
      OfferInOrder(st, s);
    case LeaveLoop(s) =>
      LeaveLoopInv(st, s);
    case RecvMany(n) =>
      RecvManyConserves(st, n);
      RecvManyInOrder(st, n);
    case KernelAccepts(n) =>
      AcceptConserves(st, n);
      AcceptInOrder(st, n);
    case KernelFails =>
      LossConserves(st);
      FailInOrder(st);
    case SenderExits =>
      LossConserves(st);
      ExitInOrder(st);
    case KernelInterrupts =>
    case CountOne =>
      SameConserves(st, Next(st, a));
      SamePipeInOrder(st, Next(st, a));
    case EndFlush =>
      SameConserves(st, Next(st, a));
      SamePipeInOrder(st, Next(st, a));
  }

  lemma NewSessionInv(st: State, source: SocketAddr)
    requires Inv(st)
    ensures var st' := Next(st, NewSession(source)); Conserved(st') && Faithful(st') && InOrder(st')
  {
    var st' := Next(st, NewSession(source));
    assert st'.producers[..|st.producers|] == st.producers;
    SameConserves(st, st');
    assert Pipe(st') == Pipe(st);
    assert forall t | t in st.history :: TagOk(st, t);
    forall u | 0 <= u < |st'.producers|
      ensures PendingOk(st'.producers[u], u)
    {
      assert u < |st.producers| ==> PendingOk(st.producers[u], u);
    }
  }

  lemma LeaveLoopInv(st: State, s: nat)
    requires Inv(st) && s < |st.producers|
    ensures var st' := st.(producers := st.producers[s := st.producers[s].(alive := false)]);
            Conserved(st') && Faithful(st') && InOrder(st')
  {
    var st' := st.(producers := st.producers[s := st.producers[s].(alive := false)]);
    forall t
      ensures Held(st'.producers, t) == Held(st.producers, t)
    {
      HeldUpdate(st.producers, s, st'.producers[s], t);
    }
    SameConserves(st, st');
    assert Pipe(st') == Pipe(st);
    assert forall t | t in st.history :: TagOk(st, t);
    forall u | 0 <= u < |st'.producers|
      ensures PendingOk(st'.producers[u], u)
    {
      assert PendingOk(st.producers[u], u);
    }
  }

  lemma InitInv()
    ensures Inv(INIT)
  {
    assert Tail(INIT) == [] && Pipe(INIT) == [] && INIT.batch[INIT.counted..INIT.sent] == [];
    forall t
      ensures Places(INIT, t) == Times(INIT.history, t)
    {
      assert Times([], t) == 0 && Held([], t) == 0;
    }
    assert Conserved(INIT) && Faithful(INIT) && InOrder(INIT) && Accounted(INIT);
  }

  lemma StepKeeps(st: State, a: Action, st': State)
    requires Inv(st) && Step(st, a, st')
    ensures Inv(st')
  {
    InvStep(st, a);
  }

  lemma {:induction false} RunInv(trace: seq<State>, acts: seq<Action>, i: nat)
    requires Run(trace, acts) && i < |trace|
    ensures Inv(trace[i])
    decreases i
  {
    if i == 0 {
      InitInv();
    } else {
      RunInv(trace, acts, i - 1);
      assert Step(trace[i - 1], acts[i - 1], trace[i - 1 + 1]);
      StepKeeps(trace[i - 1], acts[i - 1], trace[i]);
    }
  }

  // ----- what a run guarantees -----

  lemma OccursOnce(ts: seq<Tagged>, i: nat)
    requires i < |ts|
    requires forall j | 0 <= j < |ts| && j != i :: ts[j] != ts[i]
    ensures Times(ts, ts[i]) == 1
  {
    var before, after := ts[..i], ts[i + 1..];
    assert ts == before + [ts[i]] + after;
    TimesConcat(before + [ts[i]], after, ts[i]);
    TimesConcat(before, [ts[i]], ts[i]);
    assert ts[i] !in before && ts[i] !in after;
  }

  /**
   * The `i`-th non-empty datagram of session `s` is, in every state, in exactly one place and
   * there once: sent, in the unsent batch tail, queued, rejected as full, lost, or still with its reply loop.
   */
  lemma ExactlyOnePlace(trace: seq<State>, acts: seq<Action>, k: nat, s: nat, i: nat)
    requires Run(trace, acts) && k < |trace|
    requires s < |trace[k].producers| && i < |trace[k].producers[s].received|
    ensures var p := trace[k].producers[s]; Places(trace[k], Tag(p.source, s, i, p.received[i])) == 1
  {
    RunInv(trace, acts, k);
    var st := trace[k];
    var t := Tag(st.producers[s].source, s, i, st.producers[s].received[i]);
    assert t in st.history;
    var at :| 0 <= at < |st.history| && st.history[at] == t;
    OccursOnce(st.history, at);
    assert Places(st, t) == Times(st.history, t);
  }

  lemma {:induction false} TotalBytesIs(ts: seq<Tagged>)
    requires forall t | t in ts :: t.packet.bytes == |t.packet.payload|
    ensures TotalBytes(ts) == Sum(ts, (t: Tagged) => |t.packet.payload|)
  {
    if ts != [] {
      var n := |ts| - 1;
      assert ts[n] in ts && forall t | t in ts[..n] :: t in ts;
      TotalBytesIs(ts[..n]);
    }
  }

  /** The bounds and counters that go with it. */
  lemma PipelineCounters(trace: seq<State>, acts: seq<Action>, k: nat)
    requires Run(trace, acts) && k < |trace|
    ensures |trace[k].queue| <= 512 && |trace[k].batch| <= 32
    ensures trace[k].dropped == |trace[k].rejected|
    ensures trace[k].counted == trace[k].sent ==>
              trace[k].outBytes == Sum(trace[k].wire, (t: Tagged) => |t.packet.payload|)
  {
    RunInv(trace, acts, k);
    forall t | t in trace[k].wire
      ensures t.packet.bytes == |t.packet.payload|
    {
      PlacedIsReceived(trace[k], t);
    }
    TotalBytesIs(trace[k].wire);
    if trace[k].counted == trace[k].sent {
      assert trace[k].batch[trace[k].counted..trace[k].sent] == [];
    }
  }

  lemma DeafStep(st: State, a: Action, s: nat)
    requires Enabled(st, a) && s < |st.producers| && !st.producers[s].alive
    ensures var st' := Next(st, a);
            s < |st'.producers| && !st'.producers[s].alive && st'.producers[s].received == st.producers[s].received
  {
  }

  /** A reply loop that has ended receives nothing more. */
  lemma {:induction false} EndedLoopsAreDeaf(trace: seq<State>, acts: seq<Action>, s: nat, i: nat, j: nat)
    requires Run(trace, acts) && i < j < |trace| && acts[i] == LeaveLoop(s) && s < |trace[i].producers|
    ensures s < |trace[j].producers| && !trace[j].producers[s].alive
    ensures trace[j].producers[s].received == trace[i].producers[s].received
    decreases j
  {
    assert Step(trace[j - 1], acts[j - 1], trace[j - 1 + 1]);
    if i < j - 1 {
      EndedLoopsAreDeaf(trace, acts, s, i, j - 1);
      DeafStep(trace[j - 1], acts[j - 1], s);
    }
  }

  /** A reply loop ends only with empty hands: what it has received is sent, queued, rejected or lost. */
  ghost predicate EmptyHanded(st: State) {
    forall s | 0 <= s < |st.producers| && !st.producers[s].alive :: st.producers[s].pending == []
  }

  lemma EmptyHandedStep(st: State, a: Action)
    requires EmptyHanded(st) && Enabled(st, a)
    ensures EmptyHanded(Next(st, a))
  {
  }

  lemma {:induction false} EndedLoopsHoldNothing(trace: seq<State>, acts: seq<Action>, i: nat)
    requires Run(trace, acts) && i < |trace|
    ensures EmptyHanded(trace[i])
    decreases i
  {
    if i > 0 {
      EndedLoopsHoldNothing(trace, acts, i - 1);
      assert Step(trace[i - 1], acts[i - 1], trace[i - 1 + 1]);
      EmptyHandedStep(trace[i - 1], acts[i - 1]);
    }
  }

  /** `xs` is `ys` with elements left out; `at` says where each one stood. */
  ghost predicate IsSubsequence<T>(xs: seq<T>, ys: seq<T>, at: seq<nat>) {
    && |at| == |xs|
    && (forall k | 0 <= k < |xs| :: at[k] < |ys| && xs[k] == ys[at[k]])
    && (forall j, k | 0 <= j < k < |xs| :: at[j] < at[k])
  }

  function Project(ts: seq<Tagged>, s: nat): (r: seq<Tagged>)
    ensures forall t | t in r :: t in ts && t.sess == s
  {
    if ts == [] then []
    else Project(ts[..|ts| - 1], s) + (if ts[|ts| - 1].sess == s then [ts[|ts| - 1]] else [])
  }

  function Payloads(ts: seq<Tagged>): (r: seq<Bytes>)
    ensures |r| == |ts|
  {
    seq(|ts|, k requires 0 <= k < |ts| => ts[k].packet.payload)
  }

  function Seqnos(ts: seq<Tagged>): (r: seq<nat>)
    ensures |r| == |ts|
  {
    seq(|ts|, k requires 0 <= k < |ts| => ts[k].seqno)
  }

  lemma {:induction false} ProjectOrdered(ts: seq<Tagged>, s: nat)
    requires Ordered(ts)
    ensures Ordered(Project(ts, s))
  {
    if ts != [] {
      var n := |ts| - 1;
      ProjectOrdered(ts[..n], s);
      forall t | t in Project(ts[..n], s) && ts[n].sess == s
        ensures t.seqno < ts[n].seqno
      {
        var k :| 0 <= k < n && ts[..n][k] == t;
        assert ts[k] == t;
      }
    }
  }

  lemma PlacedIsReceived(st: State, t: Tagged)
    requires Inv(st) && t in st.wire
    ensures TagOk(st, t)
  {
    assert Places(st, t) == Times(st.history, t);
    assert Times(st.wire, t) > 0;
    assert t in st.history;
  }

  lemma WireOrdered(st: State)
    requires InOrder(st)
    ensures Ordered(st.wire)
  {
    assert forall i | 0 <= i < |st.wire| :: Pipe(st)[i] == st.wire[i];
  }

  /**
   * What leaves the socket for session `s` is an in-order, duplicate-free subsequence of the
   * non-empty datagrams the session received, each addressed to the session's client.
   */
  lemma SentIsSubsequence(trace: seq<State>, acts: seq<Action>, k: nat, s: nat)
    requires Run(trace, acts) && k < |trace| && s < |trace[k].producers|
    ensures var out := Project(trace[k].wire, s);
            && IsSubsequence(Payloads(out), trace[k].producers[s].received, Seqnos(out))
            && (forall t | t in out :: t.packet.dst == trace[k].producers[s].source)
  {
    RunInv(trace, acts, k);
    var st := trace[k];
    var out := Project(st.wire, s);
    WireOrdered(st);
    ProjectOrdered(st.wire, s);
    forall t | t in out
      ensures TagOk(st, t)
    {
      PlacedIsReceived(st, t);
    }
    assert forall j | 0 <= j < |out| :: out[j] in out;
  }
}
