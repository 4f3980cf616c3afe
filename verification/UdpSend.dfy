/** The reply queue and its batched sender (src/listener/udp_send.rs). */
module UdpSend {
  import opened Counting
  import opened Net
  import opened UdpBatch
  import opened PortStats
  import Pipeline = ReplyPipeline

  datatype TrySend = Queued | Full | Closed

  function BytesOf(packet: Packet): nat {
    packet.bytes
  }

  function PacketBytes(packets: seq<Packet>): nat {
    Sum(packets, BytesOf)
  }

  lemma {:induction false} PacketBytesIs(packets: seq<Packet>)
    ensures PacketBytes(packets) == Sum(packets, (p: Packet) => p.bytes)
  {
    if packets != [] {
      PacketBytesIs(packets[..|packets| - 1]);
    }
  }

  predicate Retried(kind: ErrorKind) {
    kind.Interrupted? || kind.WouldBlock?
  }

  /** The kernel's answer to one `send_batch` of `n` packets, by platform. */
  function Reply(linux: bool, script: seq<SendReply>, n: nat): (r: Result<nat, ErrorKind>)
    ensures r.Ok? ==> r.value <= n
  {
    if linux then Answer(script, Min(n, MAX_BATCH_SIZE)) else FallbackAnswer(script, n)
  }

  function Left(linux: bool, script: seq<SendReply>, n: nat): (r: seq<SendReply>)
    ensures n > 0 && script != [] ==> |r| < |script|
  {
    if linux then Rest(script) else FallbackRest(script, n)
  }

  /** How many of `n` packets a flush gets out, and what it leaves of the kernel's replies. */
  datatype Flushed = Flushed(sent: nat, script: seq<SendReply>)

  function FlushOf(linux: bool, n: nat, script: seq<SendReply>): (r: Flushed)
    ensures r.sent <= n
    decreases |script|
  {
    if n == 0 || script == [] then Flushed(0, script)
    else
      var left := Left(linux, script, n);
      match Reply(linux, script, n)
      case Ok(k) =>
        if k == 0 then Flushed(0, left)
        else var rest := FlushOf(linux, n - k, left); Flushed(k + rest.sent, rest.script)
      case Err(kind) => if Retried(kind) then FlushOf(linux, n, left) else Flushed(0, left)
  }

  /** What the sender task puts out in at most `wakeups` rounds. */
  function Output(linux: bool, wakeups: nat, queue: seq<Packet>, script: seq<SendReply>): seq<Packet> {
    if wakeups == 0 || queue == [] then []
    else
      var n := Min(Pipeline.SEND_BATCH_SIZE, |queue|);
      var f := FlushOf(linux, n, script);
      queue[..f.sent] + Output(linux, wakeups - 1, queue[n..], f.script)
  }

  /** What has left the socket and the bytes counted for it. */
  datatype Emitted = Emitted(wire: seq<Datagram>, bytes: nat)

  function Emit(v: Emitted, packets: seq<Packet>): Emitted {
    Emitted(v.wire + OnTheWire(packets), v.bytes + PacketBytes(packets))
  }

  lemma EmitTwice(v: Emitted, a: seq<Packet>, b: seq<Packet>)
    ensures Emit(Emit(v, a), b) == Emit(v, a + b)
  {
    OnTheWireConcat(a, b);
    PacketBytesConcat(a, b);
    Associates(v.wire, OnTheWire(a), OnTheWire(b));
  }

  lemma EmitNothing(v: Emitted)
    ensures Emit(v, []) == v
  {
    assert OnTheWire([]) == [];
  }

  lemma EmitPrefix(v: Emitted, batch: seq<Packet>, start: nat, n: nat)
    requires start + n <= |batch|
    ensures Emit(Emit(v, batch[..start]), batch[start..start + n]) == Emit(v, batch[..start + n])
  {
    EmitTwice(v, batch[..start], batch[start..start + n]);
    assert batch[..start] + batch[start..start + n] == batch[..start + n];
  }

  lemma FlushStep(linux: bool, n: nat, script: seq<SendReply>)
    requires n > 0
    ensures var left := Left(linux, script, n);
            match Reply(linux, script, n)
            case Ok(k) =>
              var rest := FlushOf(linux, n - k, left);
              FlushOf(linux, n, script) == if k == 0 then Flushed(0, left) else Flushed(k + rest.sent, rest.script)
            case Err(kind) =>
              FlushOf(linux, n, script) == if Retried(kind) then FlushOf(linux, n, left) else Flushed(0, left)
    ensures |Left(linux, script, n)| < |script| || Reply(linux, script, n) == Err(Other)
  {
  }

  /** A flush with result `goal` has sent `start` packets and has `n` to go, if it goes on at all. */
  ghost predicate IsRest(goal: Flushed, linux: bool, start: nat, n: nat, script: seq<SendReply>, again: bool) {
    var rest := if again then FlushOf(linux, n, script) else Flushed(0, script);
    goal == Flushed(start + rest.sent, rest.script)
  }

  lemma RestStep(goal: Flushed, linux: bool, start: nat, n: nat, script: seq<SendReply>)
    requires n > 0 && IsRest(goal, linux, start, n, script, true)
    ensures var left := Left(linux, script, n);
            match Reply(linux, script, n)
            case Ok(k) =>
              && IsRest(goal, linux, start + k, n - k, left, k > 0)
              && |left| < |script|
            case Err(kind) =>
              && IsRest(goal, linux, start, n, left, Retried(kind))
              && (Retried(kind) ==> |left| < |script|)
  {
    FlushStep(linux, n, script);
  }

  /** Where the flush loop stands: what it has put out is the first `start` packets of the batch. */
  ghost predicate Going(
    goal: Flushed, v: Emitted, batch: seq<Packet>, linux: bool, start: nat, again: bool,
    out: Emitted, script: seq<SendReply>)
  {
    start <= |batch| && out == Emit(v, batch[..start]) && IsRest(goal, linux, start, |batch| - start, script, again)
  }

  lemma GoingOn(
    goal: Flushed, v: Emitted, batch: seq<Packet>, linux: bool, start: nat, out: Emitted, script: seq<SendReply>)
    requires start < |batch| && Going(goal, v, batch, linux, start, true, out, script)
    ensures var n := |batch| - start;
            var left := Left(linux, script, n);
            match Reply(linux, script, n)
            case Ok(k) =>
              && Going(goal, v, batch, linux, start + k, k > 0, Emit(out, batch[start..start + k]), left)
              && |left| < |script|
            case Err(kind) =>
              && Going(goal, v, batch, linux, start, Retried(kind), out, left)
              && (Retried(kind) ==> |left| < |script|)
  {
    var n := |batch| - start;
    RestStep(goal, linux, start, n, script);
    if Reply(linux, script, n).Ok? {
      EmitPrefix(v, batch, start, Reply(linux, script, n).value);
    }
  }

  class ReplySender {
    const stats: Counters
    const socket: Socket
    var queue: seq<Packet>
    var closed: bool

    ghost predicate Valid()
      reads this`queue
    {
      |queue| <= Pipeline.REPLY_QUEUE_CAPACITY
    }

    function Out(): Emitted
      reads this, socket, stats
    {
      Emitted(socket.wire, stats.udpOutBytes)
    }

    constructor (stats: Counters, socket: Socket)
      ensures Valid() && queue == [] && !closed && this.stats == stats && this.socket == socket
    {
      this.stats, this.socket := stats, socket;
      queue, closed := [], false;
    }

    /** The bounded channel's `try_send`, with the drop counted as the reply loop does. */
    method TrySend(packet: Packet) returns (r: TrySend)
      requires Valid()
      modifies this`queue, stats`udpDropped
      ensures Valid()
      ensures r == if closed then Closed else if |old(queue)| == 512 then Full else Queued
      ensures queue == if r.Queued? then old(queue) + [packet] else old(queue)
      ensures stats.View() == if r.Full? then old(stats.View()).(udpDropped := old(stats.udpDropped) + 1)
                              else old(stats.View())
    {
      if closed {
        return Closed;
      }
      if |queue| == Pipeline.REPLY_QUEUE_CAPACITY {
        stats.RecordUdpDrop();
        return Full;
      }
      queue := queue + [packet];
      return Queued;
    }

    /** `recv_many` on a non-empty queue. */
    method RecvMany(limit: nat) returns (batch: seq<Packet>)
      requires Valid()
      modifies this`queue
      ensures Valid() && |batch| == Min(limit, |old(queue)|)
      ensures batch == old(queue)[..|batch|] && queue == old(queue)[|batch|..]
    {
      var n := Min(limit, |queue|);
      batch := queue[..n];
      queue := queue[n..];
    }

    method CountBytes(packets: seq<Packet>)
      modifies stats`udpOutBytes
      ensures stats.udpOutBytes == old(stats.udpOutBytes) + PacketBytes(packets)
    {
      var i := 0;
      while i < |packets|
        invariant 0 <= i <= |packets|
        invariant stats.udpOutBytes == old(stats.udpOutBytes) + PacketBytes(packets[..i])
      {
        assert packets[..i + 1][..i] == packets[..i];
        stats.AddUdpOut(packets[i].bytes);
        i := i + 1;
      }
      assert packets[..i] == packets;
    }

    /** One `send_batch` on what is left of the batch. */
    method SendSome(batch: seq<Packet>, start: nat, linux: bool) returns (r: Result<nat, ErrorKind>)
      requires start < |batch|
      modifies socket
      ensures r == Reply(linux, old(socket.script), |batch| - start)
      ensures socket.script == Left(linux, old(socket.script), |batch| - start)
      ensures match r
              case Ok(k) => socket.wire == old(socket.wire) + OnTheWire(batch[start..start + k])
              case Err(_) => socket.wire == old(socket.wire)
    {
      if linux {
        r := socket.SendBatchLinux(batch[start..]);
      } else {
        r := socket.SendBatchFallback(batch[start..]);
      }
      if r.Ok? {
        assert batch[start..][..r.value] == batch[start..start + r.value];
      }
    }

    /** One `send_batch`, and the bytes of what it sent. */
    method SendAndCount(batch: seq<Packet>, start: nat, linux: bool) returns (r: Result<nat, ErrorKind>)
      requires start < |batch|
      modifies socket, stats`udpOutBytes
      ensures r == Reply(linux, old(socket.script), |batch| - start)
      ensures socket.script == Left(linux, old(socket.script), |batch| - start)
      ensures Out() == if r.Ok? then Emit(old(Out()), batch[start..start + r.value]) else old(Out())
    {
      r := SendSome(batch, start, linux);
      if r.Ok? {
        CountBytes(batch[start..start + r.value]);
      }
    }

    /** One turn of the flush loop. */
    method Turn(batch: seq<Packet>, start: nat, linux: bool, ghost goal: Flushed, ghost v: Emitted)
      returns (next: nat, again: bool)
      requires start < |batch| && Going(goal, v, batch, linux, start, true, Out(), socket.script)
      modifies socket, stats`udpOutBytes
      ensures Going(goal, v, batch, linux, next, again, Out(), socket.script)
      ensures again ==> |socket.script| < |old(socket.script)|
    {
      GoingOn(goal, v, batch, linux, start, Out(), socket.script);
      var r := SendAndCount(batch, start, linux);
      match r {
        case Ok(k) => next, again := start + k, k > 0;
        case Err(kind) => next, again := start, Retried(kind);
      }
    }

    /**
     * Sends exactly one prefix of the batch, in order, the one the kernel's replies determine, and
     * accounts for exactly that prefix.
     */
    method Flush(batch: seq<Packet>, linux: bool) returns (sent: nat)
      modifies socket, stats`udpOutBytes
      ensures Flushed(sent, socket.script) == FlushOf(linux, |batch|, old(socket.script))
      ensures Out() == Emit(old(Out()), batch[..sent])
    {
      var start: nat := 0;
      var again := true;
      ghost var goal := FlushOf(linux, |batch|, socket.script);
      EmitNothing(Out());
      while start < |batch| && again
        invariant Going(goal, old(Out()), batch, linux, start, again, Out(), socket.script)
        decreases again, |socket.script|
      {
        start, again := Turn(batch, start, linux, goal, old(Out()));
      }
      sent := start;
    }

    /** One wake-up of at most `left`: up to 32 queued packets are taken, a prefix of them leaves the socket. */
    method WakeUp(linux: bool, ghost left: nat) returns (ghost out: seq<Packet>)
      requires Valid() && queue != [] && left > 0
      modifies this`queue, socket, stats`udpOutBytes
      ensures Valid()
      ensures Output(linux, left, old(queue), old(socket.script)) == out + Output(linux, left - 1, queue, socket.script)
      ensures Out() == Emit(old(Out()), out)
    {
      ghost var before := queue;
      var taken := RecvMany(Pipeline.SEND_BATCH_SIZE);
      var sent := Flush(taken, linux);
      out := taken[..sent];
      assert before[..sent] == out;
    }

    /**
     * The sender task: each wake-up takes up to 32 queued packets and flushes them; an empty queue
     * (all producers gone) or the end of `wakeups` (shutdown) ends it and closes the channel.
     */
    method Run(wakeups: nat, linux: bool)
      requires Valid()
      modifies this, socket, stats`udpOutBytes
      ensures Valid() && closed && queue == []
      ensures Out() == Emit(old(Out()), Output(linux, wakeups, old(queue), old(socket.script)))
    {
      ghost var out: seq<Packet> := [];
      ghost var whole := Output(linux, wakeups, queue, socket.script);
      var i := 0;
      EmitNothing(Out());
      while i < wakeups && queue != []
        invariant Valid() && i <= wakeups
        invariant whole == out + Output(linux, wakeups - i, queue, socket.script)
        invariant Out() == Emit(old(Out()), out)
        decreases wakeups - i
      {
        ghost var more := WakeUp(linux, wakeups - i);
        Associates(out, more, Output(linux, wakeups - i - 1, queue, socket.script));
        EmitTwice(old(Out()), out, more);
        out := out + more;
        i := i + 1;
      }
      assert whole == out;
      queue, closed := [], true;
    }
  }

  lemma OnTheWireConcat(a: seq<Packet>, b: seq<Packet>)
    ensures OnTheWire(a + b) == OnTheWire(a) + OnTheWire(b)
  {
  }

  function Positions(first: nat, n: nat): (r: seq<nat>)
    ensures |r| == n && forall k | 0 <= k < n :: r[k] == first + k
  {
    seq(n, k requires 0 <= k < n => first + k)
  }

  lemma SubsequenceJoins(
    first: seq<Packet>, more: seq<Packet>, queue: seq<Packet>, n: nat, later: seq<nat>)
    requires |first| <= n <= |queue| && first == queue[..|first|]
    requires Pipeline.IsSubsequence(more, queue[n..], later)
    ensures Pipeline.IsSubsequence(first + more, queue, Positions(0, |first|) + Shifted(later, n))
  {
  }

  function Shifted(at: seq<nat>, n: nat): (r: seq<nat>)
    ensures |r| == |at| && forall k | 0 <= k < |at| :: r[k] == at[k] + n
  {
    seq(|at|, k requires 0 <= k < |at| => at[k] + n)
  }

  /** Whatever the kernel does, what goes out is an in-order, duplicate-free part of the queue. */
  lemma {:induction false} OutputIsSubsequence(linux: bool, wakeups: nat, queue: seq<Packet>, script: seq<SendReply>)
    returns (at: seq<nat>)
    ensures Pipeline.IsSubsequence(Output(linux, wakeups, queue, script), queue, at)
  {
    if wakeups == 0 || queue == [] {
      at := [];
    } else {
      var n := Min(Pipeline.SEND_BATCH_SIZE, |queue|);
      var f := FlushOf(linux, n, script);
      var later := OutputIsSubsequence(linux, wakeups - 1, queue[n..], f.script);
      SubsequenceJoins(queue[..f.sent], Output(linux, wakeups - 1, queue[n..], f.script), queue, n, later);
      at := Positions(0, f.sent) + Shifted(later, n);
    }
  }

  /** A kernel that takes whatever it is given. */
  predicate Willing(script: seq<SendReply>) {
    forall reply | reply in script :: reply.Accept? && reply.n >= MAX_BATCH_SIZE
  }

  lemma {:induction false} WillingAccepts(script: seq<SendReply>)
    requires Willing(script)
    ensures Accepts(script) == |script|
  {
    if script != [] {
      assert script[0] in script;
      WillingAccepts(script[1..]);
    }
  }

  lemma WillingFlush(linux: bool, n: nat, script: seq<SendReply>)
    requires Willing(script) && 0 < n <= MAX_BATCH_SIZE && n <= |script|
    ensures FlushOf(linux, n, script) == Flushed(n, if linux then script[1..] else script[n..])
  {
    WillingAccepts(script);
    assert script[0] in script;
  }

  lemma WillingLeft(linux: bool, n: nat, script: seq<SendReply>)
    requires Willing(script) && 0 < n <= MAX_BATCH_SIZE && n <= |script|
    ensures var f := FlushOf(linux, n, script); f.sent == n && Willing(f.script) && |f.script| >= |script| - n
  {
    WillingFlush(linux, n, script);
  }

  /** If the kernel takes everything, everything goes out, in order. */
  lemma {:induction false} WillingKernelGetsAll(linux: bool, wakeups: nat, queue: seq<Packet>, script: seq<SendReply>)
    requires Willing(script) && |queue| <= |script| && |queue| <= 32 * wakeups
    ensures Output(linux, wakeups, queue, script) == queue
  {
    if queue != [] {
      var n := Min(Pipeline.SEND_BATCH_SIZE, |queue|);
      WillingLeft(linux, n, script);
      var left := FlushOf(linux, n, script).script;
      WillingKernelGetsAll(linux, wakeups - 1, queue[n..], left);
      assert queue == queue[..n] + queue[n..];
    }
  }

  lemma PacketBytesConcat(a: seq<Packet>, b: seq<Packet>)
    ensures PacketBytes(a + b) == PacketBytes(a) + PacketBytes(b)
  {
    SumConcat(a, b, BytesOf);
  }

  /** Interruptions and a full send buffer change nothing about what a flush gets out. */
  function WithoutRetries(script: seq<SendReply>): (r: seq<SendReply>)
    ensures forall reply | reply in r :: !(reply.Refuse? && Retried(reply.kind))
  {
    if script == [] then []
    else (if script[0].Refuse? && Retried(script[0].kind) then [] else [script[0]]) + WithoutRetries(script[1..])
  }

  /** A leading refusal is waited out if the send was interrupted or the buffer full; any other ends the flush. */
  lemma LeadingRefusal(linux: bool, n: nat, script: seq<SendReply>)
    requires n > 0 && script != [] && script[0].Refuse?
    ensures FlushOf(linux, n, script) ==
            if script[0].kind in {Interrupted, WouldBlock} then FlushOf(linux, n, script[1..])
            else Flushed(0, script[1..])
  {
    assert script[0..] == script;
  }

  /** A `sendmmsg` that takes at most 32 packets is followed by the next one, unless it took none. */
  lemma LeadingAccept(n: nat, script: seq<SendReply>)
    requires n > 0 && script != [] && script[0].Accept?
    ensures var taken := Min(script[0].n, Min(n, 32));
            FlushOf(true, n, script).sent
            == if taken == 0 then 0 else taken + FlushOf(true, n - taken, script[1..]).sent
  {
  }

  lemma RetriesDoNotCount(linux: bool, n: nat, script: seq<SendReply>)
    requires n > 0 && script != [] && script[0].Refuse? && Retried(script[0].kind)
    ensures FlushOf(linux, n, script) == FlushOf(linux, n, script[1..])
  {
    LeadingRefusal(linux, n, script);
  }

  lemma {:induction false} RetriesAreInvisible(n: nat, script: seq<SendReply>)
    ensures FlushOf(true, n, script).sent == FlushOf(true, n, WithoutRetries(script)).sent
    decreases |script|
  {
    if n != 0 && script != [] {
      var clean := WithoutRetries(script);
      match script[0]
      case Refuse(kind) =>
        if Retried(kind) {
          RetriesDoNotCount(true, n, script);
          assert clean == WithoutRetries(script[1..]);
          RetriesAreInvisible(n, script[1..]);
        }
      case Accept(k) =>
        assert clean[0] == script[0] && clean[1..] == WithoutRetries(script[1..]);
        RetriesAreInvisible(n - Min(k, Min(n, MAX_BATCH_SIZE)), script[1..]);
    }
  }

  // ----- the flush loop is a run of the pipeline's steps -----

  ghost function CountAll(st: Pipeline.State): Pipeline.State
    requires st.consumer.Flushing? && st.counted <= st.sent <= |st.batch|
    decreases st.sent - st.counted
  {
    if st.counted == st.sent then st else CountAll(Pipeline.Next(st, Pipeline.CountOne))
  }

  lemma {:induction false} CountAllResult(st: Pipeline.State)
    requires st.consumer.Flushing? && st.counted <= st.sent <= |st.batch|
    ensures CountAll(st) == st.(
              counted := st.sent, outBytes := st.outBytes + Pipeline.TotalBytes(st.batch[st.counted..st.sent]))
    decreases st.sent - st.counted
  {
    if st.counted == st.sent {
      assert st.batch[st.counted..st.sent] == [];
    } else {
      CountAllResult(Pipeline.Next(st, Pipeline.CountOne));
      var todo := st.batch[st.counted..st.sent];
      assert todo[1..] == st.batch[st.counted + 1..st.sent];
      Pipeline.TotalBytesFirst(todo);
    }
  }

  ghost function FlushSteps(st: Pipeline.State, linux: bool, script: seq<SendReply>): Pipeline.State
    requires st.consumer.Flushing? && st.counted == st.sent <= |st.batch|
    decreases |script|
  {
    if st.sent == |st.batch| then Pipeline.Next(st, Pipeline.EndFlush)
    else if script == [] then Pipeline.Next(st, Pipeline.KernelFails)
    else match Reply(linux, script, |st.batch| - st.sent)
      case Ok(k) =>
        if k == 0 then Pipeline.Next(st, Pipeline.KernelFails)
        else
          CountAllResult(Pipeline.Next(st, Pipeline.KernelAccepts(k)));
          FlushSteps(CountAll(Pipeline.Next(st, Pipeline.KernelAccepts(k))),
                     linux, Left(linux, script, |st.batch| - st.sent))
      case Err(kind) =>
        if Retried(kind) then
          FlushSteps(Pipeline.Next(st, Pipeline.KernelInterrupts), linux, Left(linux, script, |st.batch| - st.sent))
        else Pipeline.Next(st, Pipeline.KernelFails)
  }

  /** The batch is done: `d` more packets are sent and counted, the others given up. */
  function After(st: Pipeline.State, d: nat): Pipeline.State
    requires st.sent + d <= |st.batch|
  {
    st.(consumer := Pipeline.Idle, batch := [], sent := 0, counted := 0,
        wire := st.wire + st.batch[st.sent..st.sent + d],
        outBytes := st.outBytes + Pipeline.TotalBytes(st.batch[st.sent..st.sent + d]),
        discarded := st.discarded + st.batch[st.sent + d..])
  }

  lemma SliceSplit<T>(b: seq<T>, i: nat, j: nat, k: nat)
    requires i <= j <= k <= |b|
    ensures b[i..j] + b[j..k] == b[i..k]
  {
  }

  function Accepted(st: Pipeline.State, k: nat): Pipeline.State
    requires st.sent + k <= |st.batch|
  {
    var head := st.batch[st.sent..st.sent + k];
    st.(wire := st.wire + head, sent := st.sent + k, counted := st.sent + k,
        outBytes := st.outBytes + Pipeline.TotalBytes(head))
  }

  lemma AcceptedAndCounted(st: Pipeline.State, k: nat)
    requires st.consumer.Flushing? && st.counted == st.sent && st.sent + k <= |st.batch| && k > 0
    ensures CountAll(Pipeline.Next(st, Pipeline.KernelAccepts(k))) == Accepted(st, k)
  {
    CountAllResult(Pipeline.Next(st, Pipeline.KernelAccepts(k)));
  }

  lemma WireMore<T>(w: seq<T>, b: seq<T>, i: nat, j: nat, k: nat)
    requires i <= j <= k <= |b|
    ensures w + b[i..j] + b[j..k] == w + b[i..k]
  {
    SliceSplit(b, i, j, k);
    Associates(w, b[i..j], b[j..k]);
  }

  lemma BytesMore(b: seq<Pipeline.Tagged>, i: nat, j: nat, k: nat)
    requires i <= j <= k <= |b|
    ensures Pipeline.TotalBytes(b[i..j]) + Pipeline.TotalBytes(b[j..k]) == Pipeline.TotalBytes(b[i..k])
  {
    SliceSplit(b, i, j, k);
    Pipeline.TotalBytesConcat(b[i..j], b[j..k]);
  }

  lemma WireAfterMore(st: Pipeline.State, k: nat, rest: nat)
    requires st.sent + k + rest <= |st.batch|
    ensures After(Accepted(st, k), rest).wire == After(st, k + rest).wire
  {
    WireMore(st.wire, st.batch, st.sent, st.sent + k, st.sent + k + rest);
  }

  lemma BytesAfterMore(st: Pipeline.State, k: nat, rest: nat)
    requires st.sent + k + rest <= |st.batch|
    ensures After(Accepted(st, k), rest).outBytes == After(st, k + rest).outBytes
  {
    BytesMore(st.batch, st.sent, st.sent + k, st.sent + k + rest);
  }

  lemma AfterMore(st: Pipeline.State, k: nat, rest: nat)
    requires st.sent + k + rest <= |st.batch|
    ensures After(Accepted(st, k), rest) == After(st, k + rest)
  {
    WireAfterMore(st, k, rest);
    BytesAfterMore(st, k, rest);
  }

  lemma Associates<T>(a: seq<T>, b: seq<T>, c: seq<T>)
    ensures a + b + c == a + (b + c)
  {
  }

  /** The state machine stands before `n` packets of its batch. */
  predicate Ready(st: Pipeline.State, n: nat) {
    st.consumer.Flushing? && st.counted == st.sent && st.sent + n == |st.batch|
  }

  lemma AcceptedReady(st: Pipeline.State, n: nat, k: nat)
    requires Ready(st, n) && k <= n
    ensures Ready(Accepted(st, k), n - k)
  {
  }

  /** The three ways a flush ends. */
  lemma FlushEnds(st: Pipeline.State, linux: bool, n: nat, script: seq<SendReply>)
    requires Ready(st, n)
    requires var answer := Reply(linux, script, n); n == 0 || answer == Ok(0) || (answer.Err? && !Retried(answer.error))
    ensures FlushSteps(st, linux, script) == After(st, 0)
  {
    assert st.batch[st.sent..st.sent + 0] == [];
  }

  lemma StepsAccept(
    st: Pipeline.State, linux: bool, n: nat, script: seq<SendReply>, k: nat, end: Pipeline.State)
    requires Ready(st, n) && 0 < k <= n && Reply(linux, script, n) == Ok(k)
    requires FlushSteps(Accepted(st, k), linux, Left(linux, script, n)) == end
    ensures FlushSteps(st, linux, script) == end
  {
    assert |st.batch| - st.sent == n;
    AcceptedAndCounted(st, k);
  }

  lemma FlushAccepts(
    st: Pipeline.State, linux: bool, n: nat, script: seq<SendReply>, k: nat, rest: nat, end: Pipeline.State)
    requires Ready(st, n) && 0 < k && k + rest <= n && Reply(linux, script, n) == Ok(k)
    requires Ready(Accepted(st, k), n - k) && end == After(Accepted(st, k), rest)
    requires FlushSteps(Accepted(st, k), linux, Left(linux, script, n)) == end
    ensures FlushSteps(st, linux, script) == After(st, k + rest)
  {
    StepsAccept(st, linux, n, script, k, end);
    AfterMore(st, k, rest);
  }

  lemma FlushRetries(st: Pipeline.State, linux: bool, n: nat, script: seq<SendReply>, d: nat)
    requires Ready(st, n) && 0 < n && d <= n
    requires var answer := Reply(linux, script, n); answer.Err? && Retried(answer.error)
    requires FlushSteps(st, linux, Left(linux, script, n)) == After(st, d)
    ensures FlushSteps(st, linux, script) == After(st, d)
  {
    assert |st.batch| - st.sent == n;
  }

  /** A flush of `n` packets gets `d` of them out. */
  ghost predicate Gets(linux: bool, n: nat, script: seq<SendReply>, d: nat) {
    d == FlushOf(linux, n, script).sent
  }

  /** `k` packets go out in the next call and `d` in the later ones. */
  ghost predicate GetsMore(linux: bool, n: nat, script: seq<SendReply>, k: nat, d: nat) {
    && Reply(linux, script, n) == Ok(k) && 0 < k && k + d <= n
    && |Left(linux, script, n)| < |script| && Gets(linux, n - k, Left(linux, script, n), d)
  }

  /** The next call fails and is retried. */
  ghost predicate GetsLater(linux: bool, n: nat, script: seq<SendReply>, d: nat) {
    && Reply(linux, script, n).Err? && Retried(Reply(linux, script, n).error) && 0 < n && d <= n
    && |Left(linux, script, n)| < |script| && Gets(linux, n, Left(linux, script, n), d)
  }

  /** The next call is the last: nothing left to send, nothing sent, or an error. */
  ghost predicate GetsNothing(linux: bool, n: nat, script: seq<SendReply>) {
    var answer := Reply(linux, script, n); n == 0 || answer == Ok(0) || (answer.Err? && !Retried(answer.error))
  }

  lemma GetsCases(linux: bool, n: nat, script: seq<SendReply>, d: nat) returns (k: nat)
    requires Gets(linux, n, script, d)
    ensures k <= d
    ensures
      || GetsMore(linux, n, script, k, d - k)
      || GetsLater(linux, n, script, d)
      || (GetsNothing(linux, n, script) && d == 0)
  {
    k := 0;
    if n > 0 {
      FlushStep(linux, n, script);
      if Reply(linux, script, n).Ok? {
        k := Reply(linux, script, n).value;
      }
    }
  }

  /** `Flush` reaches the state its contract describes through the pipeline's own steps. */
  lemma {:induction false} FlushIsARun(st: Pipeline.State, linux: bool, n: nat, script: seq<SendReply>, d: nat)
    requires Ready(st, n) && d <= n && Gets(linux, n, script, d)
    ensures FlushSteps(st, linux, script) == After(st, d)
    decreases |script|, 2
  {
    var k := GetsCases(linux, n, script, d);
    if GetsMore(linux, n, script, k, d - k) {
      FlushGoesOn(st, linux, n, script, k, d - k);
    } else if GetsLater(linux, n, script, d) {
      FlushTriesAgain(st, linux, n, script, d);
    } else {
      FlushStops(st, linux, n, script, d);
    }
  }

  lemma FlushStops(st: Pipeline.State, linux: bool, n: nat, script: seq<SendReply>, d: nat)
    requires Ready(st, n) && GetsNothing(linux, n, script) && d == 0
    ensures FlushSteps(st, linux, script) == After(st, d)
  {
    FlushEnds(st, linux, n, script);
  }

  lemma {:induction false} FlushTheRest(
    st: Pipeline.State, linux: bool, n: nat, script: seq<SendReply>, k: nat, rest: nat)
    requires Ready(st, n) && GetsMore(linux, n, script, k, rest)
    ensures Ready(Accepted(st, k), n - k)
    ensures FlushSteps(Accepted(st, k), linux, Left(linux, script, n)) == After(Accepted(st, k), rest)
    decreases |script|, 0
  {
    AcceptedReady(st, n, k);
    FlushIsARun(Accepted(st, k), linux, n - k, Left(linux, script, n), rest);
  }

  lemma {:induction false} FlushGoesOn(
    st: Pipeline.State, linux: bool, n: nat, script: seq<SendReply>, k: nat, rest: nat)
    requires Ready(st, n) && GetsMore(linux, n, script, k, rest)
    ensures FlushSteps(st, linux, script) == After(st, k + rest)
    decreases |script|, 1
  {
    FlushTheRest(st, linux, n, script, k, rest);
    FlushAccepts(st, linux, n, script, k, rest, After(Accepted(st, k), rest));
  }

  lemma {:induction false} FlushTriesAgain(st: Pipeline.State, linux: bool, n: nat, script: seq<SendReply>, d: nat)
    requires Ready(st, n) && GetsLater(linux, n, script, d)
    ensures FlushSteps(st, linux, script) == After(st, d)
    decreases |script|, 0
  {
    FlushIsARun(st, linux, n, Left(linux, script, n), d);
    FlushRetries(st, linux, n, script, d);
  }
}
