/**
 * Batched datagram I/O (src/listener/udp_batch.rs). The kernel is an oracle: a script of replies.
 * An exhausted script refuses everything.
 */
module UdpBatch {
  import opened Net

  const MAX_BATCH_SIZE := 32
  const SESSION_BATCH_SIZE := 8

  newtype byte = b: int | 0 <= b < 256

  type Bytes = seq<byte>

  datatype ErrorKind =
    | Interrupted | WouldBlock | ConnectionRefused | HostUnreachable | NetworkUnreachable | Other

  function Min(a: nat, b: nat): nat {
    if a < b then a else b
  }

  // ----- receiving -----

  datatype Arrival = Arrival(payload: Bytes, from: Option<SocketAddr>)

  datatype RecvReply = Arrived(datagrams: seq<Arrival>) | Failed(kind: ErrorKind)

  /** What the kernel puts in a slot: at most `slotSize` bytes. */
  function Truncated(payload: Bytes, slotSize: nat): (r: Bytes)
    ensures r <= payload && |r| == Min(|payload|, slotSize)
  {
    if |payload| <= slotSize then payload else payload[..slotSize]
  }

  /** The first reply that is not WouldBlock; the receive loops wait for it. */
  function FirstReady(script: seq<RecvReply>): RecvReply {
    if script == [] then Failed(Other)
    else if script[0] == Failed(WouldBlock) then FirstReady(script[1..])
    else script[0]
  }

  /** The receive gets the first reply other than WouldBlock; an exhausted script is an error. */
  lemma {:induction false} FirstReadyIs(script: seq<RecvReply>, k: nat)
    requires k <= |script| && forall i | 0 <= i < k :: script[i] == Failed(WouldBlock)
    requires k < |script| ==> script[k] != Failed(WouldBlock)
    ensures FirstReady(script) == if k < |script| then script[k] else Failed(Other)
  {
    if k > 0 {
      FirstReadyIs(script[1..], k - 1);
    }
  }

  /** The retry loop of both receives. */
  method AwaitReady(script: seq<RecvReply>) returns (r: RecvReply)
    ensures r == FirstReady(script)
  {
    var k := 0;
    while k < |script| && script[k] == Failed(WouldBlock)
      invariant 0 <= k <= |script| && FirstReady(script) == FirstReady(script[k..])
    {
      assert script[k..][1..] == script[k + 1..];
      k := k + 1;
    }
    r := if k == |script| then Failed(Other) else script[k];
  }

  /** Where slot `i` begins. */
  function Start(i: nat, slotSize: nat): nat {
    i * slotSize
  }

  lemma StartsGrow(i: nat, k: nat, slotSize: nat)
    ensures Start(i + k, slotSize) == Start(i, slotSize) + Start(k, slotSize) >= Start(i, slotSize)
  {
  }

  /** Slots do not overlap and lie within the buffer. */
  lemma SlotBounds(i: nat, j: nat, batchSize: nat, slotSize: nat)
    requires i < j <= batchSize
    ensures Start(i, slotSize) + slotSize <= Start(j, slotSize) <= Start(batchSize, slotSize)
  {
    StartsGrow(i, 1, slotSize);
    StartsGrow(i + 1, j - i - 1, slotSize);
    StartsGrow(j, batchSize - j, slotSize);
  }

  lemma SlotsApart(i: nat, j: nat, slotSize: nat)
    requires i != j
    ensures || Start(i, slotSize) + slotSize <= Start(j, slotSize)
            || Start(j, slotSize) + slotSize <= Start(i, slotSize)
  {
    if i < j {
      SlotBounds(i, j, j, slotSize);
    } else {
      SlotBounds(j, i, i, slotSize);
    }
  }

  /** A write of `n` bytes at `offset` leaves a slot apart from it alone. */
  lemma OtherSlot(was: seq<byte>, now: seq<byte>, offset: nat, n: nat, start: nat, len: nat, slotSize: nat)
    requires n <= slotSize && len <= slotSize && start + len <= |was| == |now|
    requires offset + slotSize <= start || start + slotSize <= offset
    requires forall k | 0 <= k < |was| && !(offset <= k < offset + n) :: now[k] == was[k]
    ensures now[start..start + len] == was[start..start + len]
  {
  }

  class BatchBuf {
    const data: array<byte>
    const lens: array<nat>
    const addrs: array<Option<SocketAddr>>
    const batchSize: nat
    const slotSize: nat

    ghost predicate Valid()
      reads lens
    {
      && 1 <= batchSize <= MAX_BATCH_SIZE
      && data.Length == Start(batchSize, slotSize) && lens.Length == batchSize && addrs.Length == batchSize
      && forall i | 0 <= i < batchSize :: lens[i] <= slotSize
    }

    constructor (batchSize: nat, slotSize: nat)
      requires 1 <= batchSize <= MAX_BATCH_SIZE
      ensures Valid() && this.batchSize == batchSize && this.slotSize == slotSize
      ensures fresh(data) && fresh(lens) && fresh(addrs)
      ensures forall i | 0 <= i < batchSize :: lens[i] == 0 && addrs[i] == None
    {
      this.batchSize, this.slotSize := batchSize, slotSize;
      data := new byte[Start(batchSize, slotSize)](_ => 0);
      lens := new nat[batchSize](_ => 0);
      addrs := new Option<SocketAddr>[batchSize](_ => None);
    }

    function Slot(i: nat): Bytes
      requires Valid() && i < batchSize
      reads lens, data
    {
      SlotBounds(i, i + 1, batchSize, slotSize);
      data[Start(i, slotSize)..Start(i, slotSize) + lens[i]]
    }

    function Addr(i: nat): Option<SocketAddr>
      requires Valid() && i < batchSize
      reads lens, addrs
    {
      addrs[i]
    }

    /** The kernel fills slot `i`. Every other slot keeps its content. */
    method Fill(i: nat, payload: Bytes)
      requires Valid() && i < batchSize
      modifies data, lens
      ensures Valid() && Slot(i) == Truncated(payload, slotSize)
      ensures forall j | 0 <= j < batchSize && j != i :: Slot(j) == old(Slot(j))
    {
      var p := Truncated(payload, slotSize);
      var offset := Start(i, slotSize);
      SlotBounds(i, i + 1, batchSize, slotSize);
      Write(offset, p);
      lens[i] := |p|;
      forall j | 0 <= j < batchSize && j != i
        ensures Slot(j) == old(Slot(j))
      {
        SlotBounds(j, j + 1, batchSize, slotSize);
        SlotsApart(i, j, slotSize);
        OtherSlot(old(data[..]), data[..], offset, |p|, Start(j, slotSize), lens[j], slotSize);
      }
    }

    method Write(offset: nat, p: Bytes)
      requires offset + |p| <= data.Length
      modifies data
      ensures data[offset..offset + |p|] == p
      ensures forall k | 0 <= k < data.Length && !(offset <= k < offset + |p|) :: data[k] == old(data[k])
    {
      forall k | offset <= k < offset + |p| {
        data[k] := p[k - offset];
      }
    }

    /** Slots `0..n` receive the datagrams in order; later slots are untouched. */
    method Deliver(ds: seq<Arrival>, n: nat)
      requires Valid() && n <= |ds| && n <= batchSize
      modifies data, lens
      ensures Valid()
      ensures forall i | 0 <= i < n :: Slot(i) == Truncated(ds[i].payload, slotSize)
      ensures forall i | n <= i < batchSize :: Slot(i) == old(Slot(i))
    {
      var i := 0;
      while i < n
        invariant 0 <= i <= n && Valid()
        invariant forall j | 0 <= j < i :: Slot(j) == Truncated(ds[j].payload, slotSize)
        invariant forall j | i <= j < batchSize :: Slot(j) == old(Slot(j))
      {
        Fill(i, ds[i].payload);
        i := i + 1;
      }
    }

    /** The sender column of slots `0..n`. */
    method NoteSenders(ds: seq<Arrival>, n: nat)
      requires Valid() && n <= |ds| && n <= batchSize
      modifies addrs
      ensures forall i | 0 <= i < n :: Addr(i) == ds[i].from
      ensures forall i | n <= i < batchSize :: Addr(i) == old(Addr(i))
    {
      var i := 0;
      while i < n
        invariant 0 <= i <= n
        invariant forall j | 0 <= j < i :: addrs[j] == ds[j].from
        invariant forall j | i <= j < batchSize :: addrs[j] == old(addrs[j])
      {
        addrs[i] := ds[i].from;
        i := i + 1;
      }
    }

    /** `recv_batch`: payload and sender of each datagram, for every receive history. */
    method RecvBatch(script: seq<RecvReply>) returns (r: Result<nat, ErrorKind>)
      requires Valid()
      modifies data, lens, addrs
      ensures Valid()
      ensures match FirstReady(script)
              case Failed(kind) => r == Err(kind) && unchanged(data) && unchanged(lens) && unchanged(addrs)
              case Arrived(ds) =>
                && r == Ok(Min(|ds|, batchSize))
                && (forall i | 0 <= i < r.value ::
                    Slot(i) == Truncated(ds[i].payload, slotSize) && Addr(i) == ds[i].from)
                && (forall i | r.value <= i < batchSize :: Slot(i) == old(Slot(i)) && Addr(i) == old(Addr(i)))
    {
      var reply := AwaitReady(script);
      match reply {
        case Failed(kind) => return Err(kind);
        case Arrived(ds) =>
          var received := Min(|ds|, batchSize);
          Deliver(ds, received);
          NoteSenders(ds, received);
          return Ok(received);
      }
    }

    /** `recv_batch_connected`: payloads only; the sender column is left alone. */
    method RecvBatchConnected(script: seq<RecvReply>) returns (r: Result<nat, ErrorKind>)
      requires Valid()
      modifies data, lens
      ensures Valid()
      ensures match FirstReady(script)
              case Failed(kind) => r == Err(kind) && unchanged(data) && unchanged(lens)
              case Arrived(ds) =>
                && r == Ok(Min(|ds|, batchSize))
                && (forall i | 0 <= i < r.value :: Slot(i) == Truncated(ds[i].payload, slotSize))
                && (forall i | r.value <= i < batchSize :: Slot(i) == old(Slot(i)))
    {
      var reply := AwaitReady(script);
      match reply {
        case Failed(kind) => return Err(kind);
        case Arrived(ds) =>
          var received := Min(|ds|, batchSize);
          Deliver(ds, received);
          return Ok(received);
      }
    }
  }

  // ----- sending -----

  /** A reply queued for a client. */
  datatype Packet = Packet(dst: SocketAddr, payload: Bytes, bytes: nat)

  /** What leaves the socket. */
  datatype Datagram = Datagram(dst: SocketAddr, payload: Bytes)

  function OnTheWire(packets: seq<Packet>): (r: seq<Datagram>)
    ensures |r| == |packets|
  {
    seq(|packets|, i requires 0 <= i < |packets| => Datagram(packets[i].dst, packets[i].payload))
  }

  lemma OneMoreOnTheWire(packets: seq<Packet>, k: nat)
    requires k < |packets|
    ensures OnTheWire(packets[..k + 1])
            == OnTheWire(packets[..k]) + [Datagram(packets[k].dst, packets[k].payload)]
  {
  }

  lemma OnTheWireIs(packets: seq<Packet>, i: nat)
    requires i < |packets|
    ensures OnTheWire(packets)[i].dst == packets[i].dst && OnTheWire(packets)[i].payload == packets[i].payload
  {
  }

  datatype SendReply = Accept(n: nat) | Refuse(kind: ErrorKind)

  function Rest(script: seq<SendReply>): seq<SendReply> {
    if script == [] then [] else script[1..]
  }

  function Refusal(script: seq<SendReply>): ErrorKind {
    if script != [] && script[0].Refuse? then script[0].kind else Other
  }

  /** The kernel's answer to a `sendmmsg` of `count` headers. */
  function Answer(script: seq<SendReply>, count: nat): Result<nat, ErrorKind> {
    if script != [] && script[0].Accept? then Ok(Min(script[0].n, count)) else Err(Refusal(script))
  }

  /** Successes before the first refusal. */
  function Accepts(script: seq<SendReply>): (n: nat)
    ensures n <= |script|
    ensures n == |script| || script[n].Refuse?
  {
    if script == [] || script[0].Refuse? then 0 else 1 + Accepts(script[1..])
  }

  lemma {:induction false} AcceptsFrom(script: seq<SendReply>, k: nat)
    requires k <= Accepts(script)
    ensures Accepts(script[k..]) == Accepts(script) - k
  {
    if k > 0 {
      AcceptsFrom(script[1..], k - 1);
      assert script[k..] == script[1..][k - 1..];
    } else {
      assert script[0..] == script;
    }
  }

  /** The kernel's answer to sending `count` packets one by one. */
  function FallbackAnswer(script: seq<SendReply>, count: nat): Result<nat, ErrorKind> {
    var k := Min(Accepts(script), count);
    if k > 0 || count == 0 then Ok(k) else Err(Refusal(script))
  }

  function FallbackRest(script: seq<SendReply>, count: nat): seq<SendReply> {
    var k := Min(Accepts(script), count);
    if k == count then script[k..] else Rest(script[k..])
  }

  /** The listener socket: the datagrams it has put out and the kernel's future behaviour. */
  class Socket {
    var wire: seq<Datagram>
    var script: seq<SendReply>

    constructor (script: seq<SendReply>)
      ensures wire == [] && this.script == script
    {
      wire, this.script := [], script;
    }

    method NextReply() returns (r: SendReply)
      modifies this`script
      ensures old(script) == [] ==> r == Refuse(Other) && script == []
      ensures old(script) != [] ==> r == old(script)[0] && script == old(script)[1..]
    {
      if script == [] {
        return Refuse(Other);
      }
      r := script[0];
      script := script[1..];
    }

    /** `sendmmsg`: accepts a prefix of the headers or fails as a whole. */
    method SendMmsg(headers: seq<Datagram>) returns (r: Result<nat, ErrorKind>)
      modifies this
      ensures r == Answer(old(script), |headers|)
      ensures wire == if r.Ok? then old(wire) + headers[..r.value] else old(wire)
      ensures script == Rest(old(script))
    {
      var reply := NextReply();
      match reply {
        case Accept(n) =>
          var k := Min(n, |headers|);
          wire := wire + headers[..k];
          return Ok(k);
        case Refuse(kind) =>
          return Err(kind);
      }
    }

    /** `try_send_to`: one datagram. */
    method TrySendTo(d: Datagram) returns (r: Result<(), ErrorKind>)
      modifies this
      ensures match r
              case Ok(_) => wire == old(wire) + [d]
              case Err(kind) => kind == Refusal(old(script)) && wire == old(wire)
      ensures r.Ok? <==> old(script) != [] && old(script)[0].Accept?
      ensures script == Rest(old(script))
    {
      var reply := NextReply();
      match reply {
        case Accept(_) =>
          wire := wire + [d];
          return Ok(());
        case Refuse(kind) =>
          return Err(kind);
      }
    }

    /** Linux `send_batch`: headers are built by index, one system call sends a prefix of them. */
    method SendBatchLinux(packets: seq<Packet>) returns (r: Result<nat, ErrorKind>)
      modifies this
      ensures match r
              case Ok(k) => k <= |packets| && wire == old(wire) + OnTheWire(packets[..k])
              case Err(_) => wire == old(wire)
      ensures packets == [] ==> r == Ok(0) && script == old(script)
      ensures packets != [] ==> r == Answer(old(script), Min(|packets|, MAX_BATCH_SIZE)) && script == Rest(old(script))
    {
      if packets == [] {
        assert OnTheWire(packets[..0]) == [];
        return Ok(0);
      }
      var count := Min(|packets|, MAX_BATCH_SIZE);
      var msgs := new Datagram[MAX_BATCH_SIZE](_ => Datagram(SocketAddr(0, 0), []));
      var i := 0;
      while i < count
        invariant 0 <= i <= count && wire == old(wire) && script == old(script)
        invariant forall j | 0 <= j < i :: msgs[j] == Datagram(packets[j].dst, packets[j].payload)
      {
        msgs[i] := Datagram(packets[i].dst, packets[i].payload);
        i := i + 1;
      }
      r := SendMmsg(msgs[..count]);
      if r.Ok? {
        assert msgs[..count][..r.value] == OnTheWire(packets[..r.value]);
      }
    }

    /** The fallback `send_batch`: one call per packet; an error after the first success only ends the batch. */
    method SendBatchFallback(packets: seq<Packet>) returns (r: Result<nat, ErrorKind>)
      modifies this
      ensures match r
              case Ok(k) => k <= |packets| && wire == old(wire) + OnTheWire(packets[..k])
              case Err(_) => wire == old(wire)
      ensures r == FallbackAnswer(old(script), |packets|) && script == FallbackRest(old(script), |packets|)
    {
      var sent := 0;
      assert OnTheWire(packets[..0]) == [];
      while sent < |packets|
        invariant 0 <= sent <= |packets| && sent <= Accepts(old(script))
        invariant wire == old(wire) + OnTheWire(packets[..sent])
        invariant script == old(script)[sent..]
      {
        AcceptsFrom(old(script), sent);
        var pkt := packets[sent];
        var outcome := TrySendTo(Datagram(pkt.dst, pkt.payload));
        match outcome {
          case Ok(_) =>
            OneMoreOnTheWire(packets, sent);
            sent := sent + 1;
          case Err(kind) =>
            if sent == 0 {
              return Err(kind);
            }
            break;
        }
      }
      return Ok(sent);
    }
  }
}
