# range-porter, verified model

range-porter listens on a set of ports and forwards TCP connections and UDP datagrams to one
target. This project models, in Dafny 4.11, the parts of it where several tasks share state or
where a loop must agree with a simple specification, and proves what they guarantee.

`dafny verify dfyconfig.toml` checks the whole project.

## How it is organised

Code that mutates an object is a `class` with the same fields, and each method is proved against a
function of the old state. Those methods run one at a time. Where tasks interleave there is, in
addition, a state machine whose steps are the atomic operations of the code; its theorems hold for
any number of tasks and every order of steps. Lemmas tie the two together: the steps of one task,
run without interference, have the effect the method states (`StepsOfCreate`, `StepsOfRemove`,
`OfferIsARun`, `FlushIsARun`, `StepsOfStream`, `StepsOfProxy`, `StepsOfCurrent`, `StepsOfRefresh`).

| files | what they model |
|---|---|
| SessionProtocol, SessionTheorems, SessionShutdown, SessionDrain, SessionEnds, IdleBounds, IdleRuns | the UDP session table raced over by the listener, the cleaner, the reply tasks and shutdown |
| UdpSession, UdpListener, ReplyLoop | the session table, the receive loop and a reply loop in source form |
| ReplyPipeline, UdpSend, UdpBatch, SequentialRetries | reply queue, batched sender, batched socket I/O against an arbitrary kernel |
| BucketRing, RingHistory, StatsReads, PortStats, SnapshotLedger | counters, their non-atomic reads, the minute ring |
| TcpAdmission, TcpListener | the permit semaphore shared by all TCP listeners |
| DnsRefresh | the background refresh of the target address |
| Text, PortSet, HostPort | the two parsers of the command line |
| Counting, Net | helpers |

Types whose width matters are explicit: `u16` parsing is a checked 16-bit loop (`Text.ParseU16`), a
datagram slot truncates to its size, saturating subtractions are written out. Wall-clock seconds are
natural numbers, the clock of IdleBounds counts nanoseconds.

## What does not hold

Six natural claims are false of the code. Each has a lemma with a concrete input or run, and beside
it stands exactly when the claim does hold.

- The flow gauge plus pending opens is not always the table size plus pending closes. `entry.insert`
  publishes a session before its open is recorded, so a cleaner whose clock has jumped by the timeout
  can close it first; the saturated decrement is then lost for good (`GaugeCanLeak`,
  `LeakIsPermanent`). The equation holds in a state if and only if no close before it found the gauge
  at 0 (`GaugeIsExactIff`). That never happens if no session is removed before its own open is
  recorded (`GaugeConservation`), and with one listener a condition on the clock is enough for that
  (`CalmIsDisciplined`).
- The ring can report a bucket older than its window when minutes are skipped
  (`SkippedMinutesLeaveAStaleBucket`); exactly when is `RingHistory.StaleIff`.
- A port snapshot need not satisfy accepted = active + closed (`SnapshotCanTear`). It does if and only
  if the accepts recorded between the loads of accepted and active, plus the closes recorded between
  the loads of active and closed, are as many as the accepts and closes that stood between their two
  updates when active was loaded (`SnapshotAddsUpIff`). Every cumulative aggregate is bracketed by
  its true values (`ReadIsBracketed`).
- A slow reader of the target address may start a refresh although a fresh entry is installed
  (`SlowReaderRefreshesAgain`). This happens if and only if an install came between the reader's load
  and its compare-exchange, and what the last of them installed has not expired (`SuperfluousIff`).
  Single flight and the order of installed addresses hold regardless.
- An idle session is not kept for its whole timeout T: it is evicted when found T whole seconds after
  the second of its last touch began (`IdleBounds.StaleIff`, `SampleIsExact`). So it can be evicted
  early if and only if it was not touched on a whole second (`EarlyIff`); `EvictedEarly` is a run that
  evicts after 1 ns. In the other direction `NobodyStaysForLong` bounds its stay from the moment it was
  touched or listed; measured from the moment the stored clock was read, that bound can be broken if
  and only if the store or the listing came T s or more after the reading (`OutstaysIff`;
  `LateListingOutstays` gives the run, `NobodyStaysSinceReading` the bound for all others).
- Under the sequential `send_batch` a retried refusal can cost packets (`RetryExposesAnError`), if and
  only if it exposes an error that the success before it would have hidden (`RetriesMatterIff`).

The repository's own README gives the UDP idle timeout a default of 60 s while src/cli.rs sets 120 s. The
model takes the timeout as a parameter.

## Model

| member | source | states |
|---|---|---|
| SessionProtocol.InvStep | src/udp_session.rs:106-258 | every atomic step of every task keeps the invariant: distinct ids, table entries exactly the listed sessions under their own source, exclusive claims, exact gauge accounting |
| SessionProtocol.RunInv | src/udp_session.rs:106-258 | the invariant holds in every state of every interleaving of any number of creators, cleaners, reply tasks and shutdown |
| SessionProtocol.MarkClosedReturnsTrue | src/udp_session.rs:143-146 | whoever reaches `mark_closed` inside `remove_session` is the first to close that session |
| SessionTheorems.TableIsWellKeyed | src/udp_session.rs:116-131 | each key maps to a session with that source, all created ids differ, no session sits under two keys |
| SessionTheorems.StepAges | src/udp_session.rs:123-142 | no step changes a session's id or source or moves it backwards from unlisted to listed to removed |
| SessionTheorems.NeverReturns | src/udp_session.rs:123-142 | a session that has left the table is never in it again |
| SessionTheorems.StalePairIsHarmless | src/udp_session.rs:138-148 | an old (source, id) pair held by any remover evicts exactly the session it was taken from, or nothing, even if the client has a newer session |
| SessionTheorems.GaugeLaw | src/udp_session.rs:123-148 | in every reachable state gauge + pending opens = table size + pending closes + decrements lost to saturation, and the plain equality holds iff none was lost |
| SessionTheorems.GaugeIsExactIff | src/udp_session.rs:123-148 | that equality holds in a state iff no close recorded before it found the gauge at 0 |
| SessionTheorems.GaugeConservation | src/udp_session.rs:123-148 | if no session is removed before its own open is recorded, the decrement never saturates and the gauge is exact; when nothing is pending it is the table size |
| SessionTheorems.DisciplinedStep | src/stats/port.rs:63-69 | one step of a run with that discipline loses no decrement |
| SessionTheorems.GaugeCoversCloses | src/stats/port.rs:99-103 | a close still to be recorded always finds the gauge above 0 in such a run |
| SessionTheorems.LeakIsPermanent | src/stats/port.rs:99-103 | a lost decrement makes every later quiet state over-count the table by at least as much |
| SessionTheorems.GaugeCanLeak | src/udp_session.rs:129-131 | a concrete run with a clock jump between insert and open that ends quiet, with an empty table and a gauge of 1 |
| SessionShutdown.RolesStep | src/listener/udp.rs:33-72 | only the one listener task ever stands between lookup and insert |
| SessionShutdown.DrainStep | src/udp_session.rs:150-160 | while `shutdown_all` runs, whatever is left in the table is on its list or in a shard still to be read, whatever the others remove meanwhile |
| SessionShutdown.ShutdownEmptiesTable | src/listener/udp.rs:36-72 | once the inserting loop has finished `shutdown_all` the table is empty |
| SessionShutdown.CalmStep | src/udp_session.rs:129-142 | if the clock never runs a timeout ahead of an unrecorded open, no remover can name a session whose open is unrecorded |
| SessionShutdown.CalmIsDisciplined | src/listener/udp.rs:36-72 | with one listener, a clock that never runs a timeout ahead of an unrecorded open implies that no session is removed before its own open is recorded |
| SessionShutdown.ShutdownGaugeExactly | src/listener/udp.rs:36-76 | after shutdown the gauge is the closes still being recorded plus the decrements lost; when they are done it is 0 iff no close found it at 0 |
| SessionShutdown.ShutdownZeroesGauge | src/listener/udp.rs:36-76 | under that discipline, after shutdown the gauge equals the closes still being recorded, and is 0 when they are done |
| SessionDrain.OwnStepProgress | src/udp_session.rs:138-160 | every step a task takes in a removal brings it forward: fewer shards to read, fewer pairs to remove, or less left of one removal |
| SessionDrain.OtherStepsStandBy | src/udp_session.rs:138-160 | no step of another task moves it |
| SessionDrain.PhaseIsBounded | src/udp_session.rs:138-183 | in every run collecting a list and working it off each end within a stated number of own steps, for shutdown, cleaner and reply tasks alike |
| SessionDrain.RemoverNeverStuck | src/udp_session.rs:138-183 | a task that has something left to remove can always take a step |
| SessionDrain.ListenerEndsStopped | src/listener/udp.rs:72 | when the listener has worked off its list it has stopped |
| SessionEnds.EveryTaskPosted | src/listener/udp.rs:36-72 | in every run each task stands in its own loop, and the listener and the cleaner leave theirs only after shutdown was requested |
| SessionEnds.MissedWasAbsent | src/udp_session.rs:107-116 | a listener that goes on to create a session has looked that client up and not found it |
| SessionEnds.ReplierOf | src/udp_session.rs:196-258 | every reply task began with one session and, in every state, serves it, is about to remove it, or it is gone |
| SessionEnds.ReplierLeavesNothing | src/udp_session.rs:257 | in every interleaving a reply task that has ended leaves its session removed and out of the table |
| IdleBounds.StaleIff | src/udp_session.rs:163-177 | the whole-second filter in real time: it fires exactly from T seconds after the beginning of the second of the last touch |
| IdleBounds.EarlyIff | src/udp_session.rs:163-177 | a session can be found stale before it was idle for T s iff it was not touched on a whole second |
| IdleBounds.StaleBoundsAreSharp | src/udp_session.rs:163-177 | idle for T - 1 s and 1 ns can be stale, idle for 1 ns less than T s can be fresh, for every timeout |
| IdleBounds.SampleIsExact | src/udp_session.rs:171-179 | one look at one entry, in any interleaving: it goes on the list iff it is due at the sample |
| IdleBounds.OnlyIdleSessionsAreEvicted | src/udp_session.rs:162-183 | every pair a cleaner removes goes back to an earlier look that found that session due, idle for more than T - 1 s |
| IdleRuns.EvictedEarly | src/udp_session.rs:162-183 | a run with a timeout of 1 s that evicts a session 1 ns after its last touch |
| IdleBounds.SweepStep | src/udp_session.rs:170-183 | every step of every task keeps: entries a sweep has passed are young or on its list |
| IdleBounds.NobodyStaysForLong | src/udp_session.rs:162-183 | in every interleaving a listed session was touched or listed less than T s before the sample of the last finished sweep, hence less than T + I s ago while that sample is at most I s old |
| IdleBounds.NobodyStaysSinceReading | src/udp_session.rs:65-68 | the same bound from the moment the stored clock reading was taken, for a session whose reading was stored and listed within T s |
| IdleRuns.LateListingOutstays | src/udp_session.rs:116-131 | for every timeout, reading and later listing at least T s apart a run in which the bound from the reading fails: a session built before a whole sweep is listed after it |
| IdleRuns.OutstaysIff | src/udp_session.rs:65-68 | a session read at one moment and stored or listed at another can outstay the bound from its reading iff they are T s or more apart |
| UdpSession.Session.MarkClosed | src/udp_session.rs:82-84 | sets the flag; true exactly for the first caller |
| UdpSession.SessionTable.TouchExisting | src/udp_session.rs:107-114 | the listed session's clock moves, every other entry is as before |
| UdpSession.SessionTable.InsertNew | src/udp_session.rs:117-133 | one fresh session under a fresh id, one more flow, every other entry as before |
| UdpSession.SessionTable.GetOrCreate | src/udp_session.rs:106-136 | existing session touched and nothing else; socket failure changes nothing; otherwise a new session with a fresh id, one more flow, one reply task |
| UdpSession.SessionTable.RemoveSession | src/udp_session.rs:138-148 | removes, cancels and closes the entry iff it still has that id; every other session unchanged; gauge equals table size |
| UdpSession.SessionTable.Collect | src/udp_session.rs:150-179 | the list is exactly the entries, or exactly the stale ones |
| UdpSession.SessionTable.RemoveAll | src/udp_session.rs:157-159 | leaves exactly the entries whose (source, id) is not listed |
| UdpSession.SessionTable.ShutdownAll | src/udp_session.rs:150-160 | empties the table and zeroes the gauge when nobody interferes |
| UdpSession.SessionTable.Sweep | src/udp_session.rs:170-183 | one cleanup tick keeps exactly the sessions idle for less than the timeout |
| UdpSession.WithoutSnoc | src/udp_session.rs:157-159 | removing pair after pair leaves exactly the entries whose pair is on no list |
| UdpSession.StepsOfCreate | src/udp_session.rs:116-133 | the atomic steps of a creation, uninterrupted, add exactly one entry, one flow and one reply task |
| UdpSession.StepsOfRemove | src/udp_session.rs:139-147 | the atomic steps of a removal, uninterrupted, drop exactly that entry and one flow |
| UdpListener.Listener.HandleOne | src/listener/udp.rs:43-61 | one datagram has the effect of OneDatagram; a failed send forwards and counts nothing |
| UdpListener.Listener.HandleBatch | src/listener/udp.rs:42-62 | a batch is the fold of its datagrams in slot order; those without sender or payload are skipped |
| UdpListener.Listener.HandleRound | src/listener/udp.rs:39-67 | one wake-up serves exactly what the receive delivered; a receive error changes nothing |
| UdpListener.Listener.Run | src/listener/udp.rs:36-72 | over all batches the forwards and `udp_in_bytes` are those of the fold; at the end table empty and gauge 0 |
| UdpListener.OneSessionPerClient | src/udp_session.rs:106-136 | over any number of batches two datagrams are forwarded over the same session iff they come from the same client, if no other task removes sessions |
| UdpListener.OneDatagram | src/udp_session.rs:260-275 | forwarded iff it has a sender, a payload, a listed session or a socket that opens, and a send that succeeds; then bytes and forward are recorded and the session touched after the send; otherwise neither is recorded and a session that was found or created keeps the touch from before |
| UdpListener.ListedIff | src/udp_session.rs:106-136 | a client is listed iff it was at first or sent a datagram when a socket opened |
| UdpListener.ForwardsInOrder | src/listener/udp.rs:42-62 | what is forwarded is an in-order, duplicate-free selection of the datagrams, each with its own sender and payload: exactly those with sender, payload, session and successful send |
| UdpListener.InBytesAreForwarded | src/udp_session.rs:260-275 | `udp_in_bytes` is exactly the bytes of the forwarded datagrams |
| UdpListener.NothingServedIsLost | src/listener/udp.rs:42-62 | if sockets open and sends succeed every served datagram is forwarded |
| ReplyLoop.ReplyTask.Offer | src/udp_session.rs:219-236 | one packet: queued and the session's clock set to that moment, or counted as dropped, or the sender is gone |
| ReplyLoop.ReplyTask.OfferAll | src/udp_session.rs:206-237 | of one batch the queue takes, in order, the non-empty packets it has room for, the others are counted as dropped, and the session's clock is that of the last one queued; a closed sender takes nothing and ends the loop at the first packet |
| ReplyLoop.ReplyTask.HandleRound | src/udp_session.rs:203-252 | connection refused, host unreachable and network unreachable keep the loop going, any other receive error ends it, as does a closed sender that is offered a packet |
| ReplyLoop.ReplyTask.Run | src/udp_session.rs:196-258 | the whole loop: the longest prefix of the replies before a fatal error that fits is queued, the rest counted as dropped; the session's clock ends as that of the last reply queued, unchanged if none was; then the session removes itself and only itself |
| ReplyLoop.OfferedIs | src/udp_session.rs:219-236 | offering packet after packet queues the longest prefix that 512 leave room for, drops and counts the rest, and leaves the clock of the last one queued |
| ReplyLoop.AliveIff | src/udp_session.rs:239-251 | the loop lives through exactly the wake-ups before the first receive error that is none of the three ICMP kinds |
| ReplyLoop.OfferedTwice | src/udp_session.rs:219-231 | offering two batches one after the other is offering them at once |
| ReplyLoop.TotalIsOffered | src/udp_session.rs:199-255 | the loop batch by batch agrees with offering every reply before the first fatal error at once |
| ReplyLoop.PacketsAreReplies | src/udp_session.rs:206-217 | the packets of a batch are all its non-empty payloads, in order, each with its length, its slot's clock and the session's client as destination |
| ReplyLoop.OfferIsARun | src/udp_session.rs:219-236 | the reply loop's method is an uninterrupted run of the pipeline's offer steps |
| ReplyPipeline.RunInv | src/udp_session.rs:196-258 | conservation, order and accounting hold in every state, for any number of reply loops and every kernel behaviour |
| ReplyPipeline.InvStep | src/listener/udp_send.rs:34-84 | every step of every reply loop, the sender and the kernel keeps the invariant |
| ReplyPipeline.ExactlyOnePlace | src/listener/udp_send.rs:15-84 | each non-empty received reply is, exactly once, in exactly one of: sent, unsent batch tail, queue, rejected as full, discarded, still held by its reply loop |
| ReplyPipeline.PipelineCounters | src/listener/udp_send.rs:59-84 | `udp_dropped` equals the full rejections, `udp_out_bytes` the payload bytes sent whenever no flush is counting, queue at most 512, batch at most 32 |
| ReplyPipeline.NonEmptyIs | src/udp_session.rs:205-210 | a receive keeps every non-empty datagram, in order, and nothing else |
| ReplyPipeline.EndedLoopsAreDeaf | src/udp_session.rs:196-258 | a reply loop that has ended receives nothing more |
| ReplyPipeline.EndedLoopsHoldNothing | src/udp_session.rs:196-258 | in every state a reply loop that has ended holds nothing: all it received is sent, queued, rejected or lost |
| ReplyPipeline.SentIsSubsequence | src/udp_session.rs:206-220 | what is sent for one session is an in-order, duplicate-free subsequence of its non-empty replies, each addressed to its client |
| ReplyPipeline.WireOrdered | src/listener/udp_send.rs:59-84 | no datagram of a session overtakes an older one of the same session |
| UdpSend.ReplySender.TrySend | src/udp_session.rs:219-236 | queued at the end, dropped and counted when 512 are queued, refused when the sender is gone |
| UdpSend.ReplySender.SendSome | src/listener/udp_send.rs:62-67 | either version of `send_batch` on the rest of the batch sends the prefix it reports, or nothing |
| UdpSend.ReplySender.Flush | src/listener/udp_send.rs:59-84 | for both versions: sends and accounts for exactly one prefix of the batch, the one the kernel's replies determine |
| UdpSend.ReplySender.WakeUp | src/listener/udp_send.rs:42-56 | one wake-up puts out the next part of the specified output |
| UdpSend.ReplySender.Run | src/listener/udp_send.rs:34-57 | the sender task puts out, batch by batch of at most 32, those prefixes, and counts exactly their bytes |
| UdpSend.OutputIsSubsequence | src/listener/udp_send.rs:34-57 | whatever the kernel does, what goes out is an in-order, duplicate-free part of the queue |
| UdpSend.WillingKernelGetsAll | src/listener/udp_send.rs:34-84 | if the kernel takes what it is given, the whole queue goes out in order, within one wake-up per 32 packets |
| UdpSend.RetriesAreInvisible | src/listener/udp_send.rs:75-76 | with `sendmmsg`, interruptions and a full send buffer do not change what a flush gets out |
| UdpSend.LeadingRefusal | src/listener/udp_send.rs:62-80 | on both platforms a refusal as interrupted or for a full buffer leaves a flush as if it had not happened; a refusal of any other kind ends it |
| UdpSend.LeadingAccept | src/listener/udp_send.rs:68-74 | a `sendmmsg` that took some packets, at most 32, is followed by the rest of the flush; one that took none ends it |
| SequentialRetries.FlushIsOneByOne | src/listener/udp_batch.rs:250-267 | the calls of a flush over the sequential sender, followed reply by reply |
| SequentialRetries.RetriesMatterIff | src/listener/udp_batch.rs:250-267 | with the sequential sender retries never gain packets, and cost some iff one separates an error from the success that would have hidden it while packets and successes are left |
| SequentialRetries.RetriesAloneAreInvisible | src/listener/udp_batch.rs:250-267 | in particular they cost nothing when every error is retried |
| SequentialRetries.RetryExposesAnError | src/listener/udp_batch.rs:250-267 | success, interruption, error, success: the interruption costs a packet of two |
| UdpSend.FlushIsARun | src/listener/udp_send.rs:59-84 | the flush loop is a run of the pipeline's kernel and counting steps and ends in the state its contract describes |
| UdpBatch.SlotsApart | src/listener/udp_batch.rs:51-63 | two slots never overlap |
| UdpBatch.SlotBounds | src/listener/udp_batch.rs:51-63 | every slot lies within the buffer, before the next one |
| UdpBatch.AwaitReady | src/listener/udp_batch.rs:77-125 | the receive loop retries exactly on WouldBlock |
| UdpBatch.FirstReadyIs | src/listener/udp_batch.rs:77-125 | what it returns is the first reply that is not WouldBlock |
| UdpBatch.BatchBuf.Fill | src/listener/udp_batch.rs:60-63 | writing one slot leaves the content of every other slot |
| UdpBatch.BatchBuf.RecvBatch | src/listener/udp_batch.rs:66-127 | slot(i) and addr(i) for i below the count are the i-th datagram and sender just received; later slots and failed receives change nothing |
| UdpBatch.BatchBuf.RecvBatchConnected | src/listener/udp_batch.rs:129-187 | the same for payloads; sender column untouched |
| UdpBatch.Socket.SendMmsg | src/listener/udp_batch.rs:233-248 | the contract assumed of the system call: a prefix of the headers leaves, or nothing |
| UdpBatch.Socket.TrySendTo | src/listener/udp_batch.rs:256-257 | the contract assumed of the system call: the datagram leaves, or nothing |
| UdpBatch.OnTheWireIs | src/listener/udp_batch.rs:233-257 | each datagram leaves with its packet's destination and payload |
| UdpBatch.Socket.SendBatchLinux | src/listener/udp_batch.rs:197-248 | Ok(k): exactly the first k packets are on the wire; Err: none; at most 32 per call |
| UdpBatch.Socket.SendBatchFallback | src/listener/udp_batch.rs:250-267 | the same contract for the sequential version: k is the number of successes before the first error, which is reported only if it is 0 |
| PortStats.Counters.RecordTcpAccept | src/stats/port.rs:48-51 | accepted and active grow by one, nothing else changes |
| PortStats.Counters.RecordTcpClose | src/stats/port.rs:53-56 | active falls by one, not below 0, closed grows by one |
| PortStats.Counters.AddTcpBytes | src/stats/port.rs:58-61 | both byte counters grow, nothing else changes |
| PortStats.Counters.RecordUdpFlowOpen | src/stats/port.rs:63-65 | the gauge grows by one, nothing else changes |
| PortStats.Counters.RecordUdpFlowClose | src/stats/port.rs:67-69 | the gauge falls by one, not below 0 |
| PortStats.Counters.AddUdpIn | src/stats/port.rs:71-73 | only `udp_in_bytes` grows |
| PortStats.Counters.AddUdpOut | src/stats/port.rs:75-77 | only `udp_out_bytes` grows |
| PortStats.Counters.RecordUdpDrop | src/stats/port.rs:79-81 | only `udp_dropped` grows |
| BucketRing.Sorted | src/stats/bucket.rs:85 | sorted by minute and a permutation |
| BucketRing.Ring.Rollup | src/stats/bucket.rs:40-76 | only the slot of the minute changes, reset first if it holds another minute; totals remembered |
| BucketRing.Ring.Snapshot | src/stats/bucket.rs:78-87 | the used buckets, sorted by minute |
| RingHistory.BlockMembers | src/stats/bucket.rs:46-55 | which rollups a slot still reflects: those of its minute with no later hit by another minute |
| RingHistory.BlockIncreasing | src/stats/bucket.rs:46-55 | and each of them once, in order |
| RingHistory.SlotLaw | src/stats/bucket.rs:40-76 | for an arbitrary clock a slot holds the minute, the sum of deltas and the peaks of the trailing block of same-minute rollups that hit it, and is the default if there is none |
| RingHistory.RetainedIff | src/stats/bucket.rs:46-55 | with a non-decreasing clock a minute's bucket is still in the ring iff no later minute hit its slot, and then equals the unbounded history's |
| RingHistory.RecentMinutesAgree | src/stats/bucket.rs:46-76 | the ring agrees with an unbounded minute-to-bucket history on every observed minute later than latest minus window |
| RingHistory.StaleIff | src/stats/bucket.rs:46-55 | a bucket outlives the window iff no minute of the window has hit its slot |
| RingHistory.SkippedMinutesLeaveAStaleBucket | src/stats/bucket.rs:78-87 | window 2, minutes 1 and 4 observed: minute 1 is still reported |
| RingHistory.SnapshotMembers | src/stats/bucket.rs:78-87 | a snapshot reports exactly the ring's buckets of a minute other than 0 |
| RingHistory.ConsecutiveSnapshot | src/stats/bucket.rs:46-87 | if no minute is skipped the snapshot is exactly the history of the last min(window, seen) minutes, in order, minute 0 excluded |
| RingHistory.RingConservation | src/stats/bucket.rs:50-73 | every delta ever added is in the ring or in a bucket that was overwritten |
| RingHistory.Telescoping | src/stats/bucket.rs:57-75 | the deltas sum to the last totals plus every decrease that was saturated away |
| RingHistory.DeltasAreExactIff | src/stats/bucket.rs:57-75 | retained plus overwritten equals the last totals iff the applied totals never decrease |
| StatsReads.AggregateFromSnapshots | src/stats/mod.rs:114-130 | the loop adds up each field of all ports |
| StatsReads.AggregateSums | src/stats/mod.rs:114-130 | each of the nine totals is the sum of that field over the ports |
| StatsReads.UpdatesAreMethods | src/stats/port.rs:48-81 | the single counter updates, one after the other, are what the counter methods state |
| StatsReads.ViewsAre | src/stats/mod.rs:60 | one snapshot per port, in the ports' order |
| StatsReads.PassAtOneInstant | src/stats/port.rs:83-96 | a pass during which nothing moves reads every port as it is |
| StatsReads.CountersGrow | src/stats/port.rs:48-81 | no counter operation lowers a cumulative field |
| StatsReads.ReadIsBracketed | src/stats/mod.rs:83-90 | a field-by-field read of all ports while they grow gives, per cumulative counter, a value between the true sums at its start and end |
| StatsReads.TotalsNeverDecrease | src/stats/mod.rs:100-111 | the single roller applies non-decreasing totals |
| StatsReads.RollerLosesNothing | src/stats/mod.rs:83-111 | hence nothing is lost or counted twice: retained plus overwritten equals the last totals read |
| StatsReads.SnapshotCanTear | src/stats/port.rs:83-96 | a read during one accept with accepted different from active + closed |
| SnapshotLedger.LoadsAddUpIff | src/stats/port.rs:48-56 | over every run of listeners and connections: accepted, active and closed loaded one after the other add up iff what was recorded between the loads is as much as what stood between its two updates |
| SnapshotLedger.SnapshotAddsUpIff | src/stats/port.rs:83-96 | exactly when a snapshot of a port satisfies accepted = active + closed |
| SnapshotLedger.RunsAreEvolutions | src/stats/port.rs:48-56 | every run of the listeners is a series of single counter updates, so the condition applies to every read during it |
| StatsReads.StatsRegistry.RollupAtEpoch | src/stats/mod.rs:83-98 | the registry's ring is always the ring of its whole rollup history |
| StatsReads.StatsRegistry.PortSnapshots | src/stats/mod.rs:84-90 | while nobody counts, one pass reads every port exactly |
| StatsReads.StatsRegistry.Snapshot | src/stats/mod.rs:59-77 | the totals are the sums of the ports reported with them, the buckets those of the whole history |
| TcpAdmission.InvStep | src/listener/tcp.rs:21-55 | every step of every listener and connection keeps permits and ledgers |
| TcpAdmission.RunInv | src/listener/tcp.rs:12-64 | permits and ledgers hold in every state for any number of listeners and connections |
| TcpAdmission.PermitConservation | src/listener/tcp.rs:21-55 | available permits + listeners holding one + live connections = the cap, in every state |
| TcpAdmission.ActiveNeverExceedsCap | src/forward/tcp.rs:33-47 | active connections over all ports plus listeners waiting in accept never exceed the cap |
| TcpAdmission.TcpLedger | src/stats/port.rs:48-56 | per port accepted = active + closed + accepts and closes between their two updates, and no decrement is lost |
| TcpAdmission.DropNeverSaturates | src/stats/port.rs:99-103 | a connection about to be counted out finds its port's active count above 0 |
| TcpAdmission.LeavesOnlyAtShutdown | src/listener/tcp.rs:25-55 | in every run a listener leaves its accept loop only at shutdown, and the semaphore closes only then |
| TcpAdmission.DrainStep | src/listener/tcp.rs:21-61 | after cancel and semaphore close no step reopens anything and each lowers the number of steps left |
| TcpAdmission.ShutdownTerminates | src/listener/tcp.rs:21-61 | after cancel and semaphore close every step lowers a measure |
| TcpAdmission.ShutdownNeverStuck | src/runtime.rs:126-132 | and some step is possible until every listener is done |
| TcpAdmission.AcceptBudget | src/listener/tcp.rs:33-47 | the accepts of a listener from then on are bounded by whether it was waiting in accept |
| TcpAdmission.DrainedState | src/listener/tcp.rs:57-63 | all listeners done means all permits back, active 0 and accepted = closed on every port |
| TcpAdmission.AtMostOneMoreAccept | src/listener/tcp.rs:25-35 | each listener accepts at most one more connection after that, none if it was not waiting in accept |
| TcpAdmission.ShutdownDrains | src/runtime.rs:126-146 | when nothing can move any more every listener is done, active is 0, accepted = closed, all permits are back |
| TcpListener.Semaphore.TryAcquire | src/listener/tcp.rs:27-30 | a permit is taken iff the semaphore is open and one is free |
| TcpListener.AcceptLoop | src/listener/tcp.rs:21-55 | every branch returns the permit except the one that hands it to a connection; the loop ends, or waits for a permit nobody returns |
| TcpListener.StreamsIs | src/listener/tcp.rs:25-55 | the loop takes as many streams as come before the first cancellation, at most one per permit, whatever accepts fail in between |
| TcpListener.WaitsIff | src/listener/tcp.rs:25-31 | it waits iff it comes back for a permit when every permit has gone to a stream |
| TcpListener.Proxy | src/forward/tcp.rs:33-47 | the close is recorded on every outcome, bytes only for a completed copy, then the permit returns |
| TcpListener.Run | src/listener/tcp.rs:12-64 | accept loop and join loop: all permits back, everything accepted is closed, bytes are those of the completed copies |
| TcpListener.StepsOfStream | src/listener/tcp.rs:25-46 | a listener's atomic steps for one stream, uninterrupted: one permit less, one accept counted, one connection more |
| TcpListener.StepsOfNoStream | src/listener/tcp.rs:33-52 | a failed accept and a shutdown before accept give the permit back and count nothing |
| TcpListener.StepsOfProxy | src/forward/tcp.rs:33-47 | a connection's atomic steps, uninterrupted, have the effect of the method |
| DnsRefresh.RunInv | src/target.rs:84-145 | single flight and cache history hold in every state for any number of readers |
| DnsRefresh.InstallStep | src/target.rs:126-140 | the one writer never overwrites an address newer than the one it read |
| DnsRefresh.AtMostOneRefresh | src/target.rs:98-143 | at most one refresh is between the winning compare-exchange and the reset, and the flag is set iff one is |
| DnsRefresh.InstalledIsReplay | src/target.rs:107-140 | no lost update: the cache has held exactly the initial lookup and then the lookups in order, a failure repeating its predecessor, always with the configured port |
| DnsRefresh.ReadersReturnInstalled | src/target.rs:85-96 | a reader returns only addresses the cache has held |
| DnsRefresh.TtlIsClamped | src/target.rs:208-222 | the lifetime ends at the record's deadline if that is 5 s to 600 s away, after exactly 5 s if it is nearer, after exactly 600 s if it is farther |
| DnsRefresh.SuperfluousIff | src/target.rs:85-106 | a refresh starts over a fresh entry iff an install came between the reader's load and its compare-exchange and the last one has not expired |
| DnsRefresh.NeverSuperfluousAlone | src/target.rs:85-106 | without an install in between, the entry has expired when its refresh starts |
| DnsRefresh.RefreshNeedsExpiry | src/target.rs:85-108 | every refresh goes back to a reader that saw its copy expired, and to its load of an entry that has expired by now |
| DnsRefresh.SlowReaderRefreshesAgain | src/target.rs:85-105 | a run with a refresh in flight although the entry is fresh |
| DnsRefresh.DynamicTarget.Current | src/target.rs:85-106 | answers from the cache; starts a refresh iff the entry is expired and none runs |
| DnsRefresh.DynamicTarget.Refresh | src/target.rs:107-143 | success installs the new address until its deadline, moved to 5 s or 600 s from now if it lies outside; failure keeps the old one for 30 s; the flag is reset |
| DnsRefresh.StepsOfCurrent | src/target.rs:85-105 | a reader's atomic steps, uninterrupted, answer from the cache and start a refresh iff the entry is expired and none runs |
| DnsRefresh.StepsOfRefresh | src/target.rs:107-143 | a refresh task's atomic steps, uninterrupted, have the effect of the method on entry and flag |
| Text.BlankTrimsToNothing | src/portset.rs:27-29 | trimming leaves nothing iff every character is Unicode white space |
| Text.WhitespaceIs | src/portset.rs:34 | the 25 characters that count as white space |
| Text.TrimIff | src/portset.rs:34 | trimming takes off the longest blank start and end and nothing else |
| Text.ParseU16Iff | src/portset.rs:61-65 | a text denotes a 16-bit number iff it is an optional plus and at least one digit, of a value up to 65535 |
| Text.CheckedLoopIsExact | src/portset.rs:61-65 | the checked 16-bit digit loop succeeds iff there is at least one character, all are digits and the value fits, and then yields the value |
| Text.SplitConcat | src/portset.rs:33 | splitting two texts joined by the separator is splitting each |
| Text.SplitOfJoin | src/portset.rs:33 | splitting undoes joining |
| PortSet.ParsePortset | src/portset.rs:26-59 | the loop computes the specified result |
| PortSet.PortIff | src/portset.rs:61-73 | a port is a text that, trimmed, denotes 1 to 65535; zero and everything else fail as such |
| PortSet.SegmentIff | src/portset.rs:34-55 | a segment yields lo..=hi iff, trimmed, it is one port without a dash, or two around its first dash, blanks allowed, with lo <= hi |
| PortSet.SegmentErrors | src/portset.rs:34-52 | a segment fails as empty iff it is blank, as inverted iff it is a range upside down |
| PortSet.SegmentZero | src/portset.rs:41-55 | it fails as zero iff its only or first number is 0, or its second one after a valid first |
| PortSet.FirstErrorIff | src/portset.rs:26-58 | a failed parse reports a blank text, or else the error of its first segment that fails |
| PortSet.ParsedIsUnion | src/portset.rs:31-58 | on success the result is strictly increasing, within 1..65535 and exactly the ports that some segment spells |
| PortSet.ParsedOkIff | src/portset.rs:26-58 | parsing succeeds iff every segment spells a port or a range |
| PortSet.ParseOfConcat | src/portset.rs:33-58 | parsing a "," b succeeds iff both parts do and gives their union |
| PortSet.RunsAreExact | src/portset.rs:41-55 | the runs of a port list cover exactly its ports |
| PortSet.RunsAreMaximal | src/portset.rs:41-55 | between two runs at least one port is missing |
| PortSet.RenderParsesBack | src/portset.rs:26-58 | rendering any non-empty port set as maximal decimal ranges and parsing it gives it back |
| HostPort.SplitIff | src/target.rs:147-169 | the split yields (host, port) iff the text is `[host]:port` or `host:port` split at the last colon and the last part denotes the port |
| HostPort.SplitForms | src/target.rs:147-169 | every text that is accepted, or refused only for its port, has one of the two forms |
| HostPort.SplitRoundTrip | src/target.rs:147-169 | writing host and port in either form and splitting gives them back |
| HostPort.PortIff | src/target.rs:171-179 | a port part denotes p iff it is an optional plus and decimal digits of value p, from 1 to 65535; zero and everything else fail as such |
| HostPort.MissingBracketIff | src/target.rs:147-151 | the first error: an opening bracket and no closing one |
| HostPort.MissingPortIff | src/target.rs:152-157 | the second: `[host]` followed by something else than a colon |
| HostPort.MissingColonIff | src/target.rs:162-164 | the third: neither a bracket at the start nor a colon |
| HostPort.EmptyHostIff | src/target.rs:165-167 | the fourth: the last colon is the first character |
| HostPort.PortErrorIff | src/target.rs:147-169 | a port error is that of the last part of one of the two forms |

## Left out

- Sockets, tokio, `recvmmsg`/`sendmmsg` and the sockaddr conversions: the kernel is a script of replies; an exhausted script refuses everything. `sendmmsg` accepts a prefix or fails as a whole.
- hickory: a lookup is an oracle that fails or yields an address and a deadline. `TargetAddr::bind` and `SocketAddr` parsing are library calls around it.
- The bytes of a TCP stream: only the outcome of a copy and its two counts are modelled.
- Task panics, lock poisoning, dropping the application without shutdown, 64-bit counter overflow and id wrap-around are assumed not to happen.
- Relaxed memory ordering: every atomic operation is one sequentially consistent step. `touch` is one step that stores any earlier or later reading of the clock.
- The concurrent map: an operation on one key is atomic and an iteration reads shard after shard, each atomically; finer interleavings within a shard are not modelled.
- The classes do not interleave; interleavings are in the four state machines and in IdleBounds.
- `select!` fairness: any ready branch may fire; nothing is said about how soon.
- `minute_epoch as usize`: a 64-bit platform, where the cast is exact.
- IdleBounds.NobodyStaysSinceReading: only for a session whose reading was stored and listed within T s; OutstaysIff shows that it can fail exactly otherwise, and NobodyStaysForLong says what holds for all.
- UdpListener.Listener.Run: the loop alone; a cleaner or a reply task may remove sessions between two datagrams.
- ReplyLoop.ReplyTask.Run: the loop alone; nobody drains the queue meanwhile. ReplyPipeline has both sides.
- UdpSend.ReplySender.Run: the task alone; nobody fills the queue meanwhile. ReplyPipeline has both sides.
- TcpListener.AcceptLoop: the loop alone; where the code would wait for another task to return a permit, the method ends and reports it. TcpAdmission has the waiting.
- TcpListener.Semaphore.TryAcquire: an acquire that does not wait.
- TcpListener.Run: connections finish one after another once the loop has ended.
- UdpListener.OneSessionPerClient: without other tasks; with them a client's session may be replaced between two datagrams, or the listener may hold one that was just removed.
- SessionShutdown.ShutdownZeroesGauge: assumes that no session is removed before its own open is recorded; ShutdownGaugeExactly says what holds without that.
- UdpSend.RetriesAreInvisible: for `sendmmsg`; RetriesMatterIff is the statement for the sequential sender.
- Error texts: only the kinds of errors.
- src/http.rs, src/cli.rs, src/main.rs, src/config.rs, src/socket.rs, JSON, logging, scripts: plumbing and one-branch facts.
