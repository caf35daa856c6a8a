# Verified model of the game server core

A Dafny 4.11 model of the concurrent and protocol parts of the server: the job
scheduler, reliable UDP, the TCP session pipeline, the send buffer allocator, the
job timer, the snapshot history and the transform quantiser.
`dafny verify dfyconfig.toml` checks everything.

Each object of the source whose methods update it is a class here, and each method
is proved against functions on values. Where several threads work on the same
object, a transition system takes over: one step for each atomic or locked action,
any number of threads, any interleaving. Its theorems are about every finite
behaviour from the initial state.

| file | what it models |
|---|---|
| `CoreValues.dfy` | bytes, the chunk size, answers of socket calls |
| `Sums.dfy` | sums of per-thread weights, used to count tokens |
| `LockQueue.dfy` | the locked FIFO, with null elements |
| `Scheduler.dfy` | job queues, the global queue and workers, all threads |
| `JobQueue.dfy` | `Push` and `Execute` on one thread, on jobs that push jobs |
| `JobTimer.dfy` | the timer object, and `Reserve`/`Distribute` on all threads |
| `ReliableUdp.dfy` | sequence numbers, receive history, acknowledgement field |
| `UdpSession.dfy` | pending packets, retries, the session object |
| `UdpNetwork.dfy` | two sessions over a losing, duplicating, reordering network |
| `RecvBuffer.dfy`, `TcpFraming.dfy`, `TcpReceive.dfy` | receive buffer, frames, receive half |
| `TcpSend.dfy` | the send half, all threads, and its methods on one thread |
| `SendBufferPool.dfy` | chunks, the chunk manager, and the allocator on all threads |
| `SnapshotHistory.dfy` | `AddSnapshot`, `FindSnapshot` |
| `TransformCompressor.dfy` | bit packing and quantisation |

## Main results

- **Scheduler.** The counter protocol keeps one ownership token per busy queue. No
  two threads execute one queue, jobs run once and in the order they were queued,
  ownership is given up exactly when nothing is queued or in flight. However the
  threads are scheduled, they finish all of it in a bounded number of steps, not
  counting new pushes, batches popped empty and time-outs, and no waiting queue is
  overtaken in the global queue.
- **UDP.** Over any network behaviour no acknowledgement removes a packet the peer
  did not accept, exactly when at most 1024 sequence numbers are used and no
  unreliable packet carries a stale number. With 1025 it fails: numbers 1 and 1025
  share a history slot, and slots are never cleared. A packet sent with `Send` keeps
  whatever its buffer held where the number stands: zero in a chunk never recycled,
  any number in a recycled one, and then one reliable packet is enough to fail.
  Since slots are never cleared, a session accepts at most 1024 reliable packets in
  its life. Its 16-bit comparisons implement the window of 1024 exactly for numbers
  within 31744 of each other. Every due packet is sent again, with its own buffer,
  under a new number. A packet nobody acknowledges ends the session by its deadline
  exactly when at most 65535 further numbers are used: the next one overwrites its
  entry.
- **TCP receive.** Delivery depends only on the bytes received, not on how they were
  cut, and a stream of encoded packets is delivered as a growing prefix of what was
  sent. On such a stream a receive is posted without room, which ends the connection,
  in some way of cutting it if and only if a single receive may take more than 583824
  bytes: `Clean` compacts only while more than one buffer size is still free. A live
  session goes deaf exactly when a `WSARecv` fails on the spot and the error keeps the
  connection.
- **TCP send.** One outstanding `WSASend`, never empty, in the order of `Send`. A
  step leaves a queued buffer with nobody to send it exactly when a `WSASend` on a live
  connection fails on the spot, the error keeps the connection, and something is
  queued behind it. Errors that close the connection strand nothing.
- **Allocator.** Live buffers on a chunk never overlap and keep their bytes; buffers
  are packed without gaps; a chunk is recycled only when nobody refers to it, and none
  is lost.
- **Snapshots.** The history is the stable sort, by stamp, of the snapshots that no
  later call outdates, whatever the order of stamps.
- **Quantiser.** Heights come back within 1/128 exactly below 256: the packing
  allows 512, but unpacking goes through a signed 16-bit cast.

## Assumptions

- A lock makes its scope atomic, and a thread may take a lock it holds.
- `_jobCount` never reaches 2^31 and retry counts never reach 2^32.
- Jobs pushed to a queue are not null, as `DoAsync` and `DoTimer` ensure.
- The clock is not modelled: whether a time slice is over is decided freely at each
  check, and is a parameter of the single-thread `Execute`. Times are real numbers;
  `_resendIntervalMs` is any positive number in the lemmas and 0.1 in the class.
- A reliable UDP packet carries on the wire the number it had when it was sent.
- Calls of `SendReliable` on one session do not overlap, since `_sendSeq++` is outside
  any lock, nor do calls of `Update`. Acknowledgements, sends and a disconnect may fall
  anywhere between the scan of an `Update` and its resends. Nothing in the repository
  calls `Update`.
- A send buffer is closed once, by whoever opened it.
- `FindSnapshot` is called on a history that is not empty, since it reads `front()`
  first: that is, after the first `AddSnapshot`.
- Floats are reals, and a float-to-integer cast outside the target range, which C++
  leaves undefined, is a precondition.

## Model

| member | source | states |
|---|---|---|
| Scheduler.StepInv | ServerCore/JobQueue.cpp:9-58 | every step of any thread keeps: one ownership token (first pusher, global entry or executor) while the counter is positive and none at zero; counter = queued jobs + pushes in flight + unsubtracted batch; run ++ in hand ++ queued = arrival order |
| Scheduler.MutualExclusion | ServerCore/JobQueue.cpp:29-57 | in no interleaving are two threads inside Execute of one queue, nor is a queue in the global queue while being executed |
| Scheduler.GlobalAtMostOnce | ServerCore/GlobalQueue.cpp:6-14 | a job queue stands in the global queue at most once |
| Scheduler.RunsInArrivalOrder | ServerCore/JobQueue.cpp:35-41 | what has run is a prefix of the order of _jobs.Push: no job runs twice, is skipped or overtaken |
| Scheduler.ReleaseExactly | ServerCore/JobQueue.cpp:43-47 | fetch_sub releases the queue if and only if nothing is queued and no push is between fetch_add and _jobs.Push; never after an empty batch |
| Scheduler.GlobalIsFifo | ServerCore/GlobalQueue.cpp:6-14 | over any run, what stands in the global queue and what enters it is what is taken and what is left, in that order |
| Scheduler.NoneOvertaken | ServerCore/ThreadManager.cpp:46-64 | the first queues taken in a run are those that were waiting at its start, in their order |
| Scheduler.PushOutcome | ServerCore/JobQueue.cpp:9-25 | whatever others do during a push: one that found zero executes in place outside any Execute unless told to push only, and otherwise hands the queue to the global queue; any other does neither |
| Scheduler.SliceEnds | ServerCore/JobQueue.cpp:49-56 | when the time slice is over, the thread's next step is to put its queue at the end of the global queue and leave Execute |
| Scheduler.QuiescentMeansDone | ServerCore/JobQueue.cpp:9-58 | no lost wakeup: with all threads idle and the global queue empty, every counter is zero and every queued job has run |
| Scheduler.CanAdvance | ServerCore/ThreadManager.cpp:46-64 | short of quiescence some thread has a step that begins no push and leaves less work |
| Scheduler.RunBound | ServerCore/JobQueue.cpp:33-57 | a run of any schedule that begins no push has at most as many steps as the work at its start, plus three for each batch popped empty and two for each hand-over at the end of a time slice |
| Scheduler.PopsNothingMeansPush | ServerCore/JobQueue.cpp:11-12 | a batch is popped empty only while a push to that queue is between fetch_add and _jobs.Push |
| Scheduler.StuckMeansDone | ServerCore/ThreadManager.cpp:46-64 | a run that cannot go on without a new push has run every job of every queue |
| Scheduler.CanDrain | ServerCore/ThreadManager.cpp:46-64 | from every reachable state the threads can reach quiescence with every job run, including those whose push was in flight |
| LockQueues.LockQueue.Push | ServerCore/LockQueue.h:11-15 | appends |
| LockQueues.LockQueue.Pop | ServerCore/LockQueue.h:28-37 | removes the oldest element; empty gives null |
| LockQueues.LockQueue.PopAll | ServerCore/LockQueue.h:39-46 | takes everything up to the first null and swallows that null |
| JobQueues.JobQueue.Push | ServerCore/JobQueue.cpp:9-25 | queues; a push finding zero executes in place, or hands the queue to the global queue when inside another Execute or told to push only |
| JobQueues.JobQueue.Execute | ServerCore/JobQueue.cpp:29-58 | terminates; runs and leaves what the clock's answers allow; when the slice is long enough, everything waiting and all descendants have run in FIFO order; ends empty and released, or passed on through the global queue |
| JobQueues.SliceIsFifo | ServerCore/JobQueue.cpp:33-57 | whatever the clock says, what has run is the one-at-a-time FIFO order cut where waiting begins, and every job waiting at the start has run |
| JobQueues.SliceRunsAllExactly | ServerCore/JobQueue.cpp:33-57 | nothing is left, each node of the forest has run once and breadth-first, if and only if no look at the clock before the last level is done finds the slice over |
| JobQueues.BatchIsFifo | ServerCore/JobQueue.cpp:35-41 | draining a whole batch before the jobs it pushed equals the one-at-a-time FIFO |
| JobQueues.BfsIsLevelOrder | ServerCore/JobQueue.cpp:33-57 | that order is breadth-first over the job forest |
| JobQueues.BfsRunsEachNodeOnce | ServerCore/JobQueue.cpp:33-57 | it runs every job of the forest exactly once |
| JobTimers.JobTimer.Reserve | ServerCore/JobTimer.cpp:8-16 | adds the job at server time plus delay |
| JobTimers.JobTimer.PopDue | ServerCore/JobTimer.cpp:24-38 | takes exactly the due items, in nondecreasing time |
| JobTimers.JobTimer.Distribute | ServerCore/JobTimer.cpp:19-49 | hands exactly the due jobs, each once, to their owners, or drops those whose owner is gone, both in the order of their times; does nothing while another call distributes |
| JobTimers.TimerConservation | ServerCore/JobTimer.cpp:8-49 | in every interleaving a reserved job is exactly once pending, in the one batch in hand, or gone; none leaves before its time; rounds do not interleave and are sorted |
| JobTimers.CallsConserved | ServerCore/JobTimer.cpp:8-16 | in every interleaving the jobs that Reserve was called for are exactly those pending, in hand and gone |
| JobTimers.RoundCollectsDue | ServerCore/JobTimer.cpp:19-38 | a round begun at some time collects everything due then, also what others reserve meanwhile, and leaves nothing due |
| ReliableUdp.AckRoundTrip | ServerCore/Session.cpp:467-515 | the field built for s decodes to s and exactly those of the 32 numbers before it whose slot is set |
| ReliableUdp.AckBitsFit | ServerCore/Session.cpp:499-515 | the field needs no more than its 32 bits |
| ReliableUdp.BitMeans | ServerCore/Session.cpp:475-511 | the bit operations are the shift, mask and or of the source |
| ReliableUdp.WindowExactly | ServerCore/Session.cpp:486-497 | a session accepts, and _latestSeq follows, exactly as a window of 1024 below the greatest number on unwrapped numbers with one use of each slot, for all arrivals that lie with 0 within n consecutive numbers, if and only if n is at most 31744 |
| ReliableUdp.TooFarAhead | ServerCore/Session.cpp:488-489 | a number 31744 ahead is rejected |
| ReliableUdp.AtMostOnce | ServerCore/Session.cpp:486-497 | over any arrivals and wraps accepted numbers differ modulo 1024, and set slots count the accepts |
| ReliableUdp.LifetimeLimit | ServerCore/Session.cpp:486-497 | a session accepts at most 1024 numbers ever, and nothing after that |
| UdpSessions.AcksCommute | ServerCore/Session.cpp:467-484 | reordering and duplicating a batch of acknowledgements leaves the same pending table |
| UdpSessions.AckCodec | ServerCore/Session.cpp:467-515 | the acknowledgement for s removes exactly s and the numbers of set slots among the 32 before it, and leaves the other entries unchanged |
| UdpSessions.UpdateRetransmits | ServerCore/Session.cpp:428-465 | when the next numbers are free, exactly the due entries are aged and kept, and each is filed and put on the wire again with its own buffer under the next number in turn; a session that is or gets disconnected puts nothing on the wire |
| UdpSessions.DisconnectSilences | ServerCore/Session.cpp:325-339 | after a disconnect nothing reaches the wire any more |
| UdpSessions.RetryBound | ServerCore/Session.cpp:428-465 | over any run a connected session has no entry retried more than five times |
| UdpSessions.UnansweredDisconnects | ServerCore/Session.cpp:428-465 | a packet sent at t, never acknowledged, and whose number is not used again has the session disconnected by t + 6 * (interval + gap) when updates are at most gap apart |
| UdpSessions.ReuseOutlives | ServerCore/Session.cpp:350-353 | with 65536 further numbers there is a run that outlives the deadline, because the entry is overwritten |
| UdpSessions.DeadlineExactly | ServerCore/Session.cpp:341-356 | in every run that uses at most n further numbers the deadline holds, if and only if n is at most 65535 |
| UdpSessions.UdpSession.constructor | ServerCore/Session.cpp:309-311 | with the field initialisers of ServerCore/Session.h and connected at creation, starts with no pending packet, an empty history, latest 0 and first number 1 |
| UdpSessions.UdpSession.Send | ServerCore/Session.cpp:333-339 | puts the packet on the wire if connected, with the number its header holds |
| UdpSessions.UdpSession.SendReliable | ServerCore/Session.cpp:341-356 | uses the next number, files the packet under it, and puts it on the wire if connected |
| UdpSessions.UdpSession.ScanPending | ServerCore/Session.cpp:432-452 | the locked loop ages and lists exactly the due entries and disconnects past five retries; the walk order is free |
| UdpSessions.UdpSession.Update | ServerCore/Session.cpp:428-465 | one undisturbed call is a scan and then one resend step for each listed entry, under a new number, keeping the old entry |
| UdpSessions.UdpSession.HandleAck | ServerCore/Session.cpp:467-484 | the loop subtracts the acknowledged set from the table |
| UdpSessions.UdpSession.CheckAndRecordReceiveHistory | ServerCore/Session.cpp:486-497 | accepts within the window if the slot is free, and records |
| UdpSessions.UdpSession.GenerateAckBitfield | ServerCore/Session.cpp:499-515 | the loop computes the field that AckRoundTrip decodes |
| UdpSessions.UdpSession.HandlePacket | GameServer/ClientPacketHandler.h:105-123 | while connected, acknowledges exactly the newly accepted packets; dispatches every packet, accepted or not |
| UdpNetwork.StepInv | ServerCore/Session.cpp:341-515 | with at most 1024 numbers and no stale one, every step of sender, receiver and network, reliable or not, keeps: acknowledgements cover only set slots, set slots come from accepts, removed numbers were accepted |
| UdpNetwork.FalseAck | ServerCore/Session.cpp:491-511 | with 1025 numbers there is a behaviour that removes a packet the peer never accepted |
| UdpNetwork.StaleFalseAck | GameServer/ClientPacketHandler.h:168-184 | with one reliable packet, and unreliable ones that still carry 1025 and 2, there is a behaviour that removes a packet the peer never accepted |
| UdpNetwork.NoFalseAckExactly | ServerCore/Session.cpp:341-515 | no behaviour has a false acknowledgement if and only if at most 1024 numbers are used, across the 16-bit wrap, and unreliable packets carry no stale number, or no number is used at all |
| UdpNetwork.PendingOrAcked | ServerCore/Session.cpp:341-484 | over any network behaviour that uses no number twice, every number used is pending or acknowledged, and not both |
| RecvBuffers.RecvBuffer.Clean | ServerCore/RecvBuffer.cpp:17-34 | unread bytes survive; they move to the front exactly when more than bufferSize bytes are free, and an empty buffer starts over |
| RecvBuffers.RecvBuffer.ShiftDown | ServerCore/RecvBuffer.cpp:29 | the overlapping ascending copy moves the bytes exactly |
| RecvBuffers.RecvBuffer.OnRead | ServerCore/RecvBuffer.cpp:36-43 | consumes from the front, or refuses and changes nothing |
| RecvBuffers.RecvBuffer.OnWrite | ServerCore/RecvBuffer.cpp:45-52 | appends the bytes placed behind writePos, or refuses |
| TcpFraming.ParseConserves | ServerCore/Session.cpp:262-284 | delivered frames followed by the rest are the bytes received |
| TcpFraming.ParseAppend | ServerCore/Session.cpp:262-284 | parsing a ++ b delivers the parse of a, then the parse of rest(a) ++ b |
| TcpFraming.SegmentationIndependent | ServerCore/Session.cpp:212-240 | two ways to cut one stream deliver the same frames and buffer the same rest |
| TcpFraming.MakeSendBuffer | GameServer/ClientPacketHandler.h:168-184 | with its uint16 casts, encodes exactly the packets whose payload and header fit 6000 bytes |
| TcpFraming.FrameRoundTrip | GameServer/ClientPacketHandler.h:168-184 | a frame decodes to its id and payload and is parsed as one frame whatever follows |
| TcpFraming.EndToEnd | ServerCore/Session.cpp:262-284 | from the first n bytes of the stream exactly the packets that arrived whole are delivered, in order and intact; all of them at the end |
| TcpReceive.RoomForSaneHeaders | ServerCore/RecvBuffer.cpp:17-34 | as long as every header announces at least its own length, receives of at most 8 * 65536 + 1 bytes each always leave room |
| TcpReceive.RunsOutOfRoom | ServerCore/RecvBuffer.cpp:27-32 | a stream of encoded packets and three receives after which the next one has no room |
| TcpReceive.RoomExactly | ServerCore/RecvBuffer.cpp:17-34 | on encoded streams, in every way of cutting them into receives of at most m bytes, the next receive always has room, if and only if m is at most 583824 |
| TcpReceive.TcpSession.IsParsingPacket | ServerCore/Session.cpp:262-284 | the loop over the buffer computes the greedy parse and the length consumed |
| TcpReceive.TcpSession.ProcessRecv | ServerCore/Session.cpp:212-240 | keeps delivered = parse of all received and buffered = its rest; 0 bytes or overflow disconnect; fills and compacts the buffer as the room results assume, and posts the next receive as the receive results assume |
| TcpReceive.TcpSession.RegisterRecv | ServerCore/Session.cpp:120-143 | posts for all the room there is; a refusal disconnects if it is fatal and otherwise leaves nothing posted |
| TcpReceive.DeafensExactly | ServerCore/Session.cpp:134-142 | a step leaves a live session with no receive posted or being processed, if and only if it is a WSARecv failing on the spot with an error that keeps the connection |
| TcpReceive.HearsExactly | ServerCore/Session.cpp:120-143 | over all runs a live session has a receive posted or being processed, if and only if no such failure may happen |
| TcpReceive.DisconnectIsFinal | ServerCore/Session.cpp:27-33 | once disconnected a session stays down, and at most the receive already posted completes |
| TcpSend.StepInv | ServerCore/Session.cpp:35-52 | every step keeps one holder of _sendRegistered (registrar, outstanding send or completion), the lock, and offered ++ event ++ queue = order of Send |
| TcpSend.SendSafety | ServerCore/Session.cpp:145-192 | in every interleaving, failing or not, at most one WSASend is outstanding or about to be posted, none is empty, and what was offered is a prefix of the order of Send |
| TcpSend.StrandsExactly | ServerCore/Session.cpp:181-191 | a step leaves a queued buffer on a live connection with nobody to send it, if and only if it is a WSASend failing on the spot with an error that keeps the connection, with more buffers queued |
| TcpSend.FailureStrands | ServerCore/Session.cpp:181-191 | a run of two threads that does it |
| TcpSend.NotStrandedExactly | ServerCore/Session.cpp:286-299 | in every interleaving a queued buffer on a live connection has a registrar or a completion to come, if and only if no such failure may happen; failures that close the connection may |
| TcpSend.CanFlush | ServerCore/Session.cpp:242-260 | from every state a live, failure-free session can reach, every buffer sent so far can get to the socket |
| TcpSend.DisconnectIsFinal | ServerCore/Session.cpp:27-38 | once disconnected a session stays down and takes no buffer, but for calls of Send already past their check |
| TcpSend.TcpSession.Send | ServerCore/Session.cpp:35-52 | one undisturbed call is exactly this run of steps; a closed session ignores it |
| TcpSend.TcpSession.RegisterSend | ServerCore/Session.cpp:145-192 | moves the whole queue into the event and posts it, or on failure drops it and frees the flag; leaves the flag set when disconnected |
| TcpSend.TcpSession.ProcessSend | ServerCore/Session.cpp:242-260 | clears the event, then frees the flag on an empty queue or posts again under the lock; 0 bytes disconnects |
| SendBufferPool.SendBufferChunk.Reset | ServerCore/SendBuffer.cpp:40-44 | empties and shuts the chunk |
| SendBufferPool.SendBufferChunk.Open | ServerCore/SendBuffer.cpp:46-57 | hands out the bytes from usedSize on when they fit, and only then opens |
| SendBufferPool.SendBufferChunk.Close | ServerCore/SendBuffer.cpp:59-65 | advances usedSize by what was written |
| SendBufferPool.SendBufferManager.Pop | ServerCore/SendBuffer.cpp:90-102 | the most recently returned chunk, or a new one |
| SendBufferPool.SendBufferManager.Open | ServerCore/SendBuffer.cpp:71-88 | room behind the thread's own chunk when it fits, otherwise at the start of another chunk that becomes the thread's |
| SendBufferPool.AllocationPacks | ServerCore/SendBuffer.cpp:46-88 | buffers closed on a chunk since its reset lie side by side from its start, the used mark is where they end, and a thread opens its next buffer there whenever it fits and takes another chunk only otherwise |
| SendBufferPool.TakesLatest | ServerCore/SendBuffer.cpp:90-108 | the pool is a stack |
| SendBufferPool.StepInv | ServerCore/SendBuffer.cpp:17-113 | every step of any thread keeps the layout of live buffers, the single place of every chunk, and the bytes of every live buffer |
| SendBufferPool.LiveBufferIntact | ServerCore/SendBuffer.cpp:46-65 | every live buffer lies inside its chunk, below the used mark once closed and from it on while open, and holds what was written to it |
| SendBufferPool.LiveBuffersNeverOverlap | ServerCore/SendBuffer.cpp:46-65 | live buffers on a chunk are apart, closed ones below the used mark, the open one above it and inside 6000 bytes, each holding what was written to it |
| SendBufferPool.StaleBytes | ServerCore/SendBuffer.cpp:40-44 | a buffer just opened in a recycled chunk may hold any number where the sequence number stands |
| SendBufferPool.FreshBytesAreZero | ServerCore/SendBuffer.h:54 | as long as no chunk is taken from the pool and buffers are closed at full size, a buffer just opened is all zero |
| SendBufferPool.RecycledOnlyWhenFree | ServerCore/SendBuffer.cpp:71-113 | a chunk in the pool or about to be reset has no live buffer and no other thread, and is in the pool once |
| SendBufferPool.NoChunkLost | ServerCore/SendBuffer.cpp:104-113 | a chunk nobody refers to is in the pool or on its way there |
| SnapshotHistory.Room.AddSnapshot | GameServer/Room.cpp:337-355 | the vector operations compute insertion behind equal stamps followed by pruning, and keep the vector sorted |
| SnapshotHistory.Room.EraseBefore | GameServer/Room.cpp:349-355 | remove_if and erase keep exactly the entries not before the cutoff, in order |
| SnapshotHistory.Room.FindSnapshot | GameServer/Room.cpp:367-381 | the first retained stamp at or after t; null exactly when all are earlier |
| SnapshotHistory.EmptyExactly | GameServer/Room.cpp:337-355 | the history is empty exactly before the first call, so a call never prunes its own snapshot |
| SnapshotHistory.HistoryIsSortedSurvivors | GameServer/Room.cpp:337-355 | after any calls the history is the insertion sort of exactly the snapshots whose stamp is at least t' - 0.5 for every later stamp t' |
| SnapshotHistory.InsertAllIsStableSort | GameServer/Room.cpp:341-347 | that sort is a sorted permutation with equal stamps in insertion order |
| TransformCompressor.PositionError | GameServer/TransformCompressor.cpp:5-28 | x and z err by at most half a resolution step if and only if they lie in the world range or one step beyond its upper end; y errs by less than 1/128 if and only if it is below 256 |
| TransformCompressor.PositionLayout | GameServer/TransformCompressor.cpp:5-17 | x, y and z stand in the three highest 16-bit fields, the lowest is zero |
| TransformCompressor.PositionRepack | GameServer/TransformCompressor.cpp:5-28 | an unpacked position can be packed again if and only if its y field is below 32768, and gives the code back with the low field cleared |
| TransformCompressor.RotationError | GameServer/TransformCompressor.cpp:30-49 | yaw errs by less than 2 PI / 65535, pitch by less than PI / 65535 |
| TransformCompressor.RotationLayout | GameServer/TransformCompressor.cpp:30-39 | yaw stands above pitch, each as a 65535th of its range |
| TransformCompressor.RotationRepack | GameServer/TransformCompressor.cpp:30-49 | re-packing an unpacked code is the identity on all codes |
| TransformCompressor.VelocityError | GameServer/TransformCompressor.cpp:52-79 | each component errs by less than 0.01 |
| TransformCompressor.VelocityLayout | GameServer/TransformCompressor.cpp:52-66 | the components and the speed stand as hundredths in four 16-bit fields, in that order |
| TransformCompressor.VelocityRepack | GameServer/TransformCompressor.cpp:52-79 | re-packing an unpacked code is the identity on all codes |

## Left out

- SendBufferPool.StepInv: reference counts are not numbers; a chunk's deleter runs when no thread, buffer or pool entry refers to it, which is what the counts amount to.
- Scheduler.RunBound: fairness itself is not modelled: a thread that never takes the step after its fetch_add keeps the owner of that queue popping empty batches.
- TcpFraming.MakeSendBuffer: a payload of 65532 to 65535 bytes, whose 16-bit size wraps below the header, ends in `Overrun`; what the source does from there is not modelled.
- TcpReceive.TcpSession.ProcessRecv: handlers called through OnRecv do not disconnect the session in the model.
- UdpSessions.UdpSession.Update: the header shared by a packet and its resends is not modelled; each send carries its own number. What a disconnect calls (OnDisconnected, releasing the session) is outside the model.
- JobQueue::ClearJobs: empties the queue without correcting the counter, and has no caller.
- Winsock, IOCP, listening and connecting: the kernel's answers are free choices of the environment.
- UdpReceiver::IsParsingPacket: passes the start of the buffer for every frame, so the framing results do not apply to it.
- Reconnecting a session object after a disconnect.
- Protobuf payloads are opaque bytes; serialisation is the identity on them.
- PhysX, actors, players, bots, rooms beyond the snapshot history, and the manager maps.
- Lock, MemoryPool, ObjectPool and the deadlock profiler: used through the assumptions above.
- IEEE rounding of floats.
