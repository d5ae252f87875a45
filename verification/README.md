# Polarlight streaming host: verified models

Dafny models of the stateful parts of the Polarlight game-streaming host, with proofs of what
they keep over whole runs. `dafny verify dfyconfig.toml` checks everything.

| file | what it models |
|---|---|
| `TaskPool.dfy` | the scheduler: a FIFO of immediate tasks and a vector of timers in descending deadline order |
| `ThreadPool.dfy`, `PoolHistory.dfy`, `PoolShutdown.dfy` | the worker pool as a machine of atomic steps with any number of workers, what its runs keep, and how it ends |
| `Packetizer.dfy`, `Counting.dfy` | header insertion and the cut of a frame into one or three FEC blocks |
| `Fec.dfy` | shard counts, the advertised percentage, the shard buffer |
| `VideoSender.dfy`, `Bits.dfy` | numbering, flags and packed fields of every packet, and the way from frame to batches and back |
| `VideoWire.dfy` | which packets go out, what each one holds, and a receiver that sees nothing else |
| `AudioSender.dfy` | the audio sender's shard slots and parity groups across the 16-bit wrap |
| `RtspServer.dfy` | session slots, the pending launch, the launch and resume checks, session states and platform callbacks |
| `ThreadSafe.dfy` | the bounded queue and the reference-counted object |
| `LaunchSaga.dfy` | preparation and undo commands around an application |
| `ConfigFile.dfy` | the configuration parser and the saver's print loop |

Classes stand where the program updates objects in place; each method is tied to a function of
the old state, or states the new one outright, and lemmas and invariants carry the properties
over runs. The thread pool is a step machine on values, because its property is about
interleavings: `_lock` is held across three separate steps of a worker, while `pop`, `cancel`
and `delay` run in between under the inner mutex alone.

Clock readings, command outcomes, send failures, parse results and parity bytes are parameters.
Integers are unbounded except where a width matters: 16-bit sequence numbers, the 32-bit packet
index and FEC word, and 32-bit timestamps are reduced explicitly.

## Where the code does less than one would expect

These are results of the proofs, each with its exact condition and an input on which it shows.

- `pushDelayed` reads the clock before it takes the inner mutex. As long as no timer fires in between, the firing order holds over every run (`PoolHistory.FreshFiringOrder`). When one does, the push breaks it exactly when its deadline is before the last one fired (`PoolHistory.StaleSampleIff`; `PoolHistory.StaleSampleExample` is a run that fires 5 and then 4).
- The percentage advertised after raising it to a minimum is rounded down. The receiver computes the true parity count exactly when the remainder is below 100 (`Fec.ExactIff`, `Fec.HundredIsTight`), which up to 100 data shards is always so.
- The comment on the 90-packet threshold (stream.cpp:1274-1276) reasons with 100 shards at 255 percent. With at most 255 shards, 255 percent is skipped from 72 data shards on, and blocks of 90 keep their correction only up to 183 percent (`Fec.ThresholdAgainstMaximum`).
- A send that throws leaves the session's packet number as it was, and a batched send that fails midway (linux/misc.cpp:309-312) is begun again shard by shard. The numbers on the wire count up by one throughout a session exactly when no batch is begun twice and nothing goes out after a frame that threw with packets out, but for multiples of 2^16 (`VideoSender.WireConsecutiveIff`, `VideoSender.FollowsOnIff`; in `VideoSender.ThrowingSend` one shard goes out and its number is sent again).
- The comment on video timestamps (stream.cpp:1339) names a 90 kHz clock; `1000 / 90` is an integer division, and a second is 90909 units (`VideoSender.TicksPerSecond`).
- A value read from a configuration line keeps the blanks between it and a comment; only the text of the comment is taken off (`ConfigFile.HandWritten`).
- A launch is lost, and its slot with it, when it has timed out and a new one overwrites it, or when an announce fails before taking a slot. Nothing gives such a slot back, and once all are lost every client action is refused (`RtspServer.Server.Serve`; `RtspServer.BadRequestLosesSlot`, `RtspServer.OverwrittenAtTimeout`).
- The base an audio parity group carries names its block exactly when the block's first packet was sent, or an earlier base agrees with it modulo 2^16 (`AudioSender.BaseIff`, `AudioSender.UnsentStart`).

Some conditions concern a component taken alone, on inputs that the rest of the program does not give it:

- `delay`, which nothing calls, moves a timer only towards the front of the vector. The vector stays sorted exactly when the new deadline is not before that of the timer just behind (`TaskPool.DelayedSortedIff`, `TaskPool.DelayForwardExample`), and the sleeping workers stay covered exactly when none of them sleeps past it (`ThreadPool.DelayKeepsCoverIff`, `PoolHistory.UncoveredSleeper`).
- `encode` enters the Reed-Solomon step exactly when parity shards have room in the buffer, as long as the percentage is at least 1, which config.cpp:1017 sees to (`Fec.EncodesWhenRoom`). At zero a block without parity can be the exception (`Fec.EncodesIff`, `Fec.NotEnteredExample`).
- Audio parity covers exactly the payloads of its block when all have the size of the last one, which the constant bit rate of audio.cpp:109 is to see to (`AudioSender.BlockInSlotsIff`, `AudioSender.UnequalSizes`).
- A queue of capacity zero grows without bound (`ThreadSafe.BoundIff`); the program makes queues of 30 and 32.

## Model

| member | source | states |
|---|---|---|
| TaskPool.Scheduler.Push | Polarlight-Sunshine/src/task_pool.h:77-97 | the task joins the end of the FIFO, the timers stay |
| TaskPool.Scheduler.PushDelayed | Polarlight-Sunshine/src/task_pool.h:99-111 | the scan and emplace insert before the first strictly earlier timer |
| TaskPool.Scheduler.Delay | Polarlight-Sunshine/src/task_pool.h:151-181 | the new deadline and the bubbling loop, on any vector, sorted or not |
| TaskPool.Scheduler.Cancel | Polarlight-Sunshine/src/task_pool.h:183-199 | removes the first timer with the id and says whether there was one |
| TaskPool.Scheduler.PopTask | Polarlight-Sunshine/src/task_pool.h:214-232 | immediate tasks first, else the last timer if due, else nothing |
| TaskPool.InsertSplits | Polarlight-Sunshine/src/task_pool.h:103-110 | the inserted timer lands behind everything not earlier and before everything earlier |
| TaskPool.InsertSorted | Polarlight-Sunshine/src/task_pool.h:103-110 | insertion keeps the descending order |
| TaskPool.InsertContents | Polarlight-Sunshine/src/task_pool.h:103-110 | insertion adds one timer and keeps all others |
| TaskPool.BubbledIsDelayed | Polarlight-Sunshine/src/task_pool.h:171-180 | on a sorted vector the bubbling loop is removal and re-insertion among the timers in front |
| TaskPool.BubbledContents | Polarlight-Sunshine/src/task_pool.h:156-180 | a delay replaces one deadline and neither adds nor drops a timer |
| TaskPool.DelayedSortedIff | Polarlight-Sunshine/src/task_pool.h:171-180 | a delay keeps the order exactly when the new deadline is not before the next timer's |
| TaskPool.DelayForwardExample | Polarlight-Sunshine/src/task_pool.h:171-180 | a deadline brought forward that leaves the earliest timer hidden |
| TaskPool.PopRefines | Polarlight-Sunshine/src/task_pool.h:214-232 | pop refines an abstract scheduler: oldest immediate task, else a due timer of least deadline out of a bag, else neither exists |
| TaskPool.NextIsLeast | Polarlight-Sunshine/src/task_pool.h:241-250 | the wake-up time is the least deadline, or none without timers |
| TaskPool.PopNewestFirst | Polarlight-Sunshine/src/task_pool.h:99-111 | among undelayed timers of one deadline the newest is served |
| ThreadPool.NoLostWakeup | Polarlight-Sunshine/src/thread_pool.h:42-127 | in every interleaving without a deadline brought forward: while a worker sleeps, each queued task has an idle worker of its own on the way to pop, and no sleeper oversleeps the earliest timer |
| ThreadPool.DelayKeepsCoverIff | Polarlight-Sunshine/src/thread_pool.h:114-119 | a delay keeps the sleepers covering the timers exactly when none sleeps past the new deadline |
| ThreadPool.QueuedTaskServed | Polarlight-Sunshine/src/thread_pool.h:99-120 | after any calm run that leaves a task queued while somebody sleeps, some worker is awake whose own next steps are all possible and run the oldest task |
| ThreadPool.DueTimerServed | Polarlight-Sunshine/src/thread_pool.h:99-120 | after any calm run a sleeper with a timer due has passed its own wake-up time, and its next steps fire a timer of least deadline |
| ThreadPool.PushServed | Polarlight-Sunshine/src/thread_pool.h:42-50 | after any calm run, with somebody asleep and the lock free, a push is possible and wakes a sleeper whose own next steps run the oldest task |
| ThreadPool.WayServes | Polarlight-Sunshine/src/thread_pool.h:99-120 | from wherever a worker waits, its own steps lead to the pop of what is ready, whatever the others do not do |
| ThreadPool.IdleRoundSleeps | Polarlight-Sunshine/src/thread_pool.h:99-120 | with nothing ready one round of a worker is possible and ends asleep until the least deadline, which is still to come; nothing else changes |
| PoolHistory.EachTaskOnce | Polarlight-Sunshine/src/task_pool.h:77-232 | in any run every task pushed is in exactly one of queued, timed, handed out, cancelled, and once |
| PoolHistory.FreshFiringOrder | Polarlight-Sunshine/src/task_pool.h:99-146 | over any run in which no timer fires between the clock reading of a push and its insertion, and delays are not negative, no timer fires early and fired deadlines never decrease |
| PoolHistory.FiringOrder | Polarlight-Sunshine/src/task_pool.h:99-146 | the same for readings of any age, as long as no push is below the last deadline fired |
| PoolHistory.FreshSampleInOrder | Polarlight-Sunshine/src/task_pool.h:124-143 | reading the clock in the same step as the insertion is always fresh and in order |
| PoolHistory.StaleSampleIff | Polarlight-Sunshine/src/task_pool.h:124-143 | with a stale reading the next firing is in order exactly when the deadline is not before the last one fired |
| PoolHistory.StaleSampleExample | Polarlight-Sunshine/src/task_pool.h:124-143 | a run of one worker that fires deadline 5 and then deadline 4 |
| PoolHistory.UncoveredSleeper | Polarlight-Sunshine/src/task_pool.h:151-181 | a run of one worker that leaves it asleep past a timer brought forward |
| PoolHistory.StepRefines | Polarlight-Sunshine/src/task_pool.h:77-232 | each step on the two containers is a step of a FIFO and a bag of timers |
| PoolHistory.CalmRunRefines | Polarlight-Sunshine/src/task_pool.h:77-232 | so is every step of any run without a deadline brought forward |
| PoolHistory.InitMeetsAll | Polarlight-Sunshine/src/thread_pool.h:42-79 | the pool as constructed meets every invariant |
| PoolHistory.FromTheStart | Polarlight-Sunshine/src/thread_pool.h:42-127 | from construction on, with any workers and callers: one place per task, firing order, no oversleeping, newest first but for tasks that an event delayed, and refinement together |
| PoolHistory.DrainedFromTheStart | Polarlight-Sunshine/src/thread_pool.h:81-127 | from construction on, the pool has drained when all workers have exited |
| PoolShutdown.WayOut | Polarlight-Sunshine/src/thread_pool.h:99-126 | once stopped, a worker at any place ends by finitely many possible steps of its own, on which it runs exactly what is queued or due |
| PoolShutdown.StopEndsAll | Polarlight-Sunshine/src/thread_pool.h:81-126 | from construction on, whatever happened: a stop is possible when the lock is free, and after it all workers can end, with nothing queued or due left |
| PoolShutdown.LeftAfterLastExit | Polarlight-Sunshine/src/thread_pool.h:81-126 | from construction on: every timer left is later than the moment at which the last worker ended, however the run goes on |
| PoolHistory.DelayedIff | Polarlight-Sunshine/src/task_pool.h:151-181 | the tasks on record as delayed are those that an event of the run delayed |
| PoolHistory.NewestFirst | Polarlight-Sunshine/src/task_pool.h:99-111 | at every point of a run the timer to be fired is the newest undelayed one of its deadline |
| PoolHistory.ShutdownDrains | Polarlight-Sunshine/src/thread_pool.h:81-127 | once all workers have exited no immediate task is left and every timer left is later than the last worker's final pop |
| Packetizer.InsertHeaders | Polarlight-Sunshine/src/stream.cpp:692-719 | filling the buffer packet by packet gives a slot in front of every slice |
| Packetizer.StripInterleave | Polarlight-Sunshine/src/stream.cpp:692-719 | dropping the header bytes of every packet gives back the data |
| Packetizer.SlotsInPlace | Polarlight-Sunshine/src/stream.cpp:702-714 | every packet starts, at a multiple of the block size, with a slot the insertion created |
| Packetizer.InterleaveLength | Polarlight-Sunshine/src/stream.cpp:695-699 | the size of a headered frame, whose last packet is a slot and at least one byte |
| Packetizer.InterleaveSlice | Polarlight-Sunshine/src/stream.cpp:702-714 | packet j of whole slices is a slot followed by slice j |
| Packetizer.AlignedIsThird | Polarlight-Sunshine/src/stream.cpp:1291-1293 | the aligned size is that of ceil(e/3) packets |
| Packetizer.BlocksCut | Polarlight-Sunshine/src/stream.cpp:1274-1306 | three blocks exactly above 90 packets; they rebuild the frame, are non-empty, aligned, and hold ceil(e/3), ceil(e/3) and the rest |
| Fec.Count | Polarlight-Sunshine/src/stream.cpp:640-662 | the adjustments in the order made give the counts the lemmas are about |
| Fec.Encode | Polarlight-Sunshine/src/stream.cpp:636-689 | the buffer, byte by byte: the payload, zeros to whole data shards, then what the code computes from that region when there is room |
| Fec.BufferBytes | Polarlight-Sunshine/src/stream.cpp:664-686 | byte by byte: the payload, zeros, and with room for parity the bytes the code computes from the data shards |
| Fec.ParityIsLeast | Polarlight-Sunshine/src/stream.cpp:643 | the parity count is the least that amounts to the percentage |
| Fec.ExactIff | Polarlight-Sunshine/src/stream.cpp:643-662 | for any counts, the formula on the advertised percentage gives the parity sent exactly when the raised share leaves a remainder below 100 |
| Fec.ExactUpToHundred | Polarlight-Sunshine/src/stream.cpp:643-662 | always exact for 1 to 100 data shards |
| Fec.HundredIsTight | Polarlight-Sunshine/src/stream.cpp:646-651 | 101 data shards with a minimum of 102 are not exact |
| Fec.KeptUpToIff | Polarlight-Sunshine/src/stream.cpp:653-662 | correction is kept for all blocks up to a size exactly when it is for that size |
| Fec.ThresholdAgainstMaximum | Polarlight-Sunshine/src/stream.cpp:1274-1277 | where the 90-packet threshold does and does not keep correction for a maximum of 255 shards |
| Fec.EncodesWhenRoom | Polarlight-Sunshine/src/stream.cpp:640-680 | with a percentage of at least 1, as config.cpp:1017 admits, some parity is made and the Reed-Solomon step is entered exactly when the shards allocated include it |
| Fec.EncodesIff | Polarlight-Sunshine/src/stream.cpp:675-680 | the same for any percentage, with the one exception of zero parity |
| Fec.NotEnteredExample | Polarlight-Sunshine/src/stream.cpp:675-680 | at zero percent, 256 data shards without parity: all in the buffer, and the step is not entered |
| Fec.MinimumMet | Polarlight-Sunshine/src/stream.cpp:643-662 | unless correction is skipped, both the minimum and the requested percentage are met within the maximum |
| Bits.OrBits | Polarlight-Sunshine/src/stream.cpp:1322 | bit by bit, the function is the bitwise or |
| Bits.Packed | Polarlight-Sunshine/src/stream.cpp:1343-1346 | index, data shards and percentage stand at bits 12, 22 and 4 of the word |
| Bits.FecInfoIff | Polarlight-Sunshine/src/stream.cpp:1343-1346 | the packed word reads back as packed exactly when the fields fit 10, 10 and 8 bits |
| Bits.MultiFecBlocks | Polarlight-Sunshine/src/stream.cpp:1322 | block index and last index share a byte and read back |
| VideoSender.Sender.StampHeaders | Polarlight-Sunshine/src/stream.cpp:1313-1331 | packet index, frame and block numbers, start flag on the first and end flag on the last packet of a block only |
| VideoSender.Sender.Finish | Polarlight-Sunshine/src/stream.cpp:1336-1358 | every shard, data or parity, is numbered, timed and described, RTP header byte included; the shards are the encoded buffer |
| VideoSender.Sender.MakeBatch | Polarlight-Sunshine/src/stream.cpp:1310-1358 | one block numbered from `low`, encoded and described |
| VideoSender.Sender.Transmit | Polarlight-Sunshine/src/stream.cpp:1377-1383 | what goes out of a batch: all, or a failed batched send's part and then shard by shard up to the one that throws |
| VideoSender.Sender.SendBlocks | Polarlight-Sunshine/src/stream.cpp:1307-1394 | one batch per block, each numbered from where the last one ended, up to the one that throws, and all that goes out of them |
| VideoSender.Sender.SendFrame | Polarlight-Sunshine/src/stream.cpp:1229-1401 | the batches of a frame are those of its blocks, in order; the number is saved exactly when no send threw |
| VideoSender.FrameReceived | Polarlight-Sunshine/src/stream.cpp:1255-1396 | end to end: data shards without headers are the frame followed by the padding of the last shard |
| VideoWire.WireCarries | Polarlight-Sunshine/src/stream.cpp:1255-1396 | every packet that goes out of a frame, sent to its end or not, names its frame and block; it is a slot and the slice of the frame at its place, or parity of its block; of a frame sent without an exception all packets go out |
| VideoWire.DataShardIs | Polarlight-Sunshine/src/stream.cpp:1255-1358 | data shard x of block k is a slot followed by slice k * ceil(e / 3) + x of the frame, the last one filled up with zeros |
| VideoWire.ParityShardIs | Polarlight-Sunshine/src/stream.cpp:1333-1358 | every byte of a parity shard is what the code computes from the data shards of its batch |
| VideoWire.WireReceived | Polarlight-Sunshine/src/stream.cpp:1255-1396 | end to end over the wire: a receiver that sees only the packets puts the frame together, whole or unbatched sends, begun twice or not, while the header fields fit |
| VideoWire.WireInOrder | Polarlight-Sunshine/src/stream.cpp:1377-1383 | without failed batched sends and exceptions the packets go out in order and once each |
| VideoWire.OutIs | Polarlight-Sunshine/src/stream.cpp:1377-1383 | what goes out of a batch are packets of it, and all of them, in order at the end, unless it throws |
| VideoWire.SlotsOnWire | Polarlight-Sunshine/src/stream.cpp:1313-1331 | every packet on the wire that says it is a data shard begins with a slot that the insertion created, so its header hides no byte of the frame |
| VideoSender.FrameExact | Polarlight-Sunshine/src/stream.cpp:1277-1333 | up to 300 packets in a frame every batch advertises its true parity |
| VideoSender.StreamNumbers | Polarlight-Sunshine/src/stream.cpp:1349 | over shards, blocks and all frames sent without an exception, packet i carries i modulo 2^16 (section 5.1 of RFC 3550) |
| VideoSender.WireConsecutiveIff | Polarlight-Sunshine/src/stream.cpp:1349-1401 | over any session, the numbers on the wire count up by one throughout exactly when no batch is begun twice and nothing goes out after a frame that threw with packets out, but for multiples of 2^16 |
| VideoSender.FollowsOnIff | Polarlight-Sunshine/src/stream.cpp:1377-1398 | a frame's first number follows the last one that went out of the frame before exactly when that frame did not throw or a multiple of 2^16 packets was out |
| VideoSender.SentIsSmooth | Polarlight-Sunshine/src/stream.cpp:1377-1396 | without exceptions and failed batched sends the condition holds |
| VideoSender.ThrowingSend | Polarlight-Sunshine/src/stream.cpp:1377-1398 | any frame of which one shard goes out before sending throws, and any frame after it: that shard's number is sent again |
| VideoSender.StreamMarked | Polarlight-Sunshine/src/stream.cpp:1313-1354 | for every batch of every frame: index agreement, flags, and when the information word reads back |
| VideoSender.StreamIndex | Polarlight-Sunshine/src/stream.cpp:1318-1349 | the packet index and number of a data packet count its place in the stream of saved frames, modulo 2^24 and 2^16 |
| VideoSender.TicksAre | Polarlight-Sunshine/src/stream.cpp:1339-1350 | the timestamp is the count of whole units of 11 microseconds, modulo 2^32 |
| VideoSender.TicksPerSecond | Polarlight-Sunshine/src/stream.cpp:1339-1350 | the timestamp clock makes 90909 units in a second, and at least as many in each further one |
| VideoSender.IndexAgrees | Polarlight-Sunshine/src/stream.cpp:1318 | the stream packet index shifted down by 8 agrees with the sequence number |
| VideoSender.InfoReadable | Polarlight-Sunshine/src/stream.cpp:1343-1346 | what a shard says about its block reads back exactly while it fits |
| AudioSender.Sender.Send | Polarlight-Sunshine/src/stream.cpp:1442-1501 | slot, base and counters after each packet; parity exactly when a sent packet ends a block, under the numbers sent before one throws |
| AudioSender.Sender.Stream | Polarlight-Sunshine/src/stream.cpp:1428-1501 | over any run, any packet failing to be sent: one group per block end that was sent, and each whose start was sent and whose sizes agree is its block |
| AudioSender.FilledBytes | Polarlight-Sunshine/src/stream.cpp:1474 | byte by byte: the payload in front, what the slot held before behind it, other slots untouched |
| AudioSender.FilledLatest | Polarlight-Sunshine/src/stream.cpp:1474 | the slots always hold the latest payloads at the positions they select |
| AudioSender.BlockInSlotsIff | Polarlight-Sunshine/src/stream.cpp:1487-1488 | the encoder sees exactly the block's payloads if and only if their sizes agree |
| AudioSender.GroupIsBlock | Polarlight-Sunshine/src/stream.cpp:1479-1488 | a group of a run whose first packet was sent and whose sizes agree is the run of consecutive sequence numbers from its base, across the wrap |
| AudioSender.BaseIff | Polarlight-Sunshine/src/stream.cpp:1479-1484 | exactly when the base a group carries names its block |
| AudioSender.UnequalSizes | Polarlight-Sunshine/src/stream.cpp:1487-1488 | a run of two packets whose parity is not over its block |
| AudioSender.UnsentStart | Polarlight-Sunshine/src/stream.cpp:1479-1484 | a block of four whose first packet is not sent: its parity carries the base that was there before |
| RtspServer.Server.Bind | Polarlight-Sunshine/src/rtsp.cpp:234-241 | all slots empty, all counted free |
| RtspServer.Server.SessionRaise | Polarlight-Sunshine/src/rtsp.cpp:317-327 | a live pending launch is kept; a timed-out one is lost; the balance holds |
| RtspServer.KeptIs | Polarlight-Sunshine/src/rtsp.cpp:351-359 | without `all` running sessions keep their slots and stopping ones lose them; with it all do |
| RtspServer.Server.Clear | Polarlight-Sunshine/src/rtsp.cpp:336-366 | running sessions stay in place and run on, stopping ones are out and have lived to the end, and so are all if asked; a timed-out launch is discarded; each gives its slot back |
| RtspServer.Server.EndSession | Polarlight-Sunshine/src/rtsp.cpp:351-358 | one session stopped, joined and removed |
| RtspServer.Server.ClearSlot | Polarlight-Sunshine/src/rtsp.cpp:368-375 | one slot emptied and given back |
| RtspServer.Server.Accept | Polarlight-Sunshine/src/rtsp.cpp:377-389 | the first free slot, or none |
| RtspServer.FullIff | Polarlight-Sunshine/src/rtsp.cpp:381-388 | the scan finds no slot exactly when as many are occupied as there are |
| RtspServer.Server.Admit | Polarlight-Sunshine/src/rtsp.cpp:730-752 | a new session takes the first free slot and runs, or its slot is given back, or there is none |
| RtspServer.Server.Announce | Polarlight-Sunshine/src/rtsp.cpp:596-755 | each reply and when it is given, what is lost, where the session goes; with a non-negative counter it never runs out of slots |
| RtspServer.Server.StopSession | Polarlight-Sunshine/src/stream.cpp:2016-2028 | only running sessions start stopping |
| RtspServer.Server.JoinSession | Polarlight-Sunshine/src/stream.cpp:2101-2104 | the stop callback exactly for the last session |
| RtspServer.Server.StartSession | Polarlight-Sunshine/src/stream.cpp:2158-2163 | stopped becomes running, the start callback exactly for the first session |
| RtspServer.TracksNext | Polarlight-Sunshine/src/stream.cpp:2016-2163 | a session coming to its next state keeps all lives in order and every running session in a slot |
| RtspServer.Server.CheckAction | Polarlight-Sunshine/src/export_apis.cpp:194-238 | the reply codes, and that passing the checks means a free slot |
| RtspServer.Server.RunSession | Polarlight-Sunshine/src/export_apis.cpp:240-269 | raising behind the checks keeps the counter from going negative; a missing argument throws before the raise and changes nothing |
| RtspServer.Server.Dispatch | Polarlight-Sunshine/src/rtsp.cpp:770-807 | when each event does something, what it answers and what it does to the slots |
| RtspServer.SessionFate | Polarlight-Sunshine/src/rtsp.cpp:336-366 | over any run: a running session that nothing disturbs is still in its slot and running; one that was, above all stopped, is in no slot after the next clean-up |
| RtspServer.Server.Serve | Polarlight-Sunshine/src/rtsp.cpp:770-807 | any interleaving keeps slot balance, session counts, alternating callbacks and a non-negative counter; "Ran out of slots" is never replied; exactly the overwritten and badly announced launches are lost, and once all slots are, every check answers 503; each session goes from stopped to running to stopping, keeps its slot while undisturbed, and is out after the next clean-up otherwise |
| RtspServer.BadRequestLosesSlot | Polarlight-Sunshine/src/rtsp.cpp:596-727 | a run that loses the only slot, after which every client action is refused |
| RtspServer.OverwrittenAtTimeout | Polarlight-Sunshine/src/rtsp.cpp:317-327 | a run that loses a launch at exactly its timeout |
| ThreadSafe.BoundedQueue.RaiseItem | Polarlight-Sunshine/src/thread_safe.h:246-262 | a full queue drops everything, then takes the item |
| ThreadSafe.BoundedQueue.PopItem | Polarlight-Sunshine/src/thread_safe.h:269-310 | what comes out is the oldest accepted item still held |
| ThreadSafe.BoundedQueue.StopQueue | Polarlight-Sunshine/src/thread_safe.h:348-355 | after it, no sequence of operations changes the queue |
| ThreadSafe.StoppedForGood | Polarlight-Sunshine/src/thread_safe.h:246-310 | a stopped queue neither takes nor gives out anything |
| ThreadSafe.RaisedOnly | Polarlight-Sunshine/src/thread_safe.h:246-262 | with nobody popping, the queue holds what is left over from whole fillings, in order |
| ThreadSafe.TraceInOrder | Polarlight-Sunshine/src/thread_safe.h:238-340 | over any trace the content is the run of accepted items up to the newest, deliveries strictly ordered before it, capacity kept |
| ThreadSafe.BoundIff | Polarlight-Sunshine/src/thread_safe.h:255-259 | the bound holds on all traces exactly for a capacity of at least one |
| ThreadSafe.Shared.Ref | Polarlight-Sunshine/src/thread_safe.h:461-475 | only the first reference constructs; a failed one gives a null handle and changes nothing else |
| ThreadSafe.Shared.Copy | Polarlight-Sunshine/src/thread_safe.h:393-401 | the copy of a live handle counts once, through a temporary |
| ThreadSafe.Shared.Move | Polarlight-Sunshine/src/thread_safe.h:388-391 | the handle passes on, the count stays |
| ThreadSafe.Shared.Release | Polarlight-Sunshine/src/thread_safe.h:435-445 | the last release destroys |
| ThreadSafe.Shared.MoveAssign | Polarlight-Sunshine/src/thread_safe.h:414-423 | releases the target first, also when it is the source |
| ThreadSafe.UsesSound | Polarlight-Sunshine/src/thread_safe.h:372-485 | over any sequence: count is the number of live handles, the object exists exactly while it is positive, constructions and destructions alternate |
| LaunchSaga.Find | Polarlight-Sunshine/src/process.cpp:90-97 | the first application with the id, or none |
| LaunchSaga.UndoRunIs | Polarlight-Sunshine/src/process.cpp:199-235 | exactly the non-empty undo commands of what stands, last first |
| LaunchSaga.DoRunIs | Polarlight-Sunshine/src/process.cpp:127-148 | every do-command, in list order |
| LaunchSaga.SpawnRunIs | Polarlight-Sunshine/src/process.cpp:150-160 | every detached command, in list order |
| LaunchSaga.Process.Terminate | Polarlight-Sunshine/src/process.cpp:199-235 | runs the non-empty undo commands of what still stands, last first, and nothing is left |
| LaunchSaga.Process.Prepare | Polarlight-Sunshine/src/process.cpp:127-148 | do-commands in list order up to the first failure |
| LaunchSaga.Process.Execute | Polarlight-Sunshine/src/process.cpp:85-183 | the exact log of a launch in every outcome; a failing do-command is never undone |
| LaunchSaga.Process.Running | Polarlight-Sunshine/src/process.cpp:185-197 | a dead child is cleaned up after, once |
| LaunchSaga.Process.Live | Polarlight-Sunshine/src/process.cpp:85-235 | over any calls and failures the log stays bracketed; after a terminate nothing is owed and another runs nothing |
| LaunchSaga.UndoneOnce | Polarlight-Sunshine/src/process.cpp:199-235 | in a bracketed log each undo ran once per completed command, less those still owed |
| ConfigFile.ToString | Polarlight-Halo/src/config.cpp:491-505 | the text without its comments, terminating on every input |
| ConfigFile.UncommentedIs | Polarlight-Halo/src/config.cpp:491-505 | what is left are exactly the characters in no comment, in order, over several lines as well |
| ConfigFile.SkipList | Polarlight-Halo/src/config.cpp:507-523 | stops behind the bracket that closes the list, or at the end |
| ConfigFile.SkipIff | Polarlight-Halo/src/config.cpp:507-523 | a list inside a file is skipped to its end exactly when its first bracket closes at its last character |
| ConfigFile.HandWritten | Polarlight-Halo/src/config.cpp:525-580 | a line with space in front, blanks around the sign, a comment and either line end is read as its key and value, and reading goes on behind it |
| ConfigFile.NoSetting | Polarlight-Halo/src/config.cpp:525-580 | a line without a sign in front of its comment makes no setting and is passed over |
| ConfigFile.LineIff | Polarlight-Halo/src/config.cpp:525-560 | a printed line reads back as printed, and reading goes on at its end, exactly for good keys and values |
| ConfigFile.ParseConfig | Polarlight-Halo/src/config.cpp:562-586 | the loop reads option by option, first value kept, terminating on every input |
| ConfigFile.PrintConfig | Polarlight-Halo/src/confighttp.cpp:642-646 | one line per entry that is neither empty nor `null` |
| ConfigFile.ParsePrinted | Polarlight-Halo/src/config.cpp:562-586 | parsing what was printed ends with the first saved entry of each key, multi-line lists included |
| ConfigFile.PrintExample | Polarlight-Halo/src/confighttp.cpp:642-646 | one setting, an empty one and a `null` as they stand in the file |
| ConfigFile.FirstSettingCounts | Polarlight-Halo/src/config.cpp:562-586 | saving and loading with repeated keys: for each key the first entry that is neither empty nor `null`, and nothing else |
| ConfigFile.RoundTrip | Polarlight-Halo/src/config.cpp:562-586 | saving and loading with distinct keys: exactly the entries that are neither empty nor `null` |

## Left out

- ThreadPool.NoLostWakeup: assumes no deadline is brought forward; `ThreadPool.DelayKeepsCoverIff` says what else a delay may do.
- PoolHistory.ShutdownDrains: assumes that after `stop` only running tasks push; a task pushed from outside once all workers are gone stays queued.
- PoolHistory.FiringOrder: assumes pushes in order of the firings, as readings of any age need; `PoolHistory.FreshFiringOrder` needs only that no timer fires between reading and push.
- Packetizer.InsertHeaders: requires a non-empty frame, since the element count minus one wraps around for an empty one; the sender always puts an 8-byte frame header in front. Every slot gets the same bytes, as the sender's callback ignores its arguments.
- VideoSender.Sender.SendFrame: requires a block larger than the packet header. A client-chosen packet size of 1 to 16 makes them equal and the program divide by zero; at 0 or below the block is the smaller one, and the payload size wraps around.
- VideoWire.WireReceived: assumes that the header fields are wide enough for the frame; `VideoSender.InfoReadable` says when they are.
- VideoSender.Sender.MakeBatch: encryption of the finished shards is left out; it is applied to whole shards, headers included.
- AudioSender.Sender.Send: encoding and encrypting a payload happens before and is not modelled; a payload that cannot be encoded ends the thread.
- ThreadSafe.BoundedQueue.PopItem: an empty queue answers at once; waiting, timeouts and the predicate that ends a wait are not modelled.
- RtspServer.Server.Announce: the request is one flag, valid or not, standing for the parameter lookups and the HEVC check, which reply alike.
- ThreadSafe.Shared.Ref: `_count` has no initialiser; the model starts from zero, as for objects of static storage. Copy assignment of a handle is not modelled: it calls an operator the handle type does not have.
- ThreadPool: `pop(task_id)`, which leaves a moved-out entry in the vector, the `pushDelayed` overload that does not notify, restarting after `stop`, and the thread objects themselves.
- ThreadSafe: waiting and notification in the queue's and the event's pop, the alarm, and the mailbox registry; the launch event is the `pending` flag of the RTSP server.
- VideoSender: the reset of `lowseq` when a video thread restarts, overflow of the `int` counter past 2^31.
- Fec: the Reed-Solomon arithmetic, which is a parameter; the largest shard count comes from its header, which is not part of this model.
- RtspServer: RTSP framing and parsing, session threads, port claiming and connection lists; bind is modelled without socket errors.
- LaunchSaga: working directories, output pipes, reloading the application list while an application runs.
- ConfigFile: typed option readers and the web server around the print loop.
- Pairing, capture, encoders, input and platform code.
