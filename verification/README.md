# Two game servers, their concurrent core

A Dafny model of the parts of two C++ servers whose correctness is not visible in any single function: the
IOCP network core (lock-order profiler, send-buffer chunks, session send pipeline, packet framing, memory
pools) and the MMO server built on such a core (game room, room directory, map-change handshake).

Each component has a specification, one function per step of the program, with lemmas about every run of
those steps; and beside it, where the C++ updates an object in place, a class with the same fields whose
methods are proved to take those steps. Threads appear as interleaved steps. What a mutex protects is
one step, and everything between two locked sections is a place where any other thread may run.

| file | models |
|---|---|
| `LockGraph`, `DeadLockProfiler`, `LockOrderRuns` | the lock-order graph, the depth-first search with discovery order, finished flags and parent links, and all interleavings of PushLock and PopLock |
| `SendBuffers`, `SendBufferRuns`, `SendBufferEffects`, `SendBufferManager` | thread-local bump allocation out of shared chunks, reference counting, recycling through the global pool |
| `SendBatch`, `SendPipeline`, `Session` | queue, backlog ledger, caps, greedy batching and the `_sendRegistered` flag |
| `PacketFraming`, `PacketSession`, `PacketPrinter`, `EndToEnd` | the streaming parser over the receive buffer, MakeSendBuffer, and both ends together |
| `Headings`, `GameRoomState`, `GameRoomRuns`, `GameRoomEffects`, `GameRoom` | registration, grid zones, mutual visibility, and the server-authoritative move |
| `RoomDirectory`, `RoomManager` | double-checked get-or-create and the two-phase purge |
| `MapChange` | the handshake NONE, WAITING_ACK, SWITCHING |
| `MemoryPools`, `Memory` | the size-class table, Allocate and Release |

The bodies of RecvBuffer (Clean, OnRead, OnWrite) and MemoryPool (Push, Pop), and the fact that Lock reports to
the profiler before it starts to acquire, follow RecvBuffer.cpp, MemoryPool.cpp and Lock.cpp in
IocpChatServer/IocpChatServer/ServerCore; their rows below cite the places that call them.

`dafny verify dfyconfig.toml` checks everything.

## Where the code does not do what it says

Each of these is a lemma with the exact condition, or a concrete input.

- PopLock is documented to crash unless the name is the lock on top (DeadLockProfiler.cpp:56-59). A name that
  was never pushed stands for id 0, so it pops lock 0 (`PopChecksNameUnlessUnknown`). From then on two names
  share an id and a real deadlock goes unnoticed (`UnknownNameHidesDeadlock`).
- The lock macros pass the name of the class (CoreMacro.h:13-16 in ServerCore), so all locks of a class share one
  id, and two objects of one class taken in opposite orders deadlock unnoticed (`SharedNameHidesDeadlock`). The
  profiler can be relied on exactly when pops name locks pushed before and no two locks share a name
  (`GuardedIff`); with shared names, `NoCircularWait` says which circles remain possible.
- The table is documented to serve sizes up to about 4096. `size` carries over between the loops, so the last
  pool is 3872, and sizes 3873 to 4096 (header included) meet an entry nothing was stored in
  (`PoolsEndAt3872`, `Memory.Allocate`).
- The loop of OnRecv has no lower bound on the header's size and never ends on a size of 0
  (`HangsIffZeroSizeMet`). Everything else about the parser is proved for all streams, such ones included.
- RegisterSend that finds the connection gone, and a completion of zero bytes, leave `_sendRegistered` set with
  nobody active; after a new connect nothing is ever sent again (`StallsIff`, `StalledForGood`,
  `ReconnectStalls`). `NoLostWakeUp` gives the exact condition over all runs.
- The hard cap of 256 waiting buffers never rejects anything; the soft cap of 128 always does so first
  (`CountCapNeverRejects`).
- When ValidateMove answers a position outside the grid, HandleMove returns without correcting the owner and
  without remembering the packet (`OwnerConvergesIff`).
- A SendBuffer closed twice can take bytes of its neighbours (`CloseSharesIff` says exactly when; two runs show
  it), and one dropped before Close leaves its thread unable to open another (`StuckForGood`). The results about
  runs let each buffer be closed once, which is what MakeSendBuffer does.

## Model

| member | source | states |
|---|---|---|
| `LockGraph.RankedIsAcyclic` | IocpChatServer/IocpChatServer/ServerCore/DeadLockProfiler.cpp:79-97 | A numbering that falls along every edge (here: the order in which vertices finished) proves there is no closed walk |
| `LockGraph.NewEdgeClosesCycle` | IocpChatServer/IocpChatServer/ServerCore/DeadLockProfiler.cpp:39-50 | A graph that had no cycle has one after adding the edge u -> v exactly when v already reached u |
| `DeadLockProfiler.Discover` | IocpChatServer/IocpChatServer/ServerCore/DeadLockProfiler.cpp:113-114 | Marking an undiscovered vertex extends the chain of unfinished ancestors by it and keeps the search state |
| `DeadLockProfiler.LaterIsFinished` | IocpChatServer/IocpChatServer/ServerCore/DeadLockProfiler.cpp:130-138 | A neighbour discovered after the current vertex has finished; an unfinished neighbour is an ancestor. So the two tests skip exactly the forward and cross edges |
| `DeadLockProfiler.PrintedCycleIsACycle` | IocpChatServer/IocpChatServer/ServerCore/DeadLockProfiler.cpp:137-157 | Printed edges that each lead into the previous one and close at the end are a closed walk of the graph |
| `DeadLockProfiler.DeadLockProfiler.ReportCycle` | IocpChatServer/IocpChatServer/ServerCore/DeadLockProfiler.cpp:139-155 | On a back edge the walk over the parent links ends, every printed edge is a recorded one, and together they go around |
| `DeadLockProfiler.DeadLockProfiler.Dfs` | IocpChatServer/IocpChatServer/ServerCore/DeadLockProfiler.cpp:108-159 | The recursive search ends; it either prints a genuine cycle, or finishes the vertex and everything reachable with no edge leading to a later finisher |
| `DeadLockProfiler.DeadLockProfiler.Explore` | IocpChatServer/IocpChatServer/ServerCore/DeadLockProfiler.cpp:119-157 | One round of the neighbour loop: the neighbour is finished afterwards or a cycle has been printed |
| `DeadLockProfiler.DeadLockProfiler.CheckCycle` | IocpChatServer/IocpChatServer/ServerCore/DeadLockProfiler.cpp:79-97 | Crashes if and only if the recorded graph has a cycle, for every finite graph without self-loops |
| `DeadLockProfiler.DeadLockProfiler.PushLock` | IocpChatServer/IocpChatServer/ServerCore/DeadLockProfiler.cpp:18-54 | Registers the name, records last held -> requested, and crashes exactly when that new edge closes a cycle; otherwise the whole new state |
| `DeadLockProfiler.DeadLockProfiler.RecordOrder` | IocpChatServer/IocpChatServer/ServerCore/DeadLockProfiler.cpp:30-50 | A self edge and a known edge are not searched again; a new one crashes if and only if it closes a cycle |
| `DeadLockProfiler.DeadLockProfiler.PopLock` | IocpChatServer/IocpChatServer/ServerCore/DeadLockProfiler.cpp:60-72 | The whole new state, and the crash with its cause, including the id that `operator[]` inserts for a name it does not know |
| `LockBook.PushKeepsWellFormed` | IocpChatServer/IocpChatServer/ServerCore/DeadLockProfiler.cpp:18-54 | Ids stay below the number of names, each prints as a name that maps back to it, and graph and stacks only hold such ids |
| `LockOrderRuns.RunsStaySafe` | IocpChatServer/IocpChatServer/ServerCore/DeadLockProfiler.cpp:18-72 | Over every interleaving of PushLock and PopLock by any threads, as long as nothing crashed, the graph is acyclic and covers every stack |
| `LockOrderRuns.HeldReachesLater` | IocpChatServer/IocpChatServer/ServerCore/DeadLockProfiler.cpp:29-53 | Every lock on a stack reaches, along recorded orders, every different lock pushed above it |
| `LockOrderRuns.NoCircularWait` | IocpChatServer/IocpChatServer/ServerCore/DeadLockProfiler.cpp:18-72 | PushLock comes before acquiring, so after any run of calls for lock objects that has not crashed and whose pops name locks pushed before, threads can wait for each other in a circle only if one of them asks for an object while it holds another of the same name |
| `LockOrderRuns.GuardedIff` | IocpChatServer/IocpChatServer/ServerCore/DeadLockProfiler.cpp:18-72 | After any run that has not crashed, no continuation hides a circle of waiting threads if and only if every pop so far named a lock pushed before and no two lock objects have one name: otherwise two idle threads can take two objects in opposite orders with no edge recorded and no crash |
| `LockOrderRuns.ReliableIffOneNameEach` | IocpChatServer/IocpChatServer/ServerCore/DeadLockProfiler.cpp:18-72 | From the start, the profiler can be relied on if and only if every lock object has a name of its own |
| `LockOrderRuns.SharedNameHidesDeadlock` | IocpChatServer/IocpChatServer/ServerCore/DeadLockProfiler.cpp:41-50 | A concrete run of four calls for two objects of one class: two threads wait for each other, nothing is recorded and nothing crashes |
| `LockOrderRuns.UnknownNameHidesDeadlock` | IocpChatServer/IocpChatServer/ServerCore/DeadLockProfiler.cpp:60-72 | A concrete run of six calls for two locks with names of their own, one of them popped before it was ever pushed, in which two threads wait for each other and nothing crashes |
| `LockOrderRuns.NamesStayDistinctIff` | IocpChatServer/IocpChatServer/ServerCore/DeadLockProfiler.cpp:60-72 | Over any run names keep ids of their own if and only if every pop names a lock pushed before |
| `LockOrderRuns.CrashesOnInversion` | IocpChatServer/IocpChatServer/ServerCore/DeadLockProfiler.cpp:39-50 | In a reachable state a push crashes if and only if the requested lock is already recorded, directly or through others, as coming before the last held one |
| `LockOrderRuns.HistoryIsWhatWasObserved` | IocpChatServer/IocpChatServer/ServerCore/DeadLockProfiler.cpp:29-50 | After any run the graph is exactly the set of orders the run exhibited |
| `LockOrderRuns.PopChecksNameUnlessUnknown` | IocpChatServer/IocpChatServer/ServerCore/DeadLockProfiler.cpp:60-72 | The check "only the lock on top may be popped" holds exactly when it is not the case that the name is unknown and id 0 is on top |
| `LockOrderRuns.PopEndsHow` | IocpChatServer/IocpChatServer/ServerCore/DeadLockProfiler.cpp:64-71 | Over every run with known pops: a thread that has pushed nothing crashes for unlocking too often, one whose last push was another name for unlocking out of order, and any other pop succeeds |
| `LockOrderRuns.PushEndsHow` | IocpChatServer/IocpChatServer/ServerCore/DeadLockProfiler.cpp:154 | The only crash of a push is the one for a deadlock |
| `LockOrderRuns.PopKeepsNamesDistinctIffKnown` | IocpChatServer/IocpChatServer/ServerCore/DeadLockProfiler.cpp:66-68 | A successful pop keeps one id per name if and only if the name had been pushed before |
| `LockOrderRuns.UnknownNamePopsFirstLock` | IocpChatServer/IocpChatServer/ServerCore/DeadLockProfiler.cpp:60-72 | A concrete run: lock 10 is pushed, the unknown name 99 is popped without a crash and from then on shares id 0 |
| `SendBuffers.Spliced` | IocpChatServer/CodeSample/SendBuffer.cpp:10-15 | Writing through Buffer() changes exactly the addressed bytes |
| `SendBufferRuns.InstallKeepsSound` | IocpChatServer/CodeSample/SendBuffer.cpp:89-108 | Replacing a thread's chunk, resetting the new one and releasing the old one keeps every invariant |
| `SendBufferRuns.CutKeepsSound` | IocpChatServer/CodeSample/SendBuffer.cpp:59-69 | A new buffer starts where the last one ended and overlaps no live one |
| `SendBufferRuns.CloseKeepsSound` | IocpChatServer/CodeSample/SendBuffer.cpp:26-31 | Advancing the chunk by what was written gives the rest back and keeps all live buffers apart |
| `SendBufferRuns.DropKeepsSound` | IocpChatServer/CodeSample/SendBuffer.cpp:113-131 | When the last reference to a chunk goes, its deleter gets it, with no live buffer in it |
| `SendBufferRuns.ReturnKeepsSound` | IocpChatServer/CodeSample/SendBuffer.cpp:134-145 | The deleter's push puts it into the pool, once; any step of any thread may come before |
| `SendBufferRuns.RunsStaySound` | IocpChatServer/CodeSample/SendBuffer.cpp:26-145 | All of this holds over every interleaving of take, install, cut, write, close, drop and thread exit |
| `SendBufferRuns.RunsGoOn` | IocpChatServer/CodeSample/SendBuffer.cpp:26-145 | A run is never cut short by its own invariant: every allowed step of any thread extends it |
| `SendBufferRuns.NoSharedByte` | IocpChatServer/CodeSample/SendBuffer.cpp:26-78 | In every reachable heap no byte belongs to two live buffers, and none lies outside its chunk |
| `SendBufferRuns.NoChunkLostOrPooledTwice` | IocpChatServer/CodeSample/SendBuffer.cpp:113-145 | In every reachable heap each created chunk is in the pool exactly once or referenced (by a thread, a live buffer, or the deleter on its way to the pool), never both and never neither |
| `SendBufferRuns.ResetHitsNoLiveBuffer` | IocpChatServer/CodeSample/SendBuffer.cpp:50-54 | The chunk a thread is about to reset holds no live buffer |
| `SendBufferRuns.ClosedContentsAreStable` | IocpChatServer/CodeSample/SendBuffer.cpp:26-145 | A closed buffer's bytes stay as written, whatever any thread does, until its last reference goes |
| `SendBufferRuns.ManagerOpenServes` | IocpChatServer/CodeSample/SendBuffer.cpp:89-108 | Open never answers null; it succeeds if and only if the size fits a chunk and the thread's chunk is not marked open |
| `SendBufferEffects.OpenCutsInPlace` | IocpChatServer/CodeSample/SendBuffer.cpp:89-108 | A request is cut at the used end of the thread's own chunk while that has room; only otherwise at the start of the chunk pooled last or, with an empty pool, of a new one |
| `SendBufferEffects.TakeRecycles` | IocpChatServer/CodeSample/SendBuffer.cpp:113-131 | A pop makes a new chunk if and only if every chunk there is is in use; otherwise it takes the one pooled last and only that one |
| `SendBufferEffects.ChunksArePeakUse` | IocpChatServer/CodeSample/SendBuffer.cpp:113-145 | Over every run there are never more chunks than were in use at once: at some moment there were as many as at the end, all of them referenced |
| `SendBufferEffects.InstallReplaces` | IocpChatServer/CodeSample/SendBuffer.cpp:94-105 | The popped chunk becomes the thread's own, empty; the one it had goes to its deleter if and only if no live buffer needs it |
| `SendBufferEffects.DropReturnsIff` | IocpChatServer/CodeSample/SendBuffer.cpp:17-21 | Dropping a buffer sends its chunk to the deleter if and only if no other buffer and no thread refers to it |
| `SendBufferEffects.ExitReturnsIff` | IocpChatServer/CodeSample/SendBuffer.cpp:127-145 | A thread's end sends its chunk to the deleter if and only if no live buffer needs it |
| `SendBufferEffects.ReturnPools` | IocpChatServer/CodeSample/SendBuffer.cpp:134-145 | The deleter's push makes the chunk the next one to be popped |
| `SendBufferEffects.CloseAdvances` | IocpChatServer/CodeSample/SendBuffer.cpp:26-31 | Close is refused exactly for more than was reserved or a chunk that is not open; otherwise the chunk advances by what was written |
| `SendBufferRuns.StuckForGood` | IocpChatServer/CodeSample/SendBuffer.cpp:59-69 | Once a thread's chunk is marked open with no open buffer left, every later Open of that thread crashes, whatever the others do |
| `SendBufferRuns.DroppedOpenIsStuck` | IocpChatServer/CodeSample/SendBuffer.cpp:17-21 | A run from the empty heap that gets there: a buffer is dropped before Close |
| `SendBufferRuns.CloseKeepsSoundIff` | IocpChatServer/CodeSample/SendBuffer.cpp:26-31 | A Close that passes the code's two assertions keeps the heap invariant if and only if the buffer was not closed yet, or nobody has one open in the chunk, the bytes it would claim meet no other live buffer's, and the chunk is not overrun |
| `SendBufferRuns.CloseSharesIff` | IocpChatServer/CodeSample/SendBuffer.cpp:26-31 | Such a Close puts a byte into two live buffers if and only if another live buffer of the chunk has a byte in the range it claims |
| `SendBufferRuns.CloseTwiceShares` | IocpChatServer/CodeSample/SendBuffer.cpp:26-31 | A second Close of an earlier buffer with a larger size makes it share the open next buffer's first byte |
| `SendBufferRuns.SecondCloseSharesWithOpen` | IocpChatServer/CodeSample/SendBuffer.cpp:26-31 | A run from the empty heap that ends just before such a Close |
| `SendBufferRuns.SecondCloseSharesWithClosed` | IocpChatServer/CodeSample/SendBuffer.cpp:26-31 | A run from the empty heap after which a second Close succeeds with no buffer open, because one was dropped open, and takes bytes of a closed neighbour |
| `SendBufferManager.SendBufferManager.Pop` | IocpChatServer/CodeSample/SendBuffer.cpp:113-131 | Takes the last pooled chunk, and makes a new one only if the pool is empty |
| `SendBufferManager.SendBufferManager.Refill` | IocpChatServer/CodeSample/SendBuffer.cpp:96-105 | The popped chunk becomes the thread's current one, reset, and the old one loses its reference |
| `SendBufferManager.SendBufferManager.Open` | IocpChatServer/CodeSample/SendBuffer.cpp:89-108 | The steps in order amount to ManagerOpen, whose service ManagerOpenServes states |
| `SendBufferManager.SendBufferManager.Close` | IocpChatServer/CodeSample/SendBuffer.cpp:26-31 | Crashes on a size above the reservation or a chunk that is not open; otherwise the whole new state, for a second Close too, and exactly when it is still sound |
| `SendBufferManager.SendBufferManager.Drop` | IocpChatServer/CodeSample/SendBuffer.cpp:134-145 | Forgets the buffer; its chunk goes through the deleter into the pool exactly when nobody refers to it any more |
| `SendBatch.BatchIsLargestPrefix` | IocpChatServer/CodeSample/Session.cpp:226-246 | A prefix fits one WSASend (32 KB and 64 buffers, the first one exempt from the bytes) if and only if it is no longer than the batch taken |
| `SendBatch.EnqueueKeepsLedger` | IocpChatServer/CodeSample/Session.cpp:42-63 | The byte and buffer ledger stays the queue's true size within 128 KB and 256 buffers |
| `SendBatch.GatherKeepsLedger` | IocpChatServer/CodeSample/Session.cpp:226-246 | Moving a batch out subtracts exactly what left |
| `SendPipeline.StepKeepsOneOwner` | IocpChatServer/CodeSample/Session.cpp:214-366 | After any step of any thread at most one thread or pending WSASend owns the send event, and the flag is set while one does |
| `SendPipeline.RunsStaySound` | IocpChatServer/CodeSample/Session.cpp:31-385 | Ledger, order, single ownership and the meaning of the flag hold after every interleaving of senders, completions, failures, disconnects and reconnects |
| `SendPipeline.AcceptedInOrder` | IocpChatServer/CodeSample/Session.cpp:60-68 | Accepted buffers are at all times the batches gone, the batch in flight and the queue, end to end: nothing is lost, repeated or reordered |
| `SendPipeline.LedgerMatchesQueue` | IocpChatServer/CodeSample/Session.cpp:42-63 | In every reachable state the ledger equals the queue and respects both hard caps |
| `SendPipeline.SendAcceptsIff` | IocpChatServer/CodeSample/Session.cpp:42-68 | In every reachable state a buffer is appended to the queue if and only if with it at most 128 KB and 256 buffers wait and, while a WSASend is registered, less than 64 KB and 128 buffers waited; otherwise nothing changes |
| `SendPipeline.SendNeedsConnection` | IocpChatServer/CodeSample/Session.cpp:33-34 | Send goes on to the queue if and only if it finds the session connected |
| `SendPipeline.BatchesLeaveWhole` | IocpChatServer/CodeSample/Session.cpp:260-271 | A batch leaves the send event whole, sent or lost, and nothing else leaves the session |
| `SendPipeline.LostOnlyByFailure` | IocpChatServer/CodeSample/Session.cpp:260-271 | In a run without failed WSASends and zero-byte completions every batch gone was sent |
| `SendPipeline.OneSendAtATime` | IocpChatServer/CodeSample/Session.cpp:214-272 | WSASend is never issued while another is outstanding, never with an empty batch, and only by the single owner |
| `SendPipeline.NoLostWakeUp` | IocpChatServer/CodeSample/Session.cpp:65-72 | In every reachable state with a buffer waiting, the flag is set if and only if no WSASend failed since the last accept, and some thread or pending WSASend will come back for the buffer if and only if, besides, nothing was stranded on the way |
| `SendPipeline.StallsIff` | IocpChatServer/CodeSample/Session.cpp:214-217 | The flag is left behind with nobody active by exactly two steps, RegisterSend turning back without a connection and a completion of zero bytes, and no step of anybody takes that back |
| `SendPipeline.StalledForGood` | IocpChatServer/CodeSample/Session.cpp:31-385 | From then on, in every run, no batch goes out and no buffer leaves the queue |
| `SendPipeline.StrandedMeansReconnected` | IocpChatServer/CodeSample/Session.cpp:278-291 | Within one connection this does not happen: whoever is connected after something was stranded has connected again since |
| `SendPipeline.StalledIffStranded` | IocpChatServer/CodeSample/Session.cpp:214-217 | Over any run the send side is stalled at the end if and only if it was at the start or one of those two steps occurred |
| `SendPipeline.ReconnectStalls` | IocpChatServer/CodeSample/Session.cpp:214-217 | A concrete run: the connection goes between queueing and RegisterSend, and after reconnecting the buffer stays first in the queue and nothing is sent in any continuation |
| `SendPipeline.FailureLeavesQueueUnwatched` | IocpChatServer/CodeSample/Session.cpp:260-271 | After a failed WSASend with buffers waiting, nobody is responsible for them until the next Send |
| `SendPipeline.CountCapNeverRejects` | IocpChatServer/CodeSample/Session.cpp:42-58 | The hard count cap of 256 never decides: at most 129 buffers ever wait |
| `SendPipeline.OneRound` | IocpChatServer/CodeSample/Session.cpp:214-366 | One round of the owner with a successful completion sends exactly the greedy batch and either clears the flag or stays responsible |
| `SendPipeline.QueueDrains` | IocpChatServer/CodeSample/Session.cpp:214-366 | In every run without new accepts, failures or disconnects, from any state that is connected and not stalled, each completion pays one of the WSASends owed and each step of whichever thread holds the turn one of the steps left; with none left, everything accepted has gone and the flag is free |
| `SendPipeline.DrainingGoesOn` | IocpChatServer/CodeSample/Session.cpp:214-366 | While anything is owed, some thread can take such a step |
| `SendPipeline.RoundsDrain` | IocpChatServer/CodeSample/Session.cpp:347-366 | One schedule that does it: one thread, one round after another, at most as many rounds as there are buffers |
| `Session.Session.Push` | IocpChatServer/CodeSample/Session.cpp:42-68 | The locked section of Send: the buffer goes to the end of the queue exactly when the caps, as numbers of bytes and buffers waiting, allow it; claims registration if nobody had; the step Push of every state of the pipeline |
| `Session.Session.GatherBatch` | IocpChatServer/CodeSample/Session.cpp:223-247 | The batching loop gathers the greedy batch and updates queue and ledger |
| `Session.Session.MoveBatch` | IocpChatServer/CodeSample/Session.cpp:226-246 | The loop's exits and counters amount to the largest prefix within the limits |
| `Session.Session.ProcessSend` | IocpChatServer/CodeSample/Session.cpp:347-366 | Releases the batch; zero bytes disconnects, otherwise the flag is cleared exactly when the queue is empty; the steps Complete and Settle of every state of the pipeline |
| `Session.Session.SendFailed` | IocpChatServer/CodeSample/Session.cpp:260-271 | Drops the batch, clears the flag, and disconnects on a connection reset; the steps SubmitFails and Recover of every state of the pipeline |
| `PacketFraming.FrameRoundTrip` | IocpChatServer/IocpChatServer/ChatServer/ClientPacketHandler.h:50-54 | A frame's header gives its length, and reading it back gives the id and payload |
| `PacketFraming.ParsePreservesBytes` | IocpChatServer/CodeSample/Session.cpp:404-429 | Packets cut off plus what is kept are the bytes received, in order |
| `PacketFraming.RestIsUnfinished` | IocpChatServer/CodeSample/Session.cpp:404-429 | What is kept holds no complete packet and is shorter than the largest one |
| `PacketFraming.ParseContinues` | IocpChatServer/CodeSample/Session.cpp:404-429 | Parsing the kept bytes with new ones behind continues exactly where the first parse stopped, for every byte stream |
| `PacketFraming.ChunkingDoesNotMatter` | IocpChatServer/CodeSample/Session.cpp:311-340 | However the stream is cut into completions, the packets, the tail and the question whether it hangs are those of one parse of the whole |
| `PacketFraming.FramesRoundTrip` | IocpChatServer/CodeSample/Session.cpp:404-429 | Any list of frames followed by a strict prefix of one more parses to exactly those frames and that prefix |
| `PacketFraming.HangsIffZeroSizeMet` | IocpChatServer/CodeSample/Session.cpp:409-426 | The loop never ends if and only if following the nonzero sizes from the first header, inside the stream, leads to a header that states 0 |
| `PacketFraming.ZeroSizeHangs` | IocpChatServer/CodeSample/Session.cpp:409-426 | A concrete stream on which it does not end |
| `PacketSession.RecvBuffer.Clean` | IocpChatServer/CodeSample/Session.cpp:335-339 | Keeps the unread bytes; afterwards a block is free unless the unread bytes themselves take it |
| `PacketSession.RecvBuffer.OnRead` | IocpChatServer/CodeSample/Session.cpp:327-333 | Refuses exactly more than is buffered |
| `PacketSession.RecvBuffer.OnWrite` | IocpChatServer/CodeSample/Session.cpp:321-325 | Refuses exactly more than is free |
| `PacketSession.PacketSession.OnRecv` | IocpChatServer/CodeSample/Session.cpp:404-429 | The in-place loop computes the parse: packets handed over, bytes consumed, or stuck |
| `PacketSession.PacketSession.ProcessRecv` | IocpChatServer/CodeSample/Session.cpp:311-340 | A completion, connected or not, feeds the stream parser; neither overflow disconnect is ever taken, and a full block is free again afterwards |
| `PacketPrinter.MadeIffItFits` | IocpChatServer/IocpChatServer/ChatServer/ClientPacketHandler.h:76-90 | A send buffer is made if and only if payload and header fit a 6000-byte chunk and the thread's chunk is not marked open, 16-bit wrap-around included |
| `PacketPrinter.MakeFailsHow` | IocpChatServer/IocpChatServer/ChatServer/ClientPacketHandler.h:79-83 | The header goes outside the buffer if and only if the 16-bit size wraps to less than a header while the thread may open; every other failure crashes |
| `PacketPrinter.MadeStaysReadable` | IocpChatServer/IocpChatServer/ChatServer/ClientPacketHandler.h:76-90 | What was made still parses to one packet with the original id and payload after anything any thread does short of dropping it |
| `PacketPrinter.MakeSendBuffer` | IocpChatServer/IocpChatServer/ChatServer/ClientPacketHandler.h:76-90 | Size computation, Open, header, payload and Close in place, with every way of failing |
| `PacketPrinter.Print` | IocpChatServer/IocpChatServer/ChatServer/ClientPacketHandler.h:84-88 | The three writes and the Close leave exactly the frame |
| `EndToEnd.PrefixParsesToFrames` | IocpChatServer/CodeSample/Session.cpp:404-429 | Any prefix of what was put on the wire parses to the first frames, in order, and never hangs |
| `EndToEnd.MadeMayBeSent` | IocpChatServer/IocpChatServer/ChatServer/ClientPacketHandler.h:76-90 | What MakeSendBuffer made may be passed to Send as its message, whatever any thread does, until its last reference goes |
| `EndToEnd.QueuedBuffersStayFrames` | IocpChatServer/CodeSample/Session.cpp:60-68 | In every reachable system whatever the session refers to is still in its chunk, closed, and the frame it was |
| `EndToEnd.SessionStepKeepsTail` | IocpChatServer/CodeSample/Session.cpp:60-68 | The messages accepted but not yet sent are, in order, what the chunks hold for the queue and the send event |
| `EndToEnd.ReceivedInAcceptedOrder` | IocpChatServer/CodeSample/Session.cpp:31-429 | Over every run of session and chunks together and every cutting of what arrived on the current connection, the receiver has been handed exactly the first messages whose bytes WSASend read from the chunks; if no WSASend failed on it, they are the messages Send accepted, one after another, and all others accepted since still wait |
| `Headings.GetYawDelta` | MmoProject/CodeSample/GameRoom.Move.cpp:31-39 | The subtraction loop ends and computes the wrapped difference |
| `Headings.DeltaIsReached` | MmoProject/CodeSample/GameRoom.Move.cpp:31-39 | The result is in [0, 180] and is the difference after some whole number of turns |
| `Headings.DeltaIsLeast` | MmoProject/CodeSample/GameRoom.Move.cpp:31-39 | No whole number of turns brings the headings closer |
| `Headings.DeltaIgnoresTurns` | MmoProject/CodeSample/GameRoom.Move.cpp:31-39 | 360-periodic in each argument |
| `Headings.DeltaIsADistance` | MmoProject/CodeSample/GameRoom.Move.cpp:31-39 | Symmetric, and the triangle inequality |
| `GameRoomEffects.EnterAdmitsIff` | MmoProject/CodeSample/GameRoom.EnterLeave.cpp:20-56 | A player gets in, with zone, count and timer, if and only if the room is not closing and has nobody under that id; otherwise nothing changes |
| `GameRoomEffects.ClosingRoomGainsNobody` | MmoProject/CodeSample/GameRoom.EnterLeave.cpp:20-22 | Over every run a closing room never gains a player and never opens again |
| `GameRoomRuns.EnterKeepsIndexIff` | MmoProject/CodeSample/GameRoom.EnterLeave.cpp:26-56 | Registering keeps zones and positions in agreement if and only if nothing is registered or the player stands inside the grid |
| `GameRoomRuns.LeaveKeepsIndexIff` | MmoProject/CodeSample/GameRoom.EnterLeave.cpp:257-274 | Leaving keeps them in agreement if and only if it is given the object that is registered under its id |
| `GameRoomRuns.MoveKeepsIndexIff` | MmoProject/CodeSample/GameRoom.Move.cpp:130-291 | HandleMove keeps zones and positions in agreement if and only if it is given the object registered under its id, or does not take the object out of the zone it remembers |
| `GameRoomRuns.MoveKeepsIndex` | MmoProject/CodeSample/GameRoom.Move.cpp:130-291 | For the registered object every outcome does |
| `GameRoomRuns.RelocateKeepsIndex` | MmoProject/CodeSample/GameRoom.Move.cpp:246-266 | Position, cached zone and both zone sets change together |
| `GameRoomEffects.LeaveEffects` | MmoProject/CodeSample/GameRoom.EnterLeave.cpp:263-274 | The leaver is out of the registry, everybody else stays, and the empty timer is set to now if and only if nobody is left |
| `GameRoomEffects.LeaveOfNobody` | MmoProject/CodeSample/GameRoom.EnterLeave.cpp:193-195 | Somebody whose id is not registered leaves nothing changed |
| `GameRoomEffects.TimerIsLastEmptying` | MmoProject/CodeSample/GameRoom.EnterLeave.cpp:44-47 | Over every run the empty timer is the time of the last leave that emptied the room, and 0 while somebody is in or nobody has been |
| `GameRoomEffects.DespawnReachesViewers` | MmoProject/CodeSample/GameRoom.EnterLeave.cpp:214-230 | The despawn goes to exactly the registered players who saw the leaver |
| `GameRoomRuns.LeaveForgets` | MmoProject/CodeSample/GameRoom.EnterLeave.cpp:214-255 | Nobody, no monster and no projectile refers to the leaver any more, its own sets are empty, and nothing else about who sees whom changed |
| `GameRoomRuns.LeaveKeepsSight` | MmoProject/CodeSample/GameRoom.EnterLeave.cpp:214-255 | Visibility stays mutual and irreflexive and the viewer sets keep mirroring it for everyone else |
| `GameRoomRuns.EnterKeepsSight` | MmoProject/CodeSample/GameRoom.EnterLeave.cpp:26-56 | The same for a player entering with nothing in sight |
| `GameRoomRuns.MoveKeepsSight` | MmoProject/CodeSample/GameRoom.Move.cpp:130-291 | The same for movement, given that UpdateAOI keeps it |
| `GameRoomRuns.ZonesMatchPositions` | MmoProject/CodeSample/GameRoom.EnterLeave.cpp:26-274 | In every reachable room, whatever UpdateAOI decides, zone z holds a player if and only if it is registered and stands in z; the cached zone is current, the count right, and the empty timer runs only when empty |
| `GameRoomRuns.SightIsMutual` | MmoProject/CodeSample/GameRoom.EnterLeave.cpp:214-255 | In every reachable room, if UpdateAOI is fair, sight is mutual and irreflexive, and the viewers of a monster or projectile are exactly the registered players who see it |
| `GameRoomRuns.NoCorrectionMeansAgreement` | MmoProject/CodeSample/GameRoom.Move.cpp:41-68 | Each test asks for no correction if and only if positions agree within 1 cm on the ground, one degree up to whole turns, and 1 cm or 20 cm in height |
| `GameRoomEffects.MoveIgnored` | MmoProject/CodeSample/GameRoom.Move.cpp:132-187 | A packet of a player who is not registered, dead, or without a proper position, with coordinates that are not numbers or beyond 100000, or that is not news, changes nothing and is not answered |
| `GameRoomEffects.MoveRefused` | MmoProject/CodeSample/GameRoom.Move.cpp:189-239 | A packet from outside the grid or refused by ValidateMove leaves the player in place, is remembered, and is answered with the position unless it was within 1 cm |
| `GameRoomEffects.MoveCommits` | MmoProject/CodeSample/GameRoom.Move.cpp:241-290 | Every other packet that leads into the grid, in the same zone or another, stores ValidateMove's position with the speed check's state, action and heading, remembers it with the packet, shows it to exactly the others in sight, and corrects the owner by the test that goes with a clamp or not; nobody else is moved |
| `GameRoomEffects.MoveDropped` | MmoProject/CodeSample/GameRoom.Move.cpp:249-252 | One that leads outside the grid is dropped without a trace |
| `GameRoomEffects.MoveCases` | MmoProject/CodeSample/GameRoom.Move.cpp:189-244 | Every heeded packet from inside the grid that ValidateMove accepts leads somewhere, so these cases are all |
| `GameRoomRuns.OwnerConvergesIff` | MmoProject/CodeSample/GameRoom.Move.cpp:168-290 | After any packet past the sequence check the owner agrees with the server or was just sent its position, except exactly when the validated position lies outside the grid and they disagreed |
| `GameRoomRuns.OwnerLeftBehind` | MmoProject/CodeSample/GameRoom.Move.cpp:249-252 | A concrete room, packet and grid for which that happens: nothing is sent and nothing remembered |
| `GameRoomRuns.MoveIsIdempotent` | MmoProject/CodeSample/GameRoom.Move.cpp:171-187 | Handling the same packet again, at any later time, changes nothing |
| `GameRoom.GameRoom.EnterRegister` | MmoProject/CodeSample/GameRoom.EnterLeave.cpp:26-56 | The whole new state, and whether it registered |
| `GameRoom.GameRoom.DespawnForOthers` | MmoProject/CodeSample/GameRoom.EnterLeave.cpp:214-232 | The loop over the visible players removes the leaver from each registered one and notifies each exactly once |
| `GameRoom.GameRoom.RemoveViewer` | MmoProject/CodeSample/GameRoom.EnterLeave.cpp:234-250 | The loops over monsters and projectiles remove the leaver from exactly the visible ones |
| `GameRoom.GameRoom.Leave` | MmoProject/CodeSample/GameRoom.EnterLeave.cpp:181-275 | The whole new state; each visible registered player is notified exactly once and nobody else |
| `GameRoom.GameRoom.Relocate` | MmoProject/CodeSample/GameRoom.Move.cpp:246-266 | The steps through position, old zone, new zone and cache amount to one relocation |
| `GameRoom.GameRoom.HandleMove` | MmoProject/CodeSample/GameRoom.Move.cpp:130-291 | Every branch, in order: what is stored and what is sent |
| `GameRoom.GameRoom.Accept` | MmoProject/CodeSample/GameRoom.Move.cpp:246-290 | The accepted packet: nothing at all outside the grid; otherwise move, sync, stamp, and the right correction test |
| `RoomDirectory.RefinesAtomicDirectory` | MmoProject/CodeSample/RoomManager.cpp:9-167 | Under every interleaving of the read-locked and write-locked sections, all calls answered as indivisible get-or-inserts and purges in the order they took effect, and a purge only took instance rooms that might go at that moment |
| `RoomDirectory.RoomsCarryTheirKey` | MmoProject/CodeSample/RoomManager.cpp:36-48 | In every reachable directory a stored room was made for its key, and no room serves two keys |
| `RoomDirectory.SameRoomIffNotPurged` | MmoProject/CodeSample/RoomManager.cpp:9-50 | Two calls for one key return the same room if and only if no purge took that key in between |
| `RoomDirectory.PurgeTakes` | MmoProject/CodeSample/RoomManager.cpp:125-167 | Whatever happens between a purge's two sections, a room is gone afterwards if and only if it was an instance room that might go when the purge looked and the room under its key may go when it erases; every other stays |
| `RoomDirectory.PickFinds` | MmoProject/CodeSample/RoomManager.cpp:127-149 | The first section goes on to the second if and only if some instance room may go |
| `RoomDirectory.GoneForGood` | MmoProject/CodeSample/RoomManager.cpp:148-166 | A room once out of the directory never comes back |
| `RoomDirectory.WorldRoomIsForever` | MmoProject/CodeSample/RoomManager.cpp:130-137 | All calls for a world key (instance 0) over a whole run return the same room |
| `RoomManager.RoomManager.FindRoom` | MmoProject/CodeSample/RoomManager.cpp:53-66 | Answers the room stored under the normalised key, made for that channel, map and instance |
| `RoomManager.RoomManager.CreateRoom` | MmoProject/CodeSample/RoomManager.cpp:30-49 | The second look under the write lock: an existing room wins, otherwise exactly one is made |
| `RoomManager.RoomManager.GetOrCreateRoom` | MmoProject/CodeSample/RoomManager.cpp:9-50 | With nobody in between, a get-or-insert on the normalised key; the room was made for that channel and instance, and for the map or, if there is none such, the default map |
| `RoomManager.RoomManager.PickPurgeable` | MmoProject/CodeSample/RoomManager.cpp:127-145 | Picks a key if and only if it is stored, not a world key, and its room may go, each once |
| `RoomManager.RoomManager.ErasePurgeable` | MmoProject/CodeSample/RoomManager.cpp:148-166 | A key stays if and only if it was not picked or its room may not go any more |
| `MapChange.PlayerSession.TryBeginMapChange` | MmoProject/CodeSample/PlayerSession.cpp:119-137 | Whole new state and answer |
| `MapChange.PlayerSession.TryConsumeMapChangeAck` | MmoProject/CodeSample/PlayerSession.cpp:152-171 | Whole new state, answer and target |
| `MapChange.PlayerSession.ResetMapChangeState` | MmoProject/CodeSample/PlayerSession.cpp:140-185 | End and cancel both leave the idle state |
| `MapChange.StateRemembersBegin` | MmoProject/CodeSample/PlayerSession.cpp:119-185 | Over any history the state is the token and target of the begin in hand, and whether it was acknowledged |
| `MapChange.BeginGrantedIff` | MmoProject/CodeSample/PlayerSession.cpp:119-137 | A begin is granted if and only if no earlier granted begin is still without end or cancel |
| `MapChange.AckAcceptedIff` | MmoProject/CodeSample/PlayerSession.cpp:152-171 | An ack is accepted if and only if the begin in hand has its token and was not acknowledged before, and then answers that begin's target |
| `MapChange.AckedAtMostOnce` | MmoProject/CodeSample/PlayerSession.cpp:152-171 | One begin is acknowledged at most once |
| `MemoryPools.StageInSteps` | IocpChatServer/CodeSample/Memory.cpp:12-49 | A loop's number of rounds, its last pool and where size stands when it ends, for any start, limit and step |
| `MemoryPools.PoolsEndAt3872` | IocpChatServer/CodeSample/Memory.cpp:8-50 | The three loops make all 48 pools; size carries over as 1056 and 2080, so the last pool is 3872 |
| `Memory.OnePoolMore` | IocpChatServer/CodeSample/Memory.cpp:16-23 | Filling up to a new pool's size keeps every entry at the smallest pool that fits |
| `Memory.Memory.Run` | IocpChatServer/CodeSample/Memory.cpp:12-23 | One loop with the inner fill: adds its pools, and fills every index up to the last of them |
| `Memory.Memory.Fill` | IocpChatServer/CodeSample/Memory.cpp:6-50 | After the constructor's loops exactly the entries 0 to 3872 are filled, each with the smallest pool that fits |
| `Memory.Memory.Allocate` | IocpChatServer/CodeSample/Memory.cpp:62-85 | Whole new state; meets an entry nothing was stored in if and only if the size with header is above 3872 and not above 4096 |
| `Memory.Memory.Release` | IocpChatServer/CodeSample/Memory.cpp:88-110 | Crashes if and only if the block is not in use; otherwise the whole new state |
| `Memory.Memory.Pop` | IocpChatServer/CodeSample/Memory.cpp:76-80 | The head of the free list, or a fresh block; the assertion on its header never fails |
| `MemoryPools.AllocateKeepsSound` | IocpChatServer/CodeSample/Memory.cpp:62-85 | A block handed out was not in use, and all pools keep holding only their own unused blocks, each once |
| `MemoryPools.ReleaseKeepsSound` | IocpChatServer/CodeSample/Memory.cpp:88-110 | A pooled block goes back to the front of the pool it came from |
| `MemoryPools.AllocateReuses` | IocpChatServer/CodeSample/Memory.cpp:71-80 | A block is the head of its pool's list while there is one; the system is asked only when there is none or the size is above 4096 |
| `MemoryPools.ReleasedIsNext` | IocpChatServer/CodeSample/Memory.cpp:99-108 | The next request a pool serves gets the block released to it last; a large block goes back to the system |
| `MemoryPools.BlocksComeAndGo` | IocpChatServer/CodeSample/Memory.cpp:62-110 | In every run: no live block is handed out again, each holds what was asked for and returns to its own pool, and a block not in use cannot be released |

## Left out

- Sockets, completion ports, WSASend and WSARecv themselves: their outcomes are events of a run or parameters.
- The bodies behind `World`: SpatialGrid's zone of a position, IsSeqNewer, CheckSpeed2D, GameMap::ValidateMove and UpdateAOI. Visibility results, and only these, assume that UpdateAOI keeps sight mutual and mirrored; `MoveIsIdempotent` assumes that no sequence number is newer than itself.
- ShouldPurge is a set of rooms chosen afresh at each moment; DataManager's map list is a parameter.
- The room-wide branches of Leave and SendMoveSync (the hot-room experiment), CancelTrade, SetRoom and the messages posted to the session, metrics and logging.
- Enter, EnterMapChange and the session's use of the handshake: only the handshake itself is modelled, where a failed map change is a cancel.
- Float rounding and NaN arithmetic: coordinates and headings are reals with a flag for "all finite", and what ValidateMove answers is taken to be numbers.
- A zone outside the grid: where the code would index the grid with it, the model stores the player under that number, and `EnterKeepsIndexIff` says the index is then broken.
- Chunks, buffers and the threads' current chunks are maps in one SendBufferManager object rather than heap objects with shared_ptr counts; a reference count reaching zero is "nobody refers to it", and a thread's Open is one method, while its steps are interleaved in `SendBufferRuns`.
- The order in which Dfs visits a vertex's neighbours (ascending in the code, arbitrary here, so the result holds for every order), and the loop bodies of Dfs, Leave and the memory table, which are methods of their own.
- The rest of the reader-writer lock (Lock.cpp): the profiler's calls are modelled, the spin loop is not, and a waiting thread is taken to want a lock that another holds exclusively.
- ProcessSend holds the lock while it calls RegisterSend; the model lets other threads run in between, which allows more runs than the program has. A completion's number of bytes matters only as zero or not, as in the code.
- Integer widths of the ledger, ids and tokens: the caps keep the ledger far below 32 bits, and ids are naturals. The 16-bit sizes of MakeSendBuffer are modelled with their wrap-around.
- `EndToEnd` follows one session; other sessions appear as other threads' use of the same chunks, and the kernel reads a batch's bytes at the moment of WSASend (they stay the same while the batch is held).
- protobuf: a payload is a sequence of bytes, and serialising fails only when it does not fit. The handler table and the handlers behind HandlePacket are not modelled; a frame whose header would lie outside its buffer ends as `OutsideBuffer`.
- The `_STOMP` variant of Memory and the pools' use and reserve counters; the pool's lock-free list is a sequence.
- GetOrCreateLobby repeats GetOrCreateRoom's pattern without a purge.
- Trade, party, combat, chat rooms, databases, and both client projects.
