# Verified model of the distributed-systems core

A Dafny model of the concurrent and stateful core of the repository: the thread pool and
the blocking queue, the length-prefixed wire protocol with its incremental parser, the
demultiplexing receive and the synchronous send path of the message-passing layer, chunked
file transfer, the FTP server's file locks and command ids, and the publish/subscribe
coordinator.

Code that several threads run is modelled as a transition system: a program counter per
thread, one step per critical section, notification or call, and theorems about every state
of every run. Next to it stands a class with the source's own fields and methods, each
method proved to have the effect of the step it stands for; the thread pool's loops are
methods too, with the steps of all other threads going on in between. What they do is proved
to continue the path of the transition system that the pool has taken since its construction,
so the theorems about runs are about the object. The `History` modules say what the states of
a run have to do with the calls and requests that were made in it. Code that one thread runs at a time is a class (parser, node, chunked files, coordinator) proved against a specification
on plain values.

| files | what they hold |
|---|---|
| `Basics` | an option type and the width of a `uint32_t` |
| `ThreadPoolSteps`, `ThreadPoolInvariant`, `ThreadPoolTheorems`, `ThreadPoolHistory`, `ThreadPoolProgress`, `ThreadPoolShutdown`, `ThreadPoolMembers`, `ThreadPoolThreads` | caller, dispatcher, joiner, task threads and destructor of `ThreadPool` |
| `BlockingQueue`, `QueueHistory` | `Queue<T>` with any number of producers and consumers |
| `WireFormat`, `MessageParser`, `ParserRuns` | frames as byte strings, the parser, whole conversations with it |
| `NodeReceive`, `ReceiveTheorems` | `Node::DoReceive` |
| `SendSteps`, `SendTheorems`, `SendGuarantees`, `SendHistory`, `SendMembers` | `Client::Send`, `Server::Send`, `SenderTask` |
| `Sockets`, `ChunkedFiles`, `SendRuns`, `FileUpload`, `FileDownload`, `FileTransfer` | sockets, chunked file sender and receiver, whole files going out, coming in, and from one end to the other |
| `FileLocks`, `FileLockTheorems`, `FileLockHistory`, `FileLockMembers` | the two-level file lock of the FTP server |
| `IdSearch`, `CommandIds` | the wrap-around search for an unused id |
| `CoordinatorSteps`, `CoordinatorTheorems`, `CoordinatorHistory`, `CoordinatorIds`, `MulticastTheorems`, `CoordinatorMembers` | the publish/subscribe coordinator |

## Where the code does not do what one would expect

The conditions below are proved in both directions, for all inputs; where a failure takes a
particular input, a lemma at one is named.

- `Node::DoReceive` drops the part of its backlog it did not get to. No bytes are lost if and
  only if no chunk with bytes follows, in the backlog, chunks that already hold a message of
  the first endpoint (`ReceiveTheorems.ConservedExactlyWhen`). A notice that a peer has
  failed or disconnected is an empty chunk and may be lost in the same way, under the same
  condition (`ReceiveTheorems.NoticesConservedExactlyWhen`). Two calls that lose a byte,
  starting from nothing: `ReceiveTheorems.BacklogArises` and
  `ReceiveTheorems.BacklogCanBeLost`; a call that loses a notice:
  `ReceiveTheorems.NoticeCanBeLost`. With a single peer this never happens.
- `UploadTask` calls `SendNextChunk` again after a time-out, and the chunk starts over. A file
  that has gone out is intact on the stream if and only if no `send` timed out in the middle
  of a frame (`FileUpload.RunUpload`, `SendRuns.IntactIff`). `FileTransfer.TornUpload` has
  three results of `send` after which the receiver reads a wrong frame.
- A file of 4 GiB or more is never reported as completely sent, because the counter has 32
  bits (`ChunkedFiles.ChunkedFileSender.SentCompleteFile`); a smaller one is, as soon as its
  chunks are out (`FileUpload.Upload`). An empty file is complete before anything is sent, so
  its receiver never completes (`FileTransfer.Transfer`).
- `GetFileContents` resets the parser. What follows the file is kept if and only if nothing of
  it was read along, which `HasPartialMessage` tells before the call
  (`ChunkedFiles.ChunkedFileReceiver.GetFileContents`), and that is so if and only if some
  `recv` ended exactly where the file ends (`FileDownload.Download`).
  `FileTransfer.FollowingByteLost` receives a file and loses the byte after it.
- One condition variable serves all files, so unlocking may wake the wrong thread. The right
  one is always woken in time if and only if only one path is in use
  (`FileLockTheorems.PromptIffOnePath`; `FileLockTheorems.WrongThreadWoken` is the case with
  two). Even so nothing gets stuck: without new calls the operations under way take a bounded
  number of steps, plus one for each spurious wake-up, and when none is left to take they
  have all returned (`FileLockTheorems.OperationsEnd`).
- A participant that reconnects without having disconnected gets a second messenger and two
  copies of every broadcast: one copy if and only if it was away
  (`MulticastTheorems.OnceIffItWasAway`).
- A multicast made while nobody is connected is not logged and reaches nobody
  (`MulticastTheorems.LostWithoutAudience`); one made while somebody is reaches all of them
  (`MulticastTheorems.ExactlyOnce`).
- `GenerateID` ends if and only if some id is free (`IdSearch.SearchEndsIff`). The
  coordinator's looks at connected participants only, and hands out the id of a registered
  one if and only if one that is away comes before the first id that is not registered
  (`CoordinatorIds.HandsOutRegisteredIff`). `CoordinatorIds.RegisteredIdReused` is a reachable
  state, after the counter has wrapped, in which the next registration takes the record of
  somebody who is away. The first 2^32 - 1 registrations get fresh ids
  (`CoordinatorIds.FreshUntilWrap`).

Where a comment and the code disagree the model follows the code: `ReceiveNextChunk` returns
the size of the chunk it took, not the number of bytes read as its header says
(common/chunked_files/chunked_file_receiver.h:24-28).

## Assumptions

- The message library is a pair of functions, encode and decode. Where a round trip needs
  it, decoding gives back what was encoded; nothing else is assumed.
- At every `send` and `recv` the environment decides how many bytes move, or that the call
  fails: the theorems are about all such plans. Connecting is a success or failure chosen by
  the environment. The steady clock is read as a number that
  grows with every reading.
- Condition variables may wake spuriously, and `notify_one` wakes any one sleeper.
- The calls `SetUp`, `RunAtomic` and `CleanUp` return: progress counts each as a step that is
  possible.
- The thread pool starts fully constructed, each task is added once, and handles and 64-bit
  message ids do not wrap.
- A buffer given to the parser, together with the overflow it is added to, stays below
  4 GiB, and a received chunk below 2 GiB: the code passes these sizes through `uint32_t`
  and `int`.

## Model

| member | source | states |
|---|---|---|
| PoolInvariant.StepInv | common/thread_pool/thread_pool.cpp:12-223 | every step of every actor keeps the invariant: task ownership, both queues, statuses, slots, owed wake-ups, shutdown phases, joins and call histories |
| PoolTheorems.RunInv | common/thread_pool/thread_pool.cpp:12-223 | every state of every run satisfies that invariant |
| PoolTheorems.SlotAccounting | common/thread_pool/thread_pool.cpp:63-133 | before closing, `pool_size_` is the number of thread objects plus the dispatcher's reservation, is positive when the joiner takes one off, and with a nonzero limit bounds the running threads and stays within the limit |
| PoolTheorems.JoinUnderMutex | common/thread_pool/thread_pool.cpp:101-126 | while the joiner waits under the mutex, the handle has a thread and an owned task, the thread is past its last use of the mutex, and a step that brings the join to its end is possible |
| PoolTheorems.TaskPointersValid | common/thread_pool/thread_pool.cpp:83-126 | a task object is owned from the start of its thread until that thread is joined; what the dispatcher starts is owned and has not been started before |
| PoolTheorems.NoLostCompletion | common/thread_pool/thread_pool.cpp:157-223 | a caller asleep on a finished task is owed that thread's `notify_all`, and nothing can keep the thread from making it |
| PoolTheorems.NoLostSlot | common/thread_pool/thread_pool.cpp:66-131 | a dispatcher asleep below the limit is owed the joiner's `notify_one`, or once closing the joiner's or the destructor's |
| PoolTheorems.CallOrder | common/thread_pool/thread_pool.cpp:157-179 | the calls on a dispatched task are SetUp, any number of RunAtomic, then at most one CleanUp, and an ended thread has made it |
| PoolTheorems.StepLife | common/thread_pool/thread_pool.cpp:135-195 | one step never changes a terminal status, never undoes a cancellation that took, and never lets a cancelled task commit to another iteration |
| PoolTheorems.TerminalForever | common/thread_pool/thread_pool.cpp:135-155 | a terminal status is the same in every later state |
| PoolTheorems.CancelWins | common/thread_pool/thread_pool.cpp:135-195 | a task still RUNNING when its cancellation is recorded can only end as CANCELLED |
| PoolTheorems.CancelStopsIterations | common/thread_pool/thread_pool.cpp:157-195 | after a cancellation is recorded at most one further RunAtomic begins |
| PoolHistory.ReportRecords | common/thread_pool/thread_pool.cpp:135-155 | a report records what the task returned, or CANCELLED for a cancelled task, and touches no other status |
| PoolHistory.FinalStatus | common/thread_pool/thread_pool.cpp:135-170 | over runs a status other than RUNNING is what the task's SetUp or RunAtomic returned last, or CANCELLED if it was cancelled before that was reported |
| PoolHistory.UncancelledStatus | common/thread_pool/thread_pool.cpp:135-170 | a task never cancelled ends with exactly the status it returned last |
| PoolHistory.StartedInOrder | common/thread_pool/thread_pool.cpp:59-98 | handles dealt with, then the one in hand, then the queue, are those pushed, in order |
| PoolHistory.JoinedInOrder | common/thread_pool/thread_pool.cpp:104-177 | ended threads are taken for joining in the order in which they announced themselves |
| PoolHistory.CompletedCount | common/thread_pool/thread_pool.cpp:172-176 | `num_completed_tasks_` is the number of finished tasks, modulo 2^32 |
| PoolHistory.FinalizedMeans | common/thread_pool/thread_pool.cpp:116-129 | a join takes exactly its own handle out of three tables, frees a slot and changes no status |
| PoolHistory.NotifyAllWakes | common/thread_pool/thread_pool.cpp:32-178 | after a `notify_all` no caller is asleep, and all still wait for their tasks |
| PoolProgress.NoTaskStuck | common/thread_pool/thread_pool.cpp:47-133 | before closing, while a task has been added and its thread not joined, a service thread or task thread can take a step that is no spurious wake-up, or a caller owes its push: no deadlock |
| PoolShutdown.StepClosed | common/thread_pool/thread_pool.cpp:12-133 | once closing, no step creates or forgets a thread and every step of the pool's own threads lowers a rank |
| PoolShutdown.ShutdownIsFinite | common/thread_pool/thread_pool.cpp:12-45 | under any schedule the steps left after closing are bounded by that rank, no thread is created, and every thread that has not ended is in `cancelled_tasks_` |
| PoolShutdown.ShutdownProgress | common/thread_pool/thread_pool.cpp:12-45 | a closing pool that is not destroyed can always take a step of its own: no service loop and no join gets stuck |
| PoolShutdown.JoinedExactlyOnce | common/thread_pool/thread_pool.cpp:35-44 | no thread is joined twice or before it has ended; when the destructor has returned both service loops have left and every thread ever created has been joined once |
| PoolShutdown.ShutdownCompletes | common/thread_pool/thread_pool.cpp:12-45 | a closing pool at rest is destroyed, with every thread ended and joined once |
| PoolMembers.ThreadPool.UpdateTaskStatus | common/thread_pool/thread_pool.cpp:135-155 | the one entry becomes CANCELLED for a cancelled task and else the status given; true exactly if it is RUNNING |
| PoolMembers.ThreadPool.MustWaitFor | common/thread_pool/thread_pool.cpp:214-222 | the waiting test creates a missing status as RUNNING and is true exactly while RUNNING |
| PoolMembers.ThreadPool.CloseAll | common/thread_pool/thread_pool.cpp:15-25 | the loop cancels every owned task and then marks the pool as closing |
| PoolMembers.OthersStep | common/thread_pool/thread_pool.cpp:12-223 | a step of another thread moves an actor only by notifying it; while closing it starts and forgets no thread |
| PoolMembers.ThreadPool.Interfere | common/thread_pool/thread_pool.cpp:12-223 | any number of steps of the others continue the path and leave an actor where it stands |
| PoolThreads.Lock | common/thread_pool/thread_pool.cpp:106-130 | the mutex becomes free although the joiner joins while it holds it |
| PoolThreads.RunTask | common/thread_pool/thread_pool.cpp:157-179 | whatever the task returns and the others do, the loop continues the pool's path: one SetUp, iterations, and if it leaves, one CleanUp and the thread's end, with the status the task returned last or CANCELLED |
| PoolThreads.StartThread | common/thread_pool/thread_pool.cpp:85-98 | the dispatcher leaves exactly when closing; else the task it starts is owned and its thread stands at SetUp |
| PoolThreads.DispatcherThread | common/thread_pool/thread_pool.cpp:63-100 | the loop continues the pool's path: one thread per round, leaving only when closing, waiting only for a slot or on an empty queue |
| PoolThreads.JoinThread | common/thread_pool/thread_pool.cpp:116-118 | the join under the mutex returns, with the thread ended |
| PoolThreads.JoinerThread | common/thread_pool/thread_pool.cpp:101-133 | the loop continues the pool's path: one join per round, leaving only when closing, waiting only on an empty queue |
| PoolThreads.Destroy | common/thread_pool/thread_pool.cpp:12-45 | the destructor continues the pool's path: it closes, wakes both service threads and then only joins, until it is through or at a thread that has not ended |
| PoolThreads.AddTask | common/thread_pool/thread_pool.cpp:47-61 | the task is owned and last in the dispatch queue, by steps that continue the pool's path |
| PoolThreads.CancelTask | common/thread_pool/thread_pool.cpp:190-195 | the cancellation is recorded, by a step that continues the pool's path |
| PoolThreads.WaitForCompletion | common/thread_pool/thread_pool.cpp:214-223 | the wait continues the pool's path and returns only when the status is terminal |
| PoolThreads.ObjectRuns | common/thread_pool/thread_pool.h:95-106 | what a pool has done since its construction is a run, ending in its present state |
| PoolThreads.ObjectGuarantees | common/thread_pool/thread_pool.cpp:12-179 | on the members themselves: slots, owned tasks, final statuses, completed tasks, joins at the end and no stuck task |
| BlockingQueue.StepInv | common/queue/queue.h:31-95 | every step keeps the wake-up accounting, the bound and the order |
| BlockingQueue.RunInv | common/queue/queue.h:31-95 | so does every run, for any number of threads and any timeouts |
| BlockingQueue.NoLostWakeUps | common/queue/queue.h:31-95 | wake-ups owed or delivered but not acted on number at least min(items, sleeping consumers); delivered ones at least min(free slots, sleeping producers); without a limit no producer sleeps |
| BlockingQueue.QuietMeansRightlyAsleep | common/queue/queue.h:31-95 | with no wake-up under way consumers sleep only on an empty queue and producers only on a full one |
| BlockingQueue.FifoWithinBound | common/queue/queue.h:31-95 | elements popped, then those queued, are the elements pushed, in order; the length stays within a nonzero maximum |
| QueueHistory.PushesItsArgument | common/queue/queue.h:31-44 | whatever is pushed is the argument of the latest Push of the thread that pushes it, also after a wait |
| QueueHistory.OnePushPerCall | common/queue/queue.h:31-44 | a thread has pushed as often as it has called Push, but for a call in which it still waits |
| QueueHistory.PopOutcome | common/queue/queue.h:73-94 | a Pop takes the first element if there is one; on an empty queue it sleeps, or returns if its time is up |
| BlockingQueue.Queue.PushLocked | common/queue/queue.h:31-44 | waits exactly when full, else appends; agrees with the step of the transition system |
| BlockingQueue.Queue.PopLocked | common/queue/queue.h:73-94 | waits exactly when empty, else takes the first element; agrees with the step of the transition system |
| BlockingQueue.EmptyMeansAllPopped | common/queue/queue.h:100-104 | what Empty tells: the queue is empty exactly when everything pushed has been popped, and exactly when a Pop made now would sleep |
| WireFormat.Htonl | common/wire_protocol/wire_protocol.cpp:8-9 | four bytes, which read back give the number |
| WireFormat.LengthWeights | common/wire_protocol/wire_protocol.cpp:8-9 | network byte order: the four bytes have the weights 2^24, 2^16, 2^8 and 1 |
| WireFormat.LengthShifts | common/wire_protocol/wire_protocol.cpp:8-9 | a number below 256 is in the last byte, and appending a byte to a number shifts its bytes to the front |
| WireFormat.HtonlNtohl | common/wire_protocol/wire_protocol.h:161-165 | reading four bytes as a length and writing it gives the bytes back |
| WireFormat.FrameSplits | common/wire_protocol/wire_protocol.cpp:5-18 | a serialized message in front of any bytes is split off again |
| WireFormat.SplitIsFrame | common/wire_protocol/wire_protocol.h:143-204 | a frame that is split off is the serialization of its payload |
| WireFormat.FrameStable | common/wire_protocol/wire_protocol.h:206-225 | later bytes change neither a complete frame nor its payload |
| WireFormat.FramesAppend | common/wire_protocol/wire_protocol.h:47-86 | splitting a stream may stop and go on at any point |
| WireFormat.RoundTrip | common/wire_protocol/wire_protocol.cpp:5-18 | splitting a list of serialized messages gives exactly that list, whatever follows |
| WireFormat.Reassembles | common/wire_protocol/wire_protocol.h:47-86 | the frames split off, serialized again, and the residue are the stream |
| WireFormat.PrefixOfStream | common/wire_protocol/wire_protocol.h:47-86 | of an arriving stream of messages a prefix has been split off, all of them exactly when all bytes are there |
| MessageParsing.Serialize | common/wire_protocol/wire_protocol.cpp:5-18 | fails exactly when the library refuses the message; else four bytes, with these weights the length of the rest, and the rest is the encoding |
| MessageParsing.MessageParser.ParseLength | common/wire_protocol/wire_protocol.h:143-169 | how many length bytes are taken, where they go, and when the length is known |
| MessageParsing.MessageParser.ParseMessage | common/wire_protocol/wire_protocol.h:178-204 | how many payload bytes are taken, where they go, and when the message is complete |
| MessageParsing.MessageParser.SaveOverflow | common/wire_protocol/wire_protocol.h:212-225 | bytes after a complete message are appended to the overflow, and only then |
| MessageParsing.MessageParser.AddNewData | common/wire_protocol/wire_protocol.h:47-51 | appends to the pending bytes and leaves the state they determine |
| MessageParsing.MessageParser.HasCompleteMessage | common/wire_protocol/wire_protocol.h:56-58 | true exactly if the pending bytes begin with a frame |
| MessageParsing.MessageParser.GetMessage | common/wire_protocol/wire_protocol.h:68-86 | takes the first frame off the pending bytes even if its payload does not decode, else nothing |
| MessageParsing.MessageParser.ResetParser | common/wire_protocol/wire_protocol.h:91-97 | no pending bytes |
| MessageParsing.MessageParser.HasOverflow | common/wire_protocol/wire_protocol.h:102-104 | true exactly if bytes follow a complete frame |
| MessageParsing.MessageParser.GetOverflow | common/wire_protocol/wire_protocol.h:111-113 | the bytes after the first complete frame |
| MessageParsing.MessageParser.HasPartialMessage | common/wire_protocol/wire_protocol.h:118-120 | true exactly if bytes are pending; with no partial data there is no overflow either |
| MessageParsing.MessageParser.Canonical | common/wire_protocol/wire_protocol.h:143-225 | parsers with the same pending bytes agree in every field, up to stale length bytes |
| MessageParsing.MessageParser.PendingShape | common/wire_protocol/wire_protocol.h:122-240 | each field as a function of the pending bytes |
| ParserRuns.AnyInterleaving | common/wire_protocol/wire_protocol.h:47-86 | for any interleaving of feeding and getting, payloads given out and frames pending are the frames of the stream, and no byte is lost |
| ParserRuns.FramingRoundTrip | common/wire_protocol/wire_protocol.h:47-86 | for any messages, segmentation and interleaving what comes out is a prefix of the messages, and all of them exactly when nothing is pending |
| ParserRuns.RunParser | common/wire_protocol/wire_protocol.h:47-86 | the parser object does what the byte-string splitter does, call for call |
| ParserRuns.Drain | common/wire_protocol/wire_protocol.h:56-86 | getting until there is no complete message gives all frames and leaves the residue |
| ParserRuns.ReceiveSegments | common/wire_protocol/wire_protocol.h:47-86 | feeding segment by segment and draining gives the frames of the whole stream |
| ParserRuns.DrainedRoundTrip | common/wire_protocol/wire_protocol.cpp:5-18 | for serialized messages, however segmented, these are the messages, with nothing left |
| NodeReceive.Node.DoReceive | common/message_passing/node.h:110-167 | for each of the four outcomes: how many chunks were read, whose frame was returned, what the backlog and the queue hold afterwards |
| NodeReceive.Node.NextResponse | common/message_passing/node.h:129-137 | chunks come from the backlog first, then from the queue, in order |
| NodeReceive.Node.ProcessChunk | common/message_passing/node.h:139-154 | a chunk of another endpoint is put aside, a failed one ends the call, any other goes to the parser |
| ReceiveTheorems.Isolation | common/message_passing/node.h:121-166 | the message is one frame of one endpoint; of the bytes looked at, every endpoint keeps all others in order |
| ReceiveTheorems.BacklogOrder | common/message_passing/node.h:139-165 | chunks put aside stay as they are and in order, across endpoints, and the overflow is behind them |
| ReceiveTheorems.MissingBytes | common/message_passing/node.h:121-137 | what is missing afterwards is the undrained tail of the entry backlog |
| ReceiveTheorems.UndrainedChunks | common/message_passing/node.h:121-137 | a chunk of the backlog is not looked at exactly when the chunks before it hold a message of the first endpoint |
| ReceiveTheorems.ConservedExactlyWhen | common/message_passing/node.h:121-166 | all endpoints' bytes are conserved if and only if no such chunk has bytes |
| ReceiveTheorems.NoticesConservedExactlyWhen | common/message_passing/node.h:121-166 | all notices of failed peers are conserved if and only if no such chunk is one |
| ReceiveTheorems.ShortBacklogIsSafe | common/message_passing/node.h:121-166 | a backlog of at most one chunk loses nothing |
| ReceiveTheorems.BacklogArises | common/message_passing/node.h:139-165 | from nothing, a call on two peers that leaves one chunk of each as backlog |
| ReceiveTheorems.BacklogCanBeLost | common/message_passing/node.h:121-137 | the next call, after which the second one's byte is gone |
| ReceiveTheorems.NoticeCanBeLost | common/message_passing/node.h:121-151 | a call that loses the notice of a disconnected peer, and no bytes |
| ReceiveTheorems.SinglePeerCall | common/message_passing/node.h:110-167 | with one peer a call takes the first frame of its stream and leaves at most one chunk of backlog |
| ReceiveTheorems.SinglePeerReturns | common/message_passing/node.h:128-155 | with one peer and a complete frame there the call returns it |
| ReceiveTheorems.ReceiveOne | common/message_passing/node.h:110-167 | the two together, on the node object |
| ReceiveTheorems.RunNode | common/message_passing/node.h:110-167 | over every run with one peer the messages are the frames of its stream in order, also those that do not decode, with at most one chunk of backlog between calls |
| SendTheorems.StepInv | common/message_passing/client.cpp:34-114 | every step of callers and senders, any number of senders to a queue, keeps the send-path invariant |
| SendTheorems.RunInv | common/message_passing/server.cpp:46-111 | so does every run with any number of connections |
| SendGuarantees.ExactlyOnePlace | common/message_passing/tasks/sender_task.cpp:28-58 | a synchronous message that was not refused is in exactly one of caller, one queue (once), one sender, table, collected |
| SendGuarantees.OwnResult | common/message_passing/client.cpp:34-57 | what Send returns is the result of the send made for its own message, on its own bytes |
| SendGuarantees.CollectedByItsCaller | common/message_passing/client.cpp:42-56 | a result is collected by the caller that asked for it, and is then gone from the table |
| SendGuarantees.SentOnce | common/message_passing/tasks/sender_task.cpp:36-57 | a message whose send has succeeded or failed for good is never sent again |
| SendGuarantees.TableHoldsOnlyAwaited | common/message_passing/server.cpp:54-69 | the table holds only results a caller still waits for, at most one per caller |
| SendGuarantees.NoLostResult | common/message_passing/client.cpp:42-106 | a caller asleep although its result is there is owed a `notify_all` |
| SendHistory.ReturnsItsOwnAnswer | common/message_passing/client.cpp:34-57 | what Send returns is what a send of the bytes passed to that very call, under its id, came to |
| SendHistory.PushedToLatestQueue | common/message_passing/server.cpp:77-111 | a message goes, with its caller's bytes, to the end of the queue its destination was given when it connected last, and nowhere if it never did |
| SendHistory.TakesTheFirst | common/message_passing/tasks/sender_task.cpp:28-34 | a sender takes the first message of the queue it was started on |
| SendMembers.Client.DispatchSend | common/message_passing/client.cpp:63-87 | an id is used up once connected, and the message is queued exactly if it serializes; agrees with the steps |
| SendMembers.Client.CollectResult | common/message_passing/client.cpp:42-56 | a result is read once; agrees with the step |
| SendMembers.Client.SenderRunAtomic | common/message_passing/tasks/sender_task.cpp:28-58 | nothing on an empty queue, back of the queue on a time-out, else a result for synchronous messages only; agrees with the steps |
| ChunkedFiles.ChunksOfFile | common/chunked_files/chunked_file_sender.cpp:31-41 | the chunks are the file: ceil(n/1000) of them, none empty, all full but the last, only the last flagged, together the contents |
| ChunkedFiles.WireStep | common/chunked_files/chunked_file_sender.cpp:31-69 | the bytes still to come are the next chunk's frame and those after it |
| ChunkedFiles.ChunkedFileSender.SendNextChunk | common/chunked_files/chunked_file_sender.cpp:31-69 | for every plan of send results: sends until the frame is out or a send fails, exactly then; what is on the stream, the result and the count follow |
| ChunkedFiles.ChunkedFileSender.SentCompleteFile | common/chunked_files/chunked_file_sender.cpp:71-73 | all bytes counted; never true for 4 GiB or more |
| ChunkedFiles.ReadSize | common/chunked_files/chunked_file_receiver.cpp:23-41 | a read takes what there is, at most 4096 bytes |
| ChunkedFiles.ChunkedFileReceiver.ReceiveNextChunk | common/chunked_files/chunked_file_receiver.cpp:19-62 | for every plan of reads: reads only while no message is complete, takes the first frame exactly if one becomes complete, else keeps every byte |
| ChunkedFiles.ChunkedFileReceiver.GetFileContents | common/chunked_files/chunked_file_receiver.cpp:66-71 | hands over the contents; what follows is kept if and only if nothing was pending |
| SendRuns.IntactIff | common/chunked_files/chunked_file_sender.cpp:48-64 | frames that have all gone out, with failed calls made again, are intact if and only if no send failed in the middle of one |
| SendRuns.PrefixOut | common/chunked_files/chunked_file_sender.cpp:48-64 | up to and including the first failure a prefix of the frames is out, all of them exactly when none is left |
| FileUpload.SendOne | common/chunked_files/chunked_file_sender.cpp:31-69 | one call sends the next chunk exactly if its last send succeeds, else returns that one's result |
| FileUpload.Upload | common/chunked_files/chunked_file_sender.cpp:24-73 | completes if and only if the calls suffice for the chunks and no send fails; complete or not, one chunk is out per successful call and the stream has a prefix of the file's frames |
| FileUpload.UploadRunAtomic | project1_2/client/client_tasks/upload_task.cpp:14-38 | done, retry, stop or fail as the last send came out |
| FileUpload.RunUpload | project1_2/client/client_tasks/upload_task.cpp:14-38 | all frames go out if and only if the iterations suffice for chunks and time-outs and nothing else fails; the file is then intact if and only if no frame was torn |
| FileDownload.ReceiveOne | common/chunked_files/chunked_file_receiver.cpp:19-64 | one call receives the next chunk if no read fails, else nothing; complete exactly on the last chunk |
| FileDownload.Download | common/chunked_files/chunked_file_receiver.cpp:19-71 | completes if and only if the calls suffice for the chunks and the failed reads, after one success per chunk, with the contents that were sent; what follows is kept if and only if a read ended with the file |
| FileDownload.DownloadNothing | common/chunked_files/chunked_file_receiver.cpp:19-64 | a receiver to which nothing is sent never completes |
| FileTransfer.Transfer | common/chunked_files/chunked_file_receiver.cpp:19-71 | both ends on one connection: without failures a nonempty file arrives as soon as both may make as many calls as it has chunks; in general exactly when no send fails and the calls suffice for failed reads; it is the file sent, in ceil(n/1000) chunks at each end, with nothing left over |
| FileTransfer.TornUpload | project1_2/client/client_tasks/upload_task.cpp:19-26 | one byte sent, a time-out and the rest: the receiver reads an empty frame and never the file |
| FileTransfer.FollowingByteLost | common/chunked_files/chunked_file_receiver.cpp:66-80 | a one-byte file is received with reads that do not end with it, and the byte behind it is gone |
| FileLocks.StepInv | project1_2/server/file_handler/file_access_manager.cpp:29-63 | every step keeps: lock sets are exactly the keys of their holders, one holder each, nobody sleeps on the write manager, sleepers are covered |
| FileLocks.RunInv | project1_2/server/file_handler/thread_safe_file_handler.cpp:15-45 | so does every run of any number of threads |
| FileLockHistory.ActsUnderItsLocks | project1_2/server/file_handler/thread_safe_file_handler.cpp:15-45 | a thread acts only when the path of its own call is locked for reading, and locked for writing exactly if that call writes, and nobody else can act on that path |
| FileLockHistory.OneActPerCall | project1_2/server/file_handler/thread_safe_file_handler.cpp:15-45 | every call acts once |
| FileLockHistory.LockedForACall | project1_2/server/file_handler/file_lock_guard.cpp:7-17 | a locked path is that of a call that has not returned |
| FileLockHistory.WriterActive | project1_2/server/file_handler/thread_safe_file_handler.cpp:22-29 | a reachable state with a writer in its file, holding both locks |
| FileLockTheorems.OneOperationPerPath | project1_2/server/file_handler/thread_safe_file_handler.cpp:15-45 | at most one operation is inside the locks of a path |
| FileLockTheorems.WriterHoldsRead | project1_2/server/file_handler/thread_safe_file_handler.cpp:22-45 | a path locked for writing is locked for reading by the same thread |
| FileLockTheorems.WriteLockAtOnce | project1_2/server/file_handler/thread_safe_file_handler.cpp:22-45 | whoever asks for the write lock gets it at once |
| FileLockTheorems.NoWaitCycle | project1_2/server/file_handler/thread_safe_file_handler.cpp:15-45 | a thread that waits holds nothing, so chains of waiting have one link and there is no cycle |
| FileLockTheorems.NeverStuck | project1_2/server/file_handler/file_access_manager.cpp:29-63 | while an operation is under way some operation can take a step |
| FileLockTheorems.StepWorks | project1_2/server/file_handler/file_access_manager.cpp:29-63 | every step of an operation under way lowers a measure, notifications included |
| FileLockTheorems.SpuriousWakeCosts | project1_2/server/file_handler/file_access_manager.cpp:38-40 | a spurious wake-up adds one to the measure |
| FileLockTheorems.OperationsEnd | project1_2/server/file_handler/file_lock_guard.cpp:7-17 | without new calls, under any schedule, the steps of operations are bounded by the measure plus the spurious wake-ups, and when none is possible all operations have returned and no lock is left |
| FileLockTheorems.WrongThreadWoken | project1_2/server/file_handler/file_access_manager.cpp:61-62 | with two paths a reachable state has a thread asleep on a free file |
| FileLockTheorems.PromptIffOnePath | project1_2/server/file_handler/file_access_manager.cpp:36-62 | sleepers on a free file always have a wake-up on its way if and only if only one path is used |
| FileLockMembers.FileAccessManager.LockFile | project1_2/server/file_handler/file_access_manager.cpp:29-47 | sleeps exactly if the key is locked, else locks it and no other; agrees with the steps of both managers |
| FileLockMembers.FileAccessManager.UnlockFile | project1_2/server/file_handler/file_access_manager.cpp:49-60 | the key and no other is unlocked; agrees with the steps of both managers |
| IdSearch.SearchGoesOn | project1_2/server/server_tasks/command_ids.cpp:19-25 | a search that has met only taken ids has not been through the cycle: why it ends |
| IdSearch.PassedSize | project1_2/server/server_tasks/command_ids.cpp:19-25 | counting up meets no id twice within a cycle |
| IdSearch.FirstFreeUnique | project1_2/server/server_tasks/command_ids.cpp:19-25 | the first free id is determined by the last id and the set of taken ones |
| IdSearch.FirstFreeIsNext | project1_2/server/server_tasks/command_ids.cpp:19-25 | it is the id found by going up from the last one and on from 0: all between are taken |
| IdSearch.SearchEndsIff | project1_2/server/server_tasks/command_ids.cpp:19-25 | the loop's test fails at some point, first at the first free id, if and only if some id is free |
| CommandIds.CommandIDs.GenerateID | project1_2/server/server_tasks/command_ids.cpp:19-25 | ends whenever some id is inactive, with the first inactive one cyclically after the last, modulo 2^16 |
| CoordinatorTheorems.TablesAlwaysAgree | project3/coordinator/coordinator_resources/participant_manager.cpp:11-75 | in every run, also past the wrap of the ids, the connected set is exactly the ids whose record is marked connected |
| CoordinatorHistory.RegisterMakes | project3/coordinator/coordinator.cpp:118-142 | the new messenger and record have the request's id, port, host name and socket; a failed connection leaves both tables alone |
| CoordinatorHistory.ReconnectMakes | project3/coordinator/coordinator_resources/registrar.cpp:95-121 | the new messenger has the record's address and the new socket, or the old one if connecting failed, which leaves both tables alone; the record keeps its old socket |
| CoordinatorHistory.DisconnectMakes | project3/coordinator/coordinator.cpp:155-165 | the record is marked and dated and keeps all else; one messenger of it is gone |
| CoordinatorHistory.DeregisterMakes | project3/coordinator/coordinator.cpp:143-153 | the id leaves both tables; one messenger of it is gone |
| CoordinatorHistory.ServedOnLatestSocket | project3/coordinator/coordinator_resources/messenger.cpp:32-42 | in conforming runs the one messenger of a connected participant uses the socket of its latest Register or Reconnect and the address it registered from |
| CoordinatorIds.FreshUntilWrap | project3/coordinator/coordinator.cpp:208-225 | in every run the first 2^32 - 1 registrations get the numbers from 1 on, which nobody has or had |
| CoordinatorIds.HandsOutRegisteredIff | project3/coordinator/coordinator.cpp:208-225 | the id found is a registered participant's if and only if one that is away comes before the first unregistered id |
| CoordinatorIds.RegisteredIdReused | project3/coordinator/coordinator.cpp:118-142 | a reachable state, past the wrap, where the next registration takes the id and the record of one that is away |
| CoordinatorTheorems.AudienceIsConnected | project3/coordinator/coordinator_resources/messenger_manager.cpp:29-47 | a broadcast is sent and logged exactly when somebody is connected, one copy each |
| CoordinatorTheorems.ReconnectDelivers | project3/coordinator/coordinator_resources/messenger.cpp:50-63 | a reconnection is sent one copy of what it was away for and is not too old, and nothing else |
| CoordinatorTheorems.StepInv | project3/coordinator/coordinator.cpp:118-207 | every conforming handler keeps tables, messengers, log, times and delivery counts in order |
| CoordinatorTheorems.RunInv | project3/coordinator/coordinator.cpp:118-207 | so does every conforming run |
| MulticastTheorems.OneMessengerPerConnected | project3/coordinator/coordinator.cpp:118-184 | in conforming runs one messenger per connected participant and none for others |
| MulticastTheorems.FirstBackIs | project3/coordinator/coordinator.cpp:167-184 | the history records the first reconnection after a broadcast for those who were away, and only then |
| MulticastTheorems.ExactlyOnce | project3/coordinator/coordinator.cpp:118-207 | a broadcast made while somebody is connected is sent once to those connected, never to those not registered then, and to the others at most once: exactly if their first reconnection comes within the threshold |
| MulticastTheorems.LostWithoutAudience | project3/coordinator/coordinator_resources/messenger_manager.cpp:29-47 | a broadcast made while nobody is connected is never delivered |
| MulticastTheorems.MissedAreGenuine | project3/coordinator/coordinator_resources/message_log.cpp:22-45 | a logged message is one that was broadcast, with its text, origin and time |
| MulticastTheorems.OnceIffItWasAway | project3/coordinator/coordinator.cpp:167-184 | after a Reconnect the next broadcast arrives once if and only if the participant was away, else twice |
| CoordinatorMembers.ParticipantManager.DisconnectParticipant | project3/coordinator/coordinator_resources/participant_manager.cpp:34-56 | fails, changing nothing, if not connected; else marks the record and its time |
| CoordinatorMembers.ParticipantManager.ReconnectParticipant | project3/coordinator/coordinator_resources/participant_manager.cpp:58-75 | fails, changing nothing, if unknown; else marks the record |
| CoordinatorMembers.MessageLog.GetMissedMessages | project3/coordinator/coordinator_resources/message_log.cpp:32-45 | exactly the messages after the disconnection that are not older than the threshold |
| CoordinatorMembers.MessengerManager.BroadcastMessage | project3/coordinator/coordinator_resources/messenger_manager.cpp:29-47 | one copy of this text and origin handed to send through every messenger of a connected participant, on its socket, whether or not sends succeed; logged once if there is one |
| CoordinatorMembers.MessengerManager.SendMissedMessages | project3/coordinator/coordinator_resources/messenger.cpp:50-63 | one copy of each message tried, all of them missed ones, with its text and origin, on this participant's socket; true, and then all of them, exactly if every send succeeds |
| CoordinatorMembers.Coordinator.GenerateID | project3/coordinator/coordinator.cpp:208-225 | the first id cyclically after the last, modulo 2^32, that no connected participant has |
| CoordinatorMembers.Coordinator.IsTaken | project3/coordinator/coordinator.cpp:213-221 | the inner loop finds out whether a connected participant has the id |
| CoordinatorMembers.Coordinator.DetermineMessenger | project3/coordinator/coordinator.cpp:46-55 | a messenger of that id if there is one |
| CoordinatorMembers.Coordinator.HandleRegister | project3/coordinator/coordinator.cpp:118-142 | the registering step, with an id that no connected participant has and a messenger at the request's address and socket; nothing is sent |
| CoordinatorMembers.Coordinator.HandleDeregister | project3/coordinator/coordinator.cpp:143-153 | the deregistering step with some messenger of that id; nothing is sent |
| CoordinatorMembers.Coordinator.HandleDisconnect | project3/coordinator/coordinator.cpp:155-165 | the disconnecting step with some messenger of that id; nothing is sent |
| CoordinatorMembers.Coordinator.HandleReconnect | project3/coordinator/coordinator.cpp:167-184 | the reconnecting step, with a messenger on the new socket or, if connecting failed, the old one; each missed message is sent once on it, or fewer if a send fails |
| CoordinatorMembers.Coordinator.HandleMulticast | project3/coordinator/coordinator.cpp:186-207 | the multicast step; one copy of the request's text with its sender's id through each messenger of a connected participant |

## Left out

- CoordinatorMembers.MessengerManager.SendMissedMessages: says nothing of the order of the missed messages, which is that of a hash table.
- CoordinatorMembers.MessengerManager.BroadcastMessage: messages carry a number as history; with a strictly growing clock the source's comparison by time, text and origin tells the same messages apart.
- The run theorems about multicast are about runs in which sends succeed.
- PoolThreads.DispatcherThread: does not promise that a waiting loop goes on, because it makes a given number of rounds between steps of others that are arbitrary; that waiting ends is a statement about all threads together, and is proved as such: no task is stuck, no wake-up is lost, shutdown ends. The same holds for the pool's other loops.
- NodeReceive.Node.DoReceive: a time-out or a failed peer discards the bytes of the message being read; the contract says what is left, and the stream theorems are about calls that succeed.
- Handlers of the coordinator that run inside one another: each handler is one atomic step.
- The theorems about conforming runs ask that no registration reuses an id that somebody has, or had when a broadcast was made; before the counter wraps that is proved, after it an id may be reused, and only `CoordinatorTheorems.TablesAlwaysAgree` is about such runs.
- The order in which messages of one endpoint are sent after a retry: a timed-out message goes to the back of the queue, and only its identity is followed.
- A short `send` in `SenderTask`: its result is reported as it is; the bytes that did not go out are not followed.
- `ChunkedFileReceiver::CleanUp`: its loop need not end when the peer is gone.
- The no-argument `WaitForCompletion`, `NumThreads` and `GetTaskStatus` of the thread pool, and its construction, during which the service threads already run.
- Which file-lock waiter goes first, and path normalisation, which belongs to the file system library.
- Sockets, address set-up, retries of `connect`, `select`, logging, configuration, consoles and input parsers: I/O.
- The encoding of the messages themselves: a library.
- The project 4 name-server ring: its join and leave do not realise the key split its documentation describes.
- `SendForever`, `FileHandler`, `Agent`, the client and server tasks around these cores (but `UploadTask`), the FTP shells: they pass data and results on to the code above.
