# A verified model of the remote-control client and server

The repository is a remote-control system: viewers and guards (the controlled machines) talk through a
server.  Most of it is user interface, codecs and sockets; these modules model the parts whose state and
arithmetic carry the guarantees, and prove those guarantees for every input, run and interleaving.

- `BinaryHeap`, `UserConnections`, `RequestProcessors`: the server's request scheduler.  Each connection has
  reservation, limit and proportion tags; the connections with requests form an array heap; an element is
  removed from its middle by lowering its key, sifting a prefix and popping the whole.
- `PowersOfTwo`, `ByteBuffers`, `Framing`: the growing and compacting byte buffer, the macros that write
  length-prefixed frames, and the receive loops of server, viewer and guard.
- `RecursiveLocks`, `PlainLocks` (with `Sums`): the two spinning read/write locks.
- `TaskManagers`, `TaskExecutions`, `TaskEnds`, `ManagerSections`: the timed task manager, its workers and its
  callers; how often a task can be executed and how it ends; and the manager's sections as they run in place on the
  map and the heap.
- `FileTasks`, `Transfers`, `TransferEnds`, `Uploads`, `TransferQueues`: file transfer, from one side's task, as
  values and as an object, to the protocol between two sides and the scheduler's queue.
- `LinuxConnections`, `WinConnections`: the send queue on Linux and disconnecting on Windows.
- `SpeedCalculations`, `BlackLists`: constant-size summaries that agree with the whole history.

Code that changes an object step by step is a class here: the scheduler, a connection's requests, the byte
buffer, the receive loop, the task manager's sections, a transfer task, the Linux connection, the speed meter, the
black list.  Their methods are proved against functions or ghost histories of the abstract state.  Protocols
between threads or machines (locks, task manager, transfer protocol, transfer queue, Windows disconnect) are step
machines on values: a step is one atomic access or one section under a mutex, a run is any sequence of steps, and
each main result is a statement about the state after any run.  Memory is sequentially consistent.

What the code does where its own names or comments suggest otherwise:

- A transfer resumed as an upload appends on the guard's side.  If a block the viewer had read did not reach the
  guard, the transfer still ends FINISHED, with bytes missing (`Uploads.ResumedUploadLosesABlock`).  Undisturbed
  from its resumption on, a resumed upload is right exactly when the guard has just what the viewer had read
  (`Uploads.ResumedUpload`); disturbed, with messages of earlier sessions still on their way, it is right if every
  step fits the guard's file (`Uploads.FittingUploadIsSafe`).  An opening that does not fit loses acknowledged bytes
  (`Uploads.UnfitOpening`); a block or a beginning that does not fit does the harm that `Uploads.MisplacedBlock` and
  `Uploads.BegunTooFar` state.
- The viewer's own transfers (Client/File/FileTransmissionViewer.cpp:631) and reloaded tasks
  (Client/File/FileTransmission.cpp:853-854) never ask for leave to override, so a guard that has the file refuses
  to open it again: nothing is lost, and nothing goes on (`Uploads.ReopeningRefused`, `Uploads.RefusedForGood`,
  `Uploads.UploadWithoutOverride`).  The same holds of a reloaded download whose local file is there
  (`Transfers.ReloadedDownloadIsRefused`).  A reloaded task whose file is gone can end FINISHED without its first part,
  exactly if it had made progress (`Transfers.ReloadedDownloadIsRight`, `Uploads.ReloadedUploadIsRight`).
- A user who consents to overwrite the file gets a new task with leave to override and the old one's progress
  (Client/File/FileTransmissionViewer.cpp:1004-1020).  If there was progress it does not overwrite but append, and is
  right exactly if the file has just the bytes before it (`Transfers.UndisturbedDownload`, `Uploads.ResumedUpload`).
- On Windows another thread's `recv` between the completion thread's pop and its next post posts one task twice,
  and the assertion in `popFirstTask` can then fail: `WinConnections.ReceivedTaskIsThere` and
  `WinConnections.PostingTwiceFails`.
- A task that is dispatched again in the window between its time-out and the lock of its mutex can be executed
  again.  It is executed at most as often as it was dispatched and as there are workers, so a single worker never
  executes it twice (`TaskExecutions.ExecutionsBounded`), and that often it can be (`TaskExecutions.BoundIsMet`).
- A task dispatched with one time for both its execution and its time-out is never executed
  (`TaskManagers.NothingExecuted`).
- The plain macro for frames, which nothing in the repository uses, writes the body at a fixed place of the block,
  which is its place in a new buffer; in any other it is right only by zeros written over zeros
  (`Framing.WrapPlain`).
- The speed meter misses values once the clock was set back (`SpeedCalculations.MissesWhenSetBack`).
- The five-minute block of the black list never shows: five events in five minutes are five in their hour, and
  the hour's block overwrites it.
- The middle removal of the scheduler works because `push_heap` only moves elements along one path; what the C++
  standard promises of it would not be enough (`BinaryHeap.PrefixContractIsNotEnough`).

## Model

| member | source | states |
|---|---|---|
| BinaryHeap.PopHeapPermutes | Server/RequestProcessor.cpp:142-143 | `std::pop_heap` moves elements around, loses and repeats none, and puts the front last |
| BinaryHeap.PopHeapCorrect | Server/RequestProcessor.cpp:138-143 | popping the front keeps the heap order of the rest and removes exactly the front |
| BinaryHeap.PushHeapCorrect | Server/RequestProcessor.cpp:119-120 | `push_back` and `push_heap` make a heap again |
| BinaryHeap.FrontIsLeast | Server/RequestProcessor.cpp:138 | no element of a heap comes before the front |
| BinaryHeap.LoweredKeySiftsUp | Server/RequestProcessor.cpp:171-174 | lowering the key at `index` and running `push_heap` on the prefix that ends there makes the whole array a heap |
| BinaryHeap.LoweredComesFirst | Server/RequestProcessor.cpp:171-174 | with the sentinel key the element comes to the front of the whole array, nothing lost |
| BinaryHeap.RemovalFromMiddle | Server/RequestProcessor.cpp:165-181 | the remove-from-the-middle step removes exactly the element at `index` and leaves a heap under the original keys |
| BinaryHeap.PrefixContractIsNotEnough | Server/RequestProcessor.cpp:174 | what the standard promises of `push_heap` on a prefix would not do for that step: a permitted rearrangement breaks the whole heap |
| UserConnections.TagsGrowWithBytes | Server/UserConnection.cpp:42-52 | between two requests of a connection its limit and reservation tags grow by at least the time their bytes take at any rate none of them exceeded |
| UserConnections.TagIsLatest | Server/UserConnection.cpp:42-52 | all three tags in closed form: a tag of a head is the latest of the times at which its bytes end if they are sent, at the tag's rates, right behind those before it since any head arrived (less 500 ms for the reservation), or since time zero |
| UserConnections.DueExactly | Server/UserConnection.cpp:42-52 | so a head is due by a tag exactly when all those times have come |
| UserConnections.ReservedRate | Server/UserConnection.cpp:42-52 | a head is due by its reservation exactly if its connection kept to 51200 bytes a second, but for half a second, since each head before it arrived |
| UserConnections.ThroughputOfMarks | Server/UserConnection.cpp:42-52 | throughput bound on the record of one connection: bytes accepted after request i up to j are at most rate * (time j was due - arrival of i + 500 ms), for any rate no request in between exceeded |
| UserConnections.UserConnection.UpdateRLW | Server/UserConnection.cpp:42-52 | the three tags advance by the cost at their rates, but never lag the arrival (minus 500 ms for the reservation): the step whose closed form is `TagIsLatest` |
| UserConnections.UserConnection.Advance | Server/UserConnection.cpp:36-37 | a request that becomes the head advances the tags once, from the tags of the request before |
| UserConnections.UserConnection.PushRequest | Server/UserConnection.cpp:21-40 | refused exactly when 10 MiB are pending; otherwise appended, pending bytes stay the sum of the queue and below 10 MiB + 1 MiB, and the tags advance only if it is the head |
| UserConnections.UserConnection.PopRequest | Server/UserConnection.cpp:206-223 | the oldest request is taken, once and in order of acceptance, and the tags advance for the next head |
| UserConnections.UserConnection.IsRequestsEmpty | Server/UserConnection.cpp:200-204 | tells exactly whether every request accepted so far has been taken |
| UserConnections.UserConnection.HeadTags | Server/UserConnection.cpp:42-52 | the tags of a waiting connection are above the sentinel the scheduler uses |
| UserConnections.UserConnection.Reserved | Server/UserConnection.cpp:21-52 | in every state: which of the requests that came to the head is due by its reservation when, in bytes accepted |
| UserConnections.UserConnection.DueOnArrivalMeans | Server/RequestProcessor.cpp:109 | when an idle connection's request is due on arrival, in bytes |
| UserConnections.UserConnection.Throughput | Server/UserConnection.cpp:21-52 | the throughput bound in every state the scheduler can leave a connection in, for any rate the requests in question did not exceed |
| UserConnections.UserConnection.AllowManagerRate | Server/NetworkDataHandler/User/RequestLoginHandler.cpp:73 | a manager's login raises the limit rate; the tags stay |
| RequestProcessors.Heap.Compare | Server/RequestProcessor.cpp:7-17 | the later whole millisecond of reservation comes after, and with the same the later limit |
| RequestProcessors.Heap.PushHeap | Server/RequestProcessor.cpp:120 | in-place `push_heap` on the first n elements computes the specification's sift |
| RequestProcessors.Heap.SinkFront | Server/RequestProcessor.cpp:142 | in-place descent of the hole computes the specification's |
| RequestProcessors.Heap.PopHeap | Server/RequestProcessor.cpp:142 | in-place `pop_heap` computes the specification's |
| RequestProcessors.Heap.RemoveFront | Server/RequestProcessor.cpp:138-144 | phase 1 takes exactly the front off and keeps the heap |
| RequestProcessors.Heap.RemoveAt | Server/RequestProcessor.cpp:165-181 | phase 2 takes exactly the chosen connection off, keeps the heap, and gives it its tags back |
| RequestProcessors.Heap.Insert | Server/RequestProcessor.cpp:119-120 | a connection enters the heap once |
| RequestProcessors.Heap.ChooseByLimit | Server/RequestProcessor.cpp:148-164 | the scan finds the last of least proportion among the at most twenty leading connections whose limit is due, or none exactly when the front's is not |
| RequestProcessors.Heap.SecondPhase | Server/RequestProcessor.cpp:138-147 | phase 2 runs only when every waiting connection's reservation, in whole milliseconds, is at least t |
| RequestProcessors.Heap.FrontIsFirst | Server/RequestProcessor.cpp:7-17 | nobody in the array has an earlier whole millisecond of reservation than the front, nor with the same an earlier limit |
| RequestProcessors.Heap.NoneOverlooked | Server/RequestProcessor.cpp:130-182 | when the front is not due, nobody waits whose reservation is due by a whole millisecond, nor whose limit is due and whose reservation is as early as the front's |
| RequestProcessors.LimitChoiceIsLeast | Server/RequestProcessor.cpp:148-164 | what the scan chooses is due with all in front of it, and of the first twenty up to one not due none has a lesser proportion, nor any behind it as little |
| RequestProcessors.Heap.TakeOff | Server/RequestProcessor.cpp:137-182 | which connection the two phases choose, and that it alone leaves the heap |
| RequestProcessors.Heap.TakeFrom | Server/RequestProcessor.cpp:184-194 | its oldest request is taken and it returns to the heap exactly if more wait |
| RequestProcessors.Heap.Pull | Server/RequestProcessor.cpp:130-197 | one request is taken exactly when the front is due, from the connection to be served; nothing else changes and one request less waits |
| RequestProcessors.Heap.ServeOne | Server/RequestProcessor.cpp:204-209 | one turn of the loop makes exactly one handler call when something is due |
| RequestProcessors.Heap.ProcessPossible | Server/RequestProcessor.cpp:199-211 | the loop ends, with total waiting requests as its measure, when the front is due no more, and nobody is overlooked; calls made equal requests taken |
| RequestProcessors.Heap.Accept | Server/RequestProcessor.cpp:103-105 | taking a request in keeps everything in place except that a newly busy connection is not in the heap yet |
| RequestProcessors.Heap.HandleAtOnce | Server/RequestProcessor.cpp:109-116 | an idle connection's request that is due is handled at once, past the heap |
| RequestProcessors.Heap.Enqueue | Server/RequestProcessor.cpp:117-121 | otherwise the connection takes its place in the heap |
| RequestProcessors.Heap.Push | Server/RequestProcessor.cpp:98-128 | what an arriving request does in each case, over the whole scheduler state |
| RequestProcessors.Heap.Exec | Server/RequestProcessor.cpp:213-225 | over all wake-ups, handled plus waiting requests are conserved |
| RequestProcessors.Heap.AllowManagerRate | Server/NetworkDataHandler/User/RequestLoginHandler.cpp:73 | the new rate disturbs neither the heap nor the queues |
| RequestProcessors.Heap.Promises | Server/RequestProcessor.cpp:98-211 | in every state the lock is free in: each accepted request was handled once, in order, or still waits; a connection is in the array once exactly if it waits; pending bytes are exact and bounded; the throughput bound holds |
| RequestProcessors.AnyRun | Server/RequestProcessor.cpp:98-225 | over every run, with any connections, their requests arriving in any order and managers logging in: of each connection's requests those not refused were handled once each, in order, or wait; one is refused only after 10 MiB of its connection's were accepted |
| PowersOfTwo.SmearStep | Global/Component/EasyIO/EasyIOByteBuffer.cpp:229-235 | one smearing step doubles the run of ones below the highest bit |
| PowersOfTwo.AdjustSizeFromBit | Global/Component/EasyIO/EasyIOByteBuffer.cpp:227-238 | all six steps together round to the power of two above the highest bit, or keep a power of two |
| PowersOfTwo.AdjustSizeIsLeast | Global/Component/EasyIO/EasyIOByteBuffer.cpp:227-238 | the rounding gives the least power of two that is not below v, for 0 < v < 2^63 |
| ByteBuffers.ByteBuffer.constructor | Global/Component/EasyIO/EasyIOByteBuffer.cpp:28-32 | a new buffer is empty, and its capacity the least power of two that is at least 4096 and the size asked for |
| ByteBuffers.ByteBuffer.EnsureWritable | Global/Component/EasyIO/EasyIOByteBuffer.cpp:299-326 | room for len bytes, contents unchanged, capacity still a power of two |
| ByteBuffers.ByteBuffer.Compact | Global/Component/EasyIO/EasyIOByteBuffer.cpp:305-308 | the readable bytes move to the front of the block |
| ByteBuffers.ByteBuffer.Grow | Global/Component/EasyIO/EasyIOByteBuffer.cpp:309-322 | the readable bytes are copied into a block that is large enough and less than twice what is needed |
| ByteBuffers.ByteBuffer.LargerCapacity | Global/Component/EasyIO/EasyIOByteBuffer.cpp:311-317 | the doubling loop ends at the first capacity that fits |
| ByteBuffers.ByteBuffer.Put | Global/Component/EasyIO/EasyIOByteBuffer.cpp:153-154 | bytes are copied behind the writer, the contents before them unchanged |
| ByteBuffers.ByteBuffer.Write | Global/Component/EasyIO/EasyIOByteBuffer.cpp:148-155 | bytes are appended to the queue |
| ByteBuffers.ByteBuffer.Fill | Global/Component/EasyIO/EasyIOByteBuffer.cpp:207-214 | len copies of a byte are appended |
| ByteBuffers.ByteBuffer.Read | Global/Component/EasyIO/EasyIOByteBuffer.cpp:92-110 | read takes a prefix of the queue, get only looks at it |
| ByteBuffers.ByteBuffer.DiscardReadBytes | Global/Component/EasyIO/EasyIOByteBuffer.cpp:248-266 | a prefix is dropped, everything for a negative length |
| ByteBuffers.ByteBuffer.MoveReaderIndex | Global/Component/EasyIO/EasyIOByteBuffer.cpp:268-278 | moving on drops a prefix, clamped at the writer; moving back brings the bytes last gone past back into view, in order, as far as the block still has them |
| ByteBuffers.ByteBuffer.GoBack | Global/Component/EasyIO/EasyIOByteBuffer.cpp:268-278 | going back undoes reading |
| ByteBuffers.ByteBuffer.Rewind | Global/Component/EasyIO/EasyIOByteBuffer.cpp:101-105 | at the end of what there is to read the block is used from its front again, nothing lost |
| ByteBuffers.ByteBuffer.MoveWriterIndex | Global/Component/EasyIO/EasyIOByteBuffer.cpp:280-296 | clamping of the writer, and what happens to the reader |
| ByteBuffers.ByteBuffer.Clear | Global/Component/EasyIO/EasyIOByteBuffer.cpp:216-219 | the queue is emptied, and what it held counts as consumed |
| ByteBuffers.ByteBuffer.WriteBuffer | Global/Component/EasyIO/EasyIOByteBuffer.cpp:132-141 | another buffer's contents are appended, and taken off it if asked; so are its own, where there is room |
| ByteBuffers.AnyRun | Global/Component/EasyIO/EasyIOByteBuffer.cpp:92-278 | over any run of writes, fills, reads, discards, skips and clears a fresh buffer is a queue: every read returns the oldest bytes, what has gone and what is there are together all that was put in, and at most twice the bytes put in plus the bytes taken out are copied |
| Framing.ParsedInTwo | Server/UserConnection.cpp:165-197 | parsing a stream in two pieces delivers what parsing it whole delivers |
| Framing.ChunkingIsInvisible | Server/UserConnection.cpp:161-198 | delivered frames and leftover depend only on the concatenation of the chunks |
| Framing.ParsedEncoded | Global/Protocol/Protocol.h:127-132 | parsing concatenated written frames gives the same list back, whatever follows |
| Framing.ParsedConserves | Server/UserConnection.cpp:165-197 | the delivered frames, encoded, followed by the leftover are the input; every delivered frame is well formed |
| Framing.LeftoverIsShort | Server/UserConnection.cpp:167-190 | less than 1 MiB + 8 bytes are left unless the loop stopped at a bad frame |
| Framing.FrameReader.Peek | Server/UserConnection.cpp:167-182 | the three checks at the top of the loop |
| Framing.FrameReader.HandleReceivedData | Server/UserConnection.cpp:161-198 | the server's loop delivers what the parse function says, ends, stops before an unknown tag, and drops the connection exactly for a bad frame or a refused request |
| Framing.FrameReader.DeliverKnown | Server/UserConnection.cpp:165-197 | the loop itself, whatever is in the buffer |
| Framing.FrameReader.HandleClientData | Client/ViewerBase.cpp:141-183 | the clients' loop goes on over unknown tags and drops the connection exactly if it met one or a bad length |
| Framing.FrameReader.DeliverAll | Client/ViewerBase.cpp:147-183 | the clients' loop itself, whatever is in the buffer |
| Framing.FrameReader.Consume | Client/Guard.cpp:211 | a frame is consumed whole |
| Framing.WrapPlain | Global/Protocol/Protocol.h:107-113 | the plain macro writes the encoding of the frame into a new buffer; into any other it appends it exactly when nothing is in front of it in the block, or the body is all zeros and so is all that it is written over |
| Framing.WrapEncrypted | Global/Protocol/Protocol.h:115-125 | the encrypting macro writes the encoding, whatever the cipher text's length, into an empty buffer; in any other the length of the whole goes behind the first word |
| Framing.WrapBytes | Global/Protocol/Protocol.h:127-132 | the macro for ready bytes appends the encoding |
| RecursiveLocks.StepInv | Global/Component/ReadWriteLock/ReadWriteLock.cpp:21-122 | every atomic step of every operation keeps the counters, the owner's name and mutual exclusion consistent |
| RecursiveLocks.RunInv | Global/Component/ReadWriteLock/ReadWriteLock.cpp:21-122 | so does every interleaving of any number of threads |
| RecursiveLocks.Exclusion | Global/Component/ReadWriteLock/ReadWriteLock.cpp:21-122 | while one thread is in a write section no other is in a write or a read section |
| RecursiveLocks.NameIsOwners | Global/Component/ReadWriteLock/ReadWriteLock.cpp:64-122 | the name is the owner's exactly between its acquire and its final release, and who erases it erases its own |
| RecursiveLocks.UnlockingNeverWaits | Global/Component/ReadWriteLock/ReadWriteLock.cpp:115-122 | the assertion in `writeUnlock` holds and the read lock inside never spins |
| RecursiveLocks.CalledAsIntended | Global/Component/ReadWriteLock/ReadWriteLock.cpp:21-122 | an undisturbed operation does what it is for; `try` succeeds exactly when the lock is free for it and leaves no trace otherwise |
| RecursiveLocks.ReturnsDone | Global/Component/ReadWriteLock/ReadWriteLock.cpp:21-122 | in every interleaving an operation that returns has done for its thread what it is for: a lock is held once more, by a `try` exactly if it says so, an unlock gave one up |
| RecursiveLocks.WithoutTheReadSection | Global/Component/ReadWriteLock/ReadWriteLock.cpp:115-122 | without the read lock inside `writeUnlock` the next owner's name would be erased: a run that does it |
| PlainLocks.RunInv | Global/Component/ReadWriteLock/ReadWriteLock.cpp:146-205 | the counters are the threads' shares in every interleaving |
| PlainLocks.Exclusion | Global/Component/ReadWriteLock/ReadWriteLock.cpp:146-205 | mutual exclusion for the plain lock, over every run |
| PlainLocks.CalledAsIntended | Global/Component/ReadWriteLock/ReadWriteLock.cpp:146-205 | an undisturbed operation does what it is for |
| PlainLocks.ReturnsDone | Global/Component/ReadWriteLock/ReadWriteLock.cpp:146-205 | in every interleaving an operation that returns has done for its thread what it is for |
| TaskManagers.MapAndHeapAgree | Server/Task/TaskManager.cpp:70-217 | over every run the ids in the map are the disjoint union of those in the heap and those in workers' hands, and the heap is in order although execution changes keys |
| TaskManagers.PushedAgrees | Server/Task/TaskManager.cpp:135-139 | pushing an item keeps the heap and adds exactly it |
| TaskManagers.PoppedAgrees | Server/Task/TaskManager.cpp:129-133 | popping keeps the heap and removes exactly the front |
| TaskManagers.FrontIsActionable | Server/Task/TaskManager.h:26-41 | when no item gives up before it executes, any due item implies that the front is actionable |
| TaskManagers.NothingExecuted | Server/Task/TaskManager.cpp:57-60 | a task that gives up no later than it executes, as every one of this overload does, is never executed, over every run, whatever the other tasks do |
| TaskManagers.LookTakesActionable | Server/Task/TaskManager.cpp:149-216 | a worker takes the front off exactly when it is actionable |
| TaskManagers.OneOutcome | Server/Task/TaskManager.cpp:90-217 | over every run a task is timed out or returned by `destroy` at most once in all, and executed at most once for each dispatch |
| TaskManagers.OnlyTheLiving | Server/Task/TaskManager.cpp:166-214 | only a task that is not destroyed is executed, timed out or won; destroyed is for good |
| TaskManagers.OnlyWithTheCertificate | Server/Task/TaskManager.cpp:98-101 | nobody without its certificate is ever returned a task, over every run in which nobody who has it, nor the task itself, asks for it |
| TaskExecutions.ExecutionsBounded | Server/Task/TaskManager.cpp:149-217 | over every run a task is executed no more often than it was dispatched, nor than there are workers |
| TaskExecutions.BoundIsMet | Server/Task/TaskManager.cpp:70-217 | and it can be executed that often: a run with any number of workers, in which each times the task out, is overtaken by another dispatch, and executes it |
| TaskEnds.NeverForgotten | Server/Task/TaskManager.cpp:149-217 | over every run a task that was dispatched and has not ended is in the map or in the hands of a worker about to end it |
| TaskEnds.LostToAnEnd | Server/Task/TaskManager.cpp:106-121 | over every run a caller of `destroy` with the right certificate who is not returned the task lost it to an earlier end |
| TaskEnds.UndisturbedDestroy | Server/Task/TaskManager.cpp:90-121 | undisturbed, `destroy` with its certificate returns a live task in the map, once, and ends it; of an ended one it returns nothing, and with another certificate it does nothing |
| TaskEnds.DueIsExecuted | Server/Task/TaskManager.cpp:182-214 | left alone, a worker executes a due task once and puts it back to wait for its time-out, or out of the map if it ended itself |
| TaskEnds.NotYetIsLeft | Server/Task/TaskManager.cpp:149-217 | a task that is not due, or was executed, and not out of time is left in the heap |
| TaskEnds.EverythingEnds | Server/Task/TaskManager.cpp:156-180 | left alone once everything is out of time, a worker empties the map, and each live task in it has timed out once |
| TaskEnds.NoDeadlock | Server/Task/TaskManager.cpp:90-217 | over every run a task's mutex is free, or at most four steps of the one thread that has it free it: nobody leaves one behind, and nobody who has one waits for another |
| ManagerSections.TaskManager.Compare | Server/Task/TaskManager.h:26-41 | an item that was executed is ordered by its time-out, another by its time to execute |
| ManagerSections.TaskManager.PushHeap | Server/Task/TaskManager.cpp:135-139 | in place, computes the specification's heap |
| ManagerSections.TaskManager.PopHeap | Server/Task/TaskManager.cpp:129-133 | in place, computes the specification's heap |
| ManagerSections.TaskManager.Dispatch | Server/Task/TaskManager.cpp:70-88 | does to map and heap what the dispatch step does; refused exactly when the id is in the map |
| ManagerSections.TaskManager.Look | Server/Task/TaskManager.cpp:149-216 | does to map and heap what the looking step does, and finds the same next point of the worker |
| ManagerSections.TaskManager.MarkExecuted | Server/Task/TaskManager.cpp:187-192 | does to the item what the executing step does |
| ManagerSections.TaskManager.Finish | Server/Task/TaskManager.cpp:194-213 | the item leaves the map or goes back into the heap as the step says |
| FileTasks.PutInTwo | Client/File/FileTransmission.cpp:1026-1041 | writing a block in pieces is writing it whole |
| FileTasks.PutKeepsPrefix | Client/File/FileTransmission.cpp:1011-1046 | a source block written at its own position keeps the file a prefix of the source and never shortens it |
| FileTasks.TransferTask.InitIO | Client/File/FileTransmission.cpp:955-1000 | an open file stays as it is; without leave to override a file that is there is refused, exactly then, and nothing is touched; the file is emptied only when it is written from the start; a file that opens is at the task's progress |
| FileTasks.TransferTask.PutAll | Client/File/FileTransmission.cpp:1026-1041 | the `fwrite` loop writes the whole block at one place, however it is cut up |
| FileTasks.TransferTask.Write | Client/File/FileTransmission.cpp:1011-1046 | the block ends up at its position, or at the end of a file that is appended to, however the file system cuts it up, and the progress right behind it |
| FileTasks.TransferTask.Read | Client/File/FileTransmission.cpp:1048-1073 | what is read is the file's bytes at the position asked for, and the end of the file is reported exactly from its end on |
| FileTasks.TransferTask.WriteLocalFileBlock | Client/File/FileTransmission.cpp:405-438 | a task that is not transmitting or does not write is left alone; of every source the file is a prefix of, a block of it inside that prefix leaves a prefix, no shorter |
| FileTasks.TransferTask.ReadLocalFileBlock | Client/File/FileTransmission.cpp:450-495 | a task that is not transmitting or does not read is left alone; one's own finishes exactly when it reads at the end of the file, a partner's keeps its state |
| FileTasks.HandledSoundly | Client/File/FileTransmission.cpp:284-570 | whatever happens to a task, its state goes along the arrows, a task that is over does not move, the place in an open file is the progress, and only opening and writing touch the file |
| FileTasks.HandledDoes | Client/File/FileTransmission.cpp:284-743 | what each event is for: a failing reply ends one's own transmitting task with its file closed, FINISHED exactly at the end of the file, else FAILED with its error; a time-out leaves no task in use; a stopped one can be resumed |
| FileTasks.TransferTask.Handle | Client/File/FileTransmission.cpp:284-743 | so does the object, whose sections under its mutex run in place: its state goes along the arrows, failing replies end it, a time-out leaves it unused |
| FileTasks.TransferTask.HandleAll | Client/File/FileTransmission.cpp:284-743 | over any run of them |
| Transfers.OverForGood | Client/File/FileTransmission.cpp:284-393 | FINISHED and FAILED are absorbing in every run, file and progress included |
| Transfers.FinishedIsClosed | Client/File/FileTransmission.cpp:528-529 | over every run, once the viewer's transfer is finished, what it has still to say takes the task out of the guard's map and closes the guard's file, with both files as they are |
| Transfers.ViewerIsDriven | Client/File/FileTransmission.cpp:284-570 | over every run of the protocol the viewer's task goes through nothing but the operations of a task object |
| Transfers.DownloadByObject | Client/File/FileTransmission.cpp:284-570 | a task object that handles what happens in a download leaves the local file untouched or a prefix of the source, equal to it when FINISHED |
| Transfers.StepKeepsDownload | Client/File/FileTransmission.cpp:335-546 | every step of viewer and guard keeps the download invariant: prefix, positions asked for inside it, blocks on their way right |
| Transfers.ReadsAreBlocks | Client/File/FileTransmissionGuardAbility.cpp:400-441 | what the guard reads and sends is the source's block at the position asked for; it reports the end only past the end |
| Transfers.DownloadIsSafe | Client/File/FileTransmission.cpp:405-546 | over every run, with stops, resumes, timeouts, late, lost and repeated messages, the local file is untouched or a prefix of the source, and equal to it when FINISHED; a task that starts with progress must continue a prefix, with every appended block at its place |
| Transfers.BlockOutOfPlace | Client/File/FileTransmission.cpp:1011-1046 | a block appended to the local file out of its place leaves a prefix of the source exactly where the source repeats itself |
| Transfers.UndisturbedDownload | Client/File/FileTransmissionViewer.cpp:1004-1020 | undisturbed, a download leaves what the file had, if it starts with progress, followed by the rest of the source, also when it was added by the user's consent to override: right exactly if it starts from nothing or the file had just the bytes before |
| Transfers.DownloadCanFinish | Client/File/FileTransmissionViewer.cpp:465-494 | a download nothing interferes with fetches the whole file |
| Transfers.ReloadedDownloadIsRefused | Client/File/FileTransmission.cpp:820-855 | a download loaded when the process starts again never goes on if its local file is there, over every run, and leaves the file as it is |
| Transfers.ReloadedDownload | Client/File/FileTransmission.cpp:971-999 | if the file is gone a run ends FINISHED with just what comes after the stored progress |
| Transfers.ReloadedFromTheStart | Client/File/FileTransmission.cpp:820-855 | a reloaded download that had made no progress is safe over every run |
| Transfers.ReloadedDownloadIsRight | Client/File/FileTransmission.cpp:820-855 | a reloaded download ends FINISHED with nothing but the source, over every run, exactly if its file is there or it had made no progress |
| TransferEnds.FailingReplyEnds | Client/File/FileTransmission.cpp:497-573 | a failing reply to a block ends a transmitting viewer's transfer for good, over every run after it: FINISHED exactly for the end of the file, else FAILED with the reply's error, its file closed; and the guard is told and closes its file |
| TransferEnds.LeavingIsAnnounced | Client/File/FileTransmission.cpp:284-573 | whatever else takes a viewer out of transmission, but a time-out, is announced to the guard, which closes its file |
| TransferEnds.LateRepliesAreIgnored | Client/File/FileTransmission.cpp:335-592 | a reply that is not waited for changes nothing |
| TransferEnds.RefusalFails | Client/File/FileTransmission.cpp:370-393 | a refused opening fails a preparing viewer with the guard's error, for good |
| TransferEnds.TimeOutStops | Client/File/FileTransmission.cpp:733-760 | a time-out leaves neither side's task in use, and the guard's leaves the map with its file closed |
| TransferEnds.StopAndResume | Client/File/FileTransmission.cpp:284-333 | a stop takes the viewer out of transmission and closes the guard's file; a stopped task can be resumed at the progress it had |
| TransferEnds.StoppedDownloadCanFinish | Client/File/FileTransmission.cpp:309-333 | a download that was stopped or timed out, at any point of any run, can be resumed and finish with the source |
| TransferEnds.GuardIsSound | Client/File/FileTransmissionGuardAbility.cpp:370-480 | over every run the guard's open file is where its task's progress says |
| TransferEnds.GuardAnswersReads | Client/File/FileTransmissionGuardAbility.cpp:400-441 | every request for a block is answered, with the bytes of the guard's file at the place asked for or with an error |
| TransferEnds.GuardAnswersWrites | Client/File/FileTransmissionGuardAbility.cpp:443-480 | every block sent is answered: it is written, or the file is as it was |
| TransferEnds.GuardAnswersOpens | Client/File/FileTransmissionGuardAbility.cpp:370-391 | every request to open is answered, and the task known exactly if the file was opened |
| Uploads.StepKeepsUpload | Client/File/FileTransmission.cpp:450-592 | every step that fits the guard's file keeps the upload invariant, whatever was stopped, resumed or opened again before |
| Uploads.FittingUploadIsSafe | Client/File/FileTransmission.cpp:450-592 | over every run whose steps fit, with any number of sessions, every acknowledged position is in place in the guard's file, which is a prefix of the source and equal to it when FINISHED; a task that starts with progress must continue a prefix |
| Uploads.UnfitOpening | Client/File/FileTransmission.cpp:971-999 | an opening that does not fit, after any run of steps that do, empties the guard's file of bytes the viewer was told were written, so the state is not safe |
| Uploads.MisplacedBlock | Client/File/FileTransmission.cpp:1011-1046 | a block appended out of its place leaves a prefix of the source exactly where the source repeats itself there |
| Uploads.BegunTooFar | Client/File/FileTransmission.cpp:358-366 | a viewer that begins past the guard's file fails, ends FINISHED with a wrong file, or sends a block behind a gap |
| Uploads.UploadIsSafe | Client/File/FileTransmission.cpp:450-592 | over every run in which the viewer begins once and the guard opens its file once all steps fit, so it is safe |
| Uploads.ReopeningRefused | Client/File/FileTransmission.cpp:955-1000 | without leave to override the guard refuses to open a file it has, leaves it alone, and the viewer that hears of it fails |
| Uploads.RefusedForGood | Client/File/FileTransmission.cpp:955-1000 | over every run a file the guard has from before is left alone without leave to override it, and the transfer never begins |
| Uploads.UploadWithoutOverride | Client/File/FileTransmissionViewer.cpp:618-636 | so without it, which the viewer's own transfers never ask for, every run is safe, however often stopped and resumed, in which no open reply is acted on twice, if the task starts from nothing or is refused |
| Uploads.UploadCanFinish | Client/File/FileTransmissionViewer.cpp:503-516 | an upload nothing interferes with sends the whole file |
| Uploads.ResumedUpload | Client/File/FileTransmission.cpp:971-999 | taken up from any state of the channels and undisturbed from then on, by the task that was stopped or by the new one a consent to override adds, an upload leaves what the guard had followed by what the viewer had not read: right exactly when the guard had just what the viewer had read, or that was nothing |
| Uploads.ResumedUploadLosesABlock | Client/File/FileTransmission.cpp:294-333 | a run of any upload of one block with leave to override, stopped between reading the block and sending it, whose block the guard refuses after it has closed its file: resumed, it ends FINISHED with an empty file |
| Uploads.ReloadedUpload | Client/File/FileTransmission.cpp:820-855 | if the guard does not have the file, a run of a reloaded upload ends FINISHED with just what comes after the stored progress |
| Uploads.ReloadedUploadIsRight | Client/File/FileTransmission.cpp:820-855 | a reloaded upload, over every run in which no open reply is acted on twice, ends FINISHED with nothing but equal files exactly if the guard has the file, and so refuses it, or there was no progress |
| TransferQueues.NoneIsLost | Client/File/FileTransmission.cpp:691-768 | over every run a live self-started task in the map is in the queue or in the hands of `exec` or `resumeTask` |
| TransferQueues.RemoveFirst | Client/File/FileTransmission.cpp:255-266 | the loop over the queue erases the first copy of the id and nothing else |
| TransferQueues.RemoveKeeps | Client/File/FileTransmission.cpp:253-282 | removing the first copy of an id from the queue loses no other task |
| TransferQueues.OverStaysOver | Client/File/FileTransmission.cpp:748-760 | FINISHED and FAILED are absorbing whoever acts on the task |
| TransferQueues.RoundLooksAtAll | Client/File/FileTransmission.cpp:691-768 | one round of the scheduler's thread looks at every task in the queue: waiting ones start or fail, used ones that are out of time stop, a partner's that are over or stopped leave the map, and nothing else changes |
| TransferQueues.ResumedIsStarted | Client/File/FileTransmission.cpp:309-333 | one's own stopped task, once resumed, is started in the next round |
| TransferQueues.RemovedIsGone | Client/File/FileTransmission.cpp:253-282 | a removed task is out of the map and its first object out of the queue, and all else stays |
| TransferQueues.StaysUntilRemoved | Client/File/FileTransmission.cpp:160-282 | over every run a task its own side started stays the map's for its id until it is removed, whoever else adds one with that id |
| TransferQueues.StopsAsTheTask | Client/File/FileTransmission.cpp:284-333 | stopping and resuming do to the scheduler's state of a task what they do to the task |
| TransferQueues.OpensAsTheTask | Client/File/FileTransmission.cpp:335-393 | so do the replies to opening |
| TransferQueues.FailsAsTheTask | Client/File/FileTransmission.cpp:497-573 | so do failed blocks |
| TransferQueues.LooksAsTheTask | Client/File/FileTransmission.cpp:706-760 | so does the scheduler's thread when it looks |
| LinuxConnections.Connection.Transmit | Global/Component/EasyIO/EasyIOTCPConnection_linux.cpp:161-200 | the send loop gives the socket a prefix of the buffer and keeps the count |
| LinuxConnections.Connection.SendAlone | Global/Component/EasyIO/EasyIOTCPConnection_linux.cpp:141-158 | a buffer that finds the queue empty goes to the socket, as much of it as the socket takes, and what is left waits with EPOLLOUT armed |
| LinuxConnections.Connection.Send | Global/Component/EasyIO/EasyIOTCPConnection_linux.cpp:129-159 | bytes are given or queued in order; only a buffer that finds the queue empty is sent at once; EPOLLOUT is disarmed only on an empty queue; both assertions hold |
| LinuxConnections.Connection.EventTransmit | Global/Component/EasyIO/EasyIOTCPConnection_linux.cpp:374-387 | the event thread's first section sends from the front buffer |
| LinuxConnections.Connection.EventPop | Global/Component/EasyIO/EasyIOTCPConnection_linux.cpp:388-403 | its second takes exactly the completed buffer off, whatever was queued meanwhile |
| LinuxConnections.Connection.EventDisarm | Global/Component/EasyIO/EasyIOTCPConnection_linux.cpp:445-450 | its third disarms EPOLLOUT exactly if nothing waits |
| LinuxConnections.Connection.Disconnect | Global/Component/EasyIO/EasyIOTCPConnection_linux.cpp:78-88 | a connected connection is marked once |
| LinuxConnections.Connection.EventEnd | Global/Component/EasyIO/EasyIOTCPConnection_linux.cpp:91-108 | the event thread closes a marked or failed connection, exactly then, and empties its queue |
| LinuxConnections.Connection.EventLeave | Global/Component/EasyIO/EasyIOTCPConnection_linux.cpp:109-127 | having left the lock it says farewell, and clears the mark last |
| LinuxConnections.Connection.Drain | Global/Component/EasyIO/EasyIOTCPConnection_linux.cpp:372-450 | a willing socket has taken every byte handed to `send`, in order, when the event thread is no longer called |
| LinuxConnections.AnyRun | Global/Component/EasyIO/EasyIOTCPConnection_linux.cpp:129-205 | over any run the connection lives unless a thread disconnects it or the socket fails; while it lives, bytes given to the socket followed by the queued bytes are all submitted bytes in order; the pending count is exact; EPOLLOUT is armed while anything waits; one farewell is said at its end |
| LinuxConnections.RunAndDrain | Global/Component/EasyIO/EasyIOTCPConnection_linux.cpp:129-205 | after any such run a willing socket gets all of what was handed to `send`, in order |
| WinConnections.StepInv | Global/Component/EasyIO/EasyIOTCPConnection_win.cpp:76-492 | every section of every thread keeps the count of posted operations exact and the closing conditions |
| WinConnections.DisconnectsOnce | Global/Component/EasyIO/EasyIOTCPConnection_win.cpp:76-138 | over every run `onDisconnected` is called at most once, with nothing overlapped left, and a half-closed connection with nothing posted always has a thread about to finish |
| WinConnections.FarewellIsLast | Global/Component/EasyIO/EasyIOTCPConnection_win.cpp:93-121 | the step that says farewell is taken with nothing in flight but the operation being completed, on a closed handle |
| WinConnections.SentTaskIsThere | Global/Component/EasyIO/EasyIOTCPConnection_win.cpp:369-378 | the assertion in `popFirstTask` holds of sends over every run |
| WinConnections.PendingIsWhatWaits | Global/Component/EasyIO/EasyIOTCPConnection_win.cpp:155-160 | the assertions on the pending count hold over every run: it is the sum of what is left of the buffers in the list |
| WinConnections.NothingIsForgotten | Global/Component/EasyIO/EasyIOTCPConnection_win.cpp:388-465 | over every run, as long as the handle is open, what waits to be sent is with the system or on the completion thread's way back to it, or the connection is about to be closed; so for buffers to fill; and a mark is about to be cleared once the connection is closed |
| WinConnections.Drain | Global/Component/EasyIO/EasyIOTCPConnection_win.cpp:388-465 | from then on a system that takes what it is given has taken every byte in the end, however it cuts them up |
| WinConnections.RunAndDrain | Global/Component/EasyIO/EasyIOTCPConnection_win.cpp:140-465 | so after every run in which nobody disconnects and nothing fails |
| WinConnections.RunAndFill | Global/Component/EasyIO/EasyIOTCPConnection_win.cpp:190-465 | after every run in which nobody disconnects and nothing fails, a system that fills the buffers it is given has filled each of them in the end |
| WinConnections.FinishClosing | Global/Component/EasyIO/EasyIOTCPConnection_win.cpp:76-138 | a connection whose handle is closed is disconnected in the end, its mark cleared and one farewell said |
| WinConnections.DisconnectCloses | Global/Component/EasyIO/EasyIOTCPConnection_win.cpp:52-69 | so after every run a thread can disconnect the connection |
| WinConnections.ReceivedTaskIsThere | Global/Component/EasyIO/EasyIOTCPConnection_win.cpp:369-378 | it holds of receives over every run in which no other thread posts between the pop and the repost |
| WinConnections.PostingTwiceFails | Global/Component/EasyIO/EasyIOTCPConnection_win.cpp:445-446 | from any state in which one does, the assertion can be made to fail: the same task is posted twice |
| SpeedCalculations.FullRing | Global/Component/SpeedCalculation/SpeedCalculation.cpp:36-49 | what has fallen off a full ring cannot count any more |
| SpeedCalculations.NothingMissed | Global/Component/SpeedCalculation/SpeedCalculation.cpp:36-49 | twelve slots are enough: unless the clock was set back, no value of the last ten slots is missed |
| SpeedCalculations.MissesWhenSetBack | Global/Component/SpeedCalculation/SpeedCalculation.cpp:36-49 | a history of a clock set back of which the meter misses all that is recent |
| SpeedCalculations.SpeedCalculation.constructor | Global/Component/SpeedCalculation/SpeedCalculation.cpp:6-21 | a new meter has seen nothing |
| SpeedCalculations.SpeedCalculation.Add | Global/Component/SpeedCalculation/SpeedCalculation.cpp:26-33 | one slot on, or the same slot, the ring holds the end of the log |
| SpeedCalculations.SpeedCalculation.Update | Global/Component/SpeedCalculation/SpeedCalculation.cpp:23-34 | an update is recorded, in twelve slots whatever the history and the time |
| SpeedCalculations.SpeedCalculation.Get | Global/Component/SpeedCalculation/SpeedCalculation.cpp:36-49 | the meter shows the sum of all values whose slot is within the last ten, by the whole history, less exactly what lies before an older slot or twelve back; that is nothing unless the clock was set back |
| BlackLists.CountedStill | Server/BlackList.cpp:150-180 | a counter stays the number of the last events in a row of one period |
| BlackLists.StreakIsWithin | Server/BlackList.cpp:150-180 | which are all events of that period, if the clock was never set back |
| BlackLists.MinutesWithinHour | Server/BlackList.cpp:205-212 | five minutes never count more than their hour |
| BlackLists.IncreasedAgrees | Server/BlackList.cpp:140-182 | after each event the status agrees with the whole history and the minute count is at most the hour count |
| BlackLists.BlackList.Bump | Server/BlackList.cpp:150-180 | the two counters and the two blocks together are the hour's block: the shorter is always overwritten |
| BlackLists.BlackList.Increase | Server/BlackList.cpp:140-182 | an event is recorded for its key |
| BlackLists.BlackList.Check | Server/BlackList.cpp:184-197 | a key is turned away exactly until an hour after the last of its events that was at least the fifth in a row of its clock hour |
| BlackLists.BlockedWithinTheHour | Server/BlackList.cpp:184-197 | if the clock was never set back, that is: exactly when one of its events in the last hour was at least the fifth of its clock hour |
| BlackLists.BlackList.Remove | Server/BlackList.cpp:199-203 | a key is forgotten |

## Left out

- Screen capture, codecs, widgets, terminals, key maps, OpenSSL, zlib, protobuf and SQL: foreign libraries, user interface and storage plumbing.  Encryption is arbitrary bytes, compression is lossless.
- Sharing rooms, handler factory, loggers, command lines, address book, account manager: they would only add easy members.
- Sockets, epoll and completion ports: environment steps that take some bytes, would block, or fail.  A socket that takes zero bytes without an error is not modelled.
- Floating-point rounding and the 32-bit `long` in `updateRLW`: tags are reals, times and sizes are unbounded integers, and the cast to `long long` truncates towards zero.  Arrivals are at least 501 ms, as epoch times are.
- 32- and 64-bit overflow elsewhere: sizes stay below 2^63 and counters below their types' limits; frame words alone wrap, in `Framing.Word`.
- RequestProcessors.Heap.PushHeap: the heap algorithms swap where a library moves a hole; the arrays they leave are the same.
- RequestProcessors.Heap.Push: a connection belongs to one heap, as it is served by one event thread; handlers are opaque, except that a manager's login may change the rate; `con` is compared by identity.
- RequestProcessors.Heap.Exec: waiting on the condition variable and the 1 ms sleep are not modelled; the thread serves at arbitrary times.
- UserConnections.UserConnection.Throughput: the bound is for requests accepted under rates no larger than the one it is stated for; a manager's login raises the rate for those after it.
- ByteBuffers.ByteBuffer.WriteBuffer: appending a buffer to itself, or to a copy that shares its block, is modelled where there is room for it; where there is not, the block it reads from is replaced on the way, which is not modelled.
- ByteBuffers.ByteBuffer.MoveReaderIndex: for a negative offset the bytes that come back into view are stated where the block still holds them, that is as long as nobody moved the writer back over bytes that were read.
- Framing.FrameReader.HandleReceivedData: which requests the scheduler takes is a function of their number; what it does with them is `RequestProcessors.Heap.Push`.  Login flags and the ability list of the clients are a predicate on tags.
- The locks' update of plain fields is a step of its own.  `RecursiveLocks.BareStep` is a variant that the code is not, to show what the read section inside `writeUnlock` is for.  Fairness and starvation are not claimed: a spinning thread may spin for ever.
- TaskManagers.OneOutcome: `timeout` calling back into the manager, shutdown, and how soon a sleeping worker wakes are not modelled; `execute` may do nothing, destroy its task, or ask the manager to.
- Locks, transfer protocol, transfer queue, Windows connection, and the interleavings of the task manager are step machines on values, not objects updated in place: aliasing of their objects is not captured.
- FileTasks.TransferTask.Write: a `fwrite` that writes nothing of a block that is not empty is not modelled; the code reports no error for it and closes the file.
- Transfers.DownloadIsSafe: the source does not change during the transfer, nor before a reloaded task goes on with it.  Where the file is appended to, that every block comes at its place is a condition, since a repeated block would be appended twice.  Removing a task only takes handlers away and is not a step.
- Uploads.FittingUploadIsSafe: that every step fits is sufficient; it is necessary of openings only, since a source may repeat itself where a block is misplaced, or a task may fail in time.
- FileTasks.TransferTask.Handle: time is not counted, and the scheduler's maps, notifications and database are not part of the object.
- TransferQueues.NoneIsLost: says that a live task is kept, not how soon it is looked at.  On a partner's side `exec` erases by id, which may take a newer task's entry; only self-started tasks are claimed to be kept.
- LinuxConnections.AnyRun: buffers are not shared between sends or with other owners; the receiving half is left out.
- WinConnections.DisconnectsOnce: connections start connected, as accepted ones do; the client's overlapped connect and reconnecting are left out, and so is `syncDisconnect`'s wait.
- BlackLists.BlackList.Increase: times are counted from a midnight; the one call's several looks at the clock give one time.  Manual blocks and listings are left out (`addAccount` stores an account as an address, Server/BlackList.cpp:81).
