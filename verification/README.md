# A verified model of gsutil's shared library

gsutil is a command-line tool for cloud storage. Most of it moves requests and replies; this project
models the parts of its library that are algorithms, and proves that they do what the rest of the tool
relies on.

| module | what it models |
|---|---|
| `ApplyProgram` | what a command asks of `Command.Apply`: a finite tree of arguments, task functions and nested calls, and what the tree means |
| `ApplyMachine` | the parallel Apply in thread mode: waiting callers, producers, and workers of one pool per recursion level, as atomic steps over shared maps and bounded queues |
| `ApplyInvariant`, `ApplyPreserve`, `ApplyWorkers` | the invariant of that machine, and the proof that every step keeps it |
| `ApplyDeadlock`, `ApplyTermination` | no deadlock, exact completion, one pool per level; every schedule is finite |
| `ApplyResults`, `ApplyShared` | results and shared attributes |
| `ApplyAttribute`, `ApplyRefinement` | what the sequential Apply leaves of an attribute, and the parallel Apply against it |
| `ApplyLosses` | calls of which every schedule loses all changes |
| `SequentialApply` | `_SequentialApply`, `PerformTask` and the shared-variable updater as methods that change one command object |
| `DispatcherPermits` | the bounded semaphore of `_ApplyThreads` |
| `DaisyChain`, `DaisyChainLiveness`, `DaisyChainExamples` | the buffer between a download thread and an upload reader as a state machine; why the two never keep each other waiting; runs with unsupported seeks |
| `DaisyChainWrapper` | the wrapper as an object: `write`, `read` and `seek` made of its lock blocks, while the download thread takes any number of turns in between |
| `ReplayBuffer` | the window on the last bytes of an unseekable stream |
| `XmlUpload` | resumable upload over the XML API against a service that may fail and forget |
| `JsonTransfer` | the retry loops of the JSON API, and the rewrite loop |
| `Progress` | progress callbacks, and the byte counting of the upload connection |
| `CloudUrl` | parsing and printing of cloud URLs |
| `PemSections` | splitting a PEM file |
| `TabCompletion` | the tab-completion cache |
| `Lookahead`, `CopyIteration` | the iterator with lookahead, and the iterator of a copy command |
| `Sequences`, `Sums`, `Wrappers` | bytes and chunks, sums and bags, `Option` and `Result` |

Bytes are never looked at, so a byte is an `int`. Python's `None` is `None` of `Option`, an exception is
an `Err` or a state, and a call to the network is a method that may do anything its contract allows.

## What the proofs found

Each of these is a place where the code does not do what its own documentation, or the caller, may
expect. The model follows the code, and the named member says exactly when the result is right.

- A shared attribute is set to 0 for the time of an Apply call and restored only when the call returns.
  If the call raises, its original value is forgotten: `SequentialApply.Command.Apply` (right if and only if
  it was 0) and `SequentialApply.RaisingCallForgetsAttribute`.
- In threads three kinds of changes vanish when a nested call shares the attribute and raises: what the task
  that called it had changed before, what the nested call and the calls in it changed, and what the same
  worker had already published for earlier tasks. The shared variable is right if and only if all that was
  lost adds up to 0: `ApplyShared.SharedVariableExact`. If every task of a call ends like that, every schedule
  loses everything: `ApplyLosses.ForgetfulLosesAll`; `ApplyLosses.ChangesAreLost` has a program that adds d and
  e, of which threads keep nothing and the sequential Apply keeps e.
- A nested Apply that does not share the attribute changes the same object without threads, and copies
  with threads, where nobody sees the change. So the parallel and the sequential Apply can leave different
  attributes also if nothing raises: `ApplyRefinement.AttributeAgainstSequential` says exactly when, for every
  program; `ApplyRefinement.ThreadsHideNestedChange` has a program that leaves 6 without threads and 5 with
  them.
- Daisy-chain rewinds and restarts are right exactly when no part of a chunk is left over, and a
  `seek(0)` right after a restart elsewhere serves the wrong bytes: `DaisyChain.RewindExact`,
  `DaisyChain.RestartExact`; reachable states in `DaisyChainExamples.RewindServesWrongByte` and
  `DaisyChainExamples.SeekToStartServesWrongByte`.
- A failed download is never forgotten by the daisy-chain wrapper, not even when it is restarted: from then on
  every read that finds nothing buffered raises the old exception, although the new thread may be about to
  deliver: `DaisyChain.FailureStays`.
- After `read(-1)` has found new data, the replay buffer's window is no longer that of the stream:
  `ReplayBuffer.Wrapper.ReadAll`, `ReplayBuffer.Wrapper.Read`, `ReplayBuffer.Wrapper.Seek`; a granted seek
  back after which a read silently ends too early is in `ReplayBuffer.ReadAllBreaksWindow`.
- The replay buffer grants a seek from the end by more bytes than the stream has. Reads from there slice the
  first chunk with a negative offset, or raise if the stream was empty: `ReplayBuffer.Wrapper.ReadSized`,
  `ReplayBuffer.SeekBeforeStart`; what they return is in `ReplayBuffer.BeforeNear` and `ReplayBuffer.BeforeFar`.
- The XML upload promises to reset its retry count whenever it makes progress, but it compares the first
  byte of the service's range, which is always 0: there are never more than `num_retries + 1` attempts
  (`XmlUpload.BotoResumableUpload.SendFile`).
- An XML upload that is resumed when the service already has the whole file does not seek, and aborts
  unless the file pointer happens to be at the end: `XmlUpload.BotoResumableUpload.SendFile`, and for a
  concrete upload `XmlUpload.ResumeWholeFile`.
- The timeout of the progress callback subtracts its times the wrong way round, and never fires:
  `Progress.TimeoutNeverFires`.
- The URL `://` is printed as `://None/None`: `CloudUrl.RoundTrip`. For S3 objects with a `#` in their
  name the wildcard made by `CreatePrefixUrl` becomes part of a version, and a wildcard that ends like a
  generation becomes one: `CloudUrl.PrefixOfObject`, `CloudUrl.S3WildcardBecomesVersion` (for example
  `s3://b/a#` and `*`). Without a wildcard the prefix URL of an object named `/` is that of its bucket:
  `CloudUrl.ObjectPrefixWithoutWildcard`.

## Model

| member | source | states |
|---|---|---|
| `ApplyProgram.StopFrom` | gslib/command.py:2115-2137 | the producer consumes events up to, and not including, the first argument on which `arg_checker` raises |
| `ApplyProgram.HaltFrom` | gslib/command.py:2386-2391 | a task's body is run up to its first nested Apply that raises |
| `ApplyProgram.EventsDeltaCredit` | gslib/command.py:2518-2533 | publishing one more task adds exactly its own change |
| `ApplyProgram.ValueBagRecord` | gslib/command.py:2387-2389 | recording one more result adds exactly its value |
| `ApplyProgram.PrefixStep` | gslib/command.py:1609-1637 | one turn of the sequential loop adds its event's change and value |
| `ApplyProgram.CallValuesExact` | gslib/command.py:1609-1654 | what `_SequentialApply` returns: the values of the accepted arguments whose tasks succeed, before the first one on which the checker raises, in the order of the arguments |
| `ApplyProgram.EmptyTask` | gslib/command.py:2390-2396 | a task that does nothing changes the attribute only if it raises, by what its exception handler adds |
| `ApplyProgram.TaskAppend` | gslib/command.py:2385-2396 | one more action at the end of a task adds its change, or runs a nested Apply on the attribute as it is then; if that raises, the task fails and is handled |
| `ApplyProgram.TaskStops` | gslib/command.py:2385-2391 | what stands behind a nested Apply that raises is not performed |
| `ApplyInvariant.InitInv` | gslib/command.py:1374-1408 | a fresh top-level Apply satisfies the invariant, for any number of threads |
| `ApplyPreserve.ProducerKeeps` | gslib/command.py:2103-2224 | every step of a producer keeps the invariant, including the delayed last enqueue |
| `ApplyPreserve.WaitSetUp` | gslib/command.py:1737-1808 | creating the queue and the pool of a level keeps the invariant |
| `ApplyPreserve.ProdPutLast` | gslib/command.py:2186-2197 | the last task is enqueued after `total_tasks` is set, so no worker can see all tasks done before |
| `ApplyWorkers.WorkerKeeps` | gslib/command.py:2376-2432 | every step of a worker keeps the invariant: take, run, nested call, record, handle, publish, count, compare, notify |
| `ApplyWorkers.WorkCount` | gslib/command.py:2403-2412 | counting after publishing keeps "done implies published" |
| `ApplyWorkers.WaiterKeeps` | gslib/command.py:1852-1881 | every step of a waiting caller, also its return to the task that called it, keeps the invariant |
| `ApplyWorkers.StepKeeps` | gslib/command.py:1657-1889 | any step of any thread keeps the invariant |
| `ApplyWorkers.ReachableInv` | gslib/command.py:1657-1889 | the invariant holds in every state of every run of every program |
| `ApplyDeadlock.SomeStep` | gslib/command.py:1737-1866 | while a call is unfinished, some thread can step: the deepest level waits for nobody |
| `ApplyDeadlock.DeadlockFree` | gslib/command.py:1737-1866 | deadlock freedom for all programs, nesting depths, thread counts and schedules |
| `ApplyDeadlock.OnePoolPerLevel` | gslib/command.py:1786-1810 | under all races: one queue and one pool of `threads` workers for each level, and at most one thread adds a level |
| `ApplyDeadlock.CompletedDone` | gslib/command.py:2536-2555 | completion is recorded only when the done tasks are exactly the accepted ones |
| `ApplyDeadlock.CompletionSound` | gslib/command.py:2403-2432 | `call_completed_map[c]` is true only after every accepted task of c was performed exactly once and no other was |
| `ApplyDeadlock.CompletionRecorded` | gslib/command.py:2174-2224 | once the producer has exited and all tasks are performed, also when there were none, completion is recorded and the waiter is awake |
| `ApplyDeadlock.NoMissedWakeUp` | gslib/command.py:2551-2555 | `notify_all` misses nobody: no caller is ever waiting while its call is completed, whatever happens between its look at the map and its wait |
| `ApplyTermination.StepLower` | gslib/command.py:1657-1889 | every step lowers the measure of the work left |
| `ApplyTermination.EveryScheduleStops` | gslib/command.py:1852-1866 | no schedule, fair or not, runs for ever |
| `ApplyTermination.StuckMeansReturned` | gslib/command.py:1852-1866 | when nobody can step, every Apply call at every level has returned |
| `ApplyTermination.SomeRunReturns` | gslib/command.py:1852-1866 | from every reachable state some run leads to one in which every call has returned |
| `ApplyResults.ResultsPermuted` | gslib/command.py:2386-2389 | a completed call's results are a permutation of what `_SequentialApply` returns |
| `ApplyShared.SharedVariableExact` | gslib/command.py:2490-2533 | for every program and schedule, the shared variable of a completed call is the sum of all changes by functions, exception handlers and nested sharing calls, raising ones included, less what was lost; so it is exact if and only if that adds up to 0 |
| `ApplyShared.QuietLosesNothing` | gslib/command.py:2490-2533 | if no nested call that shares the attribute raises, nothing is lost in any schedule |
| `ApplyLosses.ForgetfulLosesAll` | gslib/command.py:1493-1499 | if every task of a call ends in a nested sharing call that raises, the shared variable is 0 at completion for any number of threads and any schedule: all changes are lost |
| `ApplyLosses.ChangesAreLost` | gslib/command.py:1490-1568 | a task adds d and makes a nested call that adds e and raises: some run returns, and it has lost d + e, while the sequential Apply leaves e |
| `ApplyAttribute.CallSum` | gslib/command.py:1490-1568 | for every program, what a sequential call leaves of an attribute, as a sum: its original value, all changes threads publish, the changes of nested calls that do not share it, less what raising sharing calls forget |
| `ApplyAttribute.QuietForgetsNothing` | gslib/command.py:1493-1499 | if no nested sharing call raises, only the call itself can forget its original value, when it raises |
| `ApplyAttribute.NestedShareHidesNothing` | gslib/command.py:1557-1566 | if all nested calls share the attribute, there are no changes that only the sequential Apply keeps |
| `ApplyRefinement.ParallelRefinesSequential` | gslib/command.py:1585-1654 | every schedule that returns raises in the same cases as the sequential Apply, and returns the same values up to order |
| `ApplyRefinement.ParallelAttribute` | gslib/command.py:1557-1568 | the attribute after a parallel Apply, for every program: as it was, 0 after raising, or changed by all published changes less the lost ones |
| `ApplyRefinement.AttributeAgainstSequential` | gslib/command.py:2422-2432 | for every program and schedule, parallel and sequential attribute differ by exactly what is lost in threads, hidden in the copies of the command, and forgotten by the sequential run, so they are equal if and only if these balance; covers calls that raise and calls that do not share the attribute |
| `ApplyRefinement.QuietAttribute` | gslib/command.py:1557-1568 | if no nested sharing call raises, whether they are equal can be told from the call alone; they are if all nested calls share the attribute |
| `ApplyRefinement.ThreadsHideNestedChange` | gslib/command.py:2422-2432 | a program that changes an attribute of 5 to 6 without threads, and leaves it at 5 in every schedule with threads |
| `SequentialApply.SharedVariablesUpdater.Update` | gslib/command.py:2518-2533 | the shared variable grows by what changed since the last update, and nothing else changes |
| `SequentialApply.Command.Apply` | gslib/command.py:1442-1571 | for every program: raises exactly when `arg_checker` does, returns the values in order, and leaves the attribute that `CallAttr` gives, also when it raises; a shared attribute is its original value plus the changes if and only if the call returns or it was 0 |
| `SequentialApply.Command.RunEvents` | gslib/command.py:1585-1654 | the loop with its final update publishes every change, also those after the last task |
| `SequentialApply.Command.PerformTask` | gslib/command.py:2376-2412 | one task adds its value if it succeeds, makes its change in every case and publishes what is new since the last update; it disturbs no other caller |
| `SequentialApply.Command.RunBody` | gslib/command.py:2386 | the function's changes and nested calls on the same object, up to its end or its first nested call that raises |
| `SequentialApply.RaisingCallForgetsAttribute` | gslib/command.py:1493-1499 | an attribute of 5 is 0 after an Apply call that raises at once |
| `DispatcherPermits.StepConserves` | gslib/command.py:1952-1973 | every step of the dispatcher and the workers conserves the permits |
| `DispatcherPermits.PermitsConserved` | gslib/command.py:1935-1973 | in every reachable state free, held, queued and busy permits add up to `thread_count`, and the semaphore is never over-released |
| `DispatcherPermits.WorkIsHandedOver` | gslib/command.py:1952-1973 | the threads take exactly the tasks the global queue delivers, each once, in that order and never a no-work marker; a task that waits in the pool's queue finds a thread that is not performing one |
| `DaisyChain.TakeDelivers` | gslib/daisy_chain_wrapper.py:264-288 | what a read takes is the object's bytes at its position, and the rest still continues from there |
| `DaisyChain.RewindStreams` | gslib/daisy_chain_wrapper.py:311-317 | a supported rewind pushes back exactly the bytes of the last read |
| `DaisyChain.SeekKeeps` | gslib/daisy_chain_wrapper.py:294-325 | every supported seek keeps the invariant |
| `DaisyChain.DrainKeeps` | gslib/daisy_chain_wrapper.py:327-336 | the drain ends with a byte count of 0 and never runs out of chunks |
| `DaisyChain.StepKeeps` | gslib/daisy_chain_wrapper.py:57-349 | any step of either thread keeps the invariant |
| `DaisyChain.DeliveryExact` | gslib/daisy_chain_wrapper.py:232-288 | under any interleaving, a read at p returns the object's bytes from p on, at least one and at most as many as asked for |
| `DaisyChain.MemoryBounded` | gslib/daisy_chain_wrapper.py:57-70 | `bytes_buffered` is exact and never exceeds `max_buffer_size - 1 + 2T` |
| `DaisyChain.MemoryOfWrapper` | gslib/daisy_chain_wrapper.py:124-126 | with the sizes the wrapper uses, less than 1.125 MiB are held |
| `DaisyChain.RestartIsClean` | gslib/daisy_chain_wrapper.py:327-346 | no byte of the old download survives a restart, and the new one starts where the upload goes on |
| `DaisyChain.FailureStays` | gslib/daisy_chain_wrapper.py:249-263 | once the download has failed, in every later state of every run a waiting read raises if and only if nothing is buffered, also after a restart |
| `DaisyChain.OneRequestAtMost` | gslib/daisy_chain_wrapper.py:188-206 | once asked to stop, the old download thread finishes its request and makes at most one more, which it had already decided on |
| `DaisyChainLiveness.StepHelps` | gslib/daisy_chain_wrapper.py:249-263 | while the upload waits, every step of the thread whose turn it is brings the end of the wait nearer by one measure, and no step of the other moves it away |
| `DaisyChainLiveness.FairWaitEnds` | gslib/daisy_chain_wrapper.py:249-263 | under every fair schedule the wait of `read`, and the wait of a restart for the old download thread, ends within a number of rounds known from the start |
| `DaisyChainLiveness.NoStall` | gslib/daisy_chain_wrapper.py:249-263 | while the upload waits, some step ends the wait or brings its end nearer |
| `DaisyChain.RewindExact` | gslib/daisy_chain_wrapper.py:311-317 | a rewind gives a correct stream if and only if no part of a chunk is left over (or nothing is pushed back and the stream is there), or the download has failed and nothing is to come |
| `DaisyChain.RestartExact` | gslib/daisy_chain_wrapper.py:318-346 | a restart drains without running out of chunks, and counts right, if and only if no part of a chunk is left over |
| `DaisyChainExamples.RewindServesWrongByte` | gslib/daisy_chain_wrapper.py:311-317 | a reachable state in which a rewind to 0 is followed by a read that returns the second byte |
| `DaisyChainExamples.SeekToStartServesWrongByte` | gslib/daisy_chain_wrapper.py:338-343 | a reachable state after a restart at 1 in which `seek(0)` is followed by a read that returns the byte at 1 |
| `DaisyChainWrapper.Wrapper.SeeSpace` | gslib/daisy_chain_wrapper.py:59-64 | `write` goes on exactly when fewer than `max_buffer_size` bytes are pending, however they are spread over chunks and left-over data |
| `DaisyChainWrapper.Wrapper.AppendData` | gslib/daisy_chain_wrapper.py:67-70 | the new bytes go behind everything that is pending |
| `DaisyChainWrapper.Wrapper.DownloadTurn` | gslib/daisy_chain_wrapper.py:188-217 | each turn of the download thread is one step of the machine, so the object stays in a reachable state; a request asks for a chunk or for what is left, and between requests the thread obeys `stop_download` and clears it |
| `DaisyChainWrapper.Wrapper.LetDownloadRun` | gslib/daisy_chain_wrapper.py:188-217 | any number of turns touch nothing of the upload and only add to the deque; while the upload waits for them, they bring the end of the wait nearer |
| `DaisyChainWrapper.Wrapper.PollBuffer` | gslib/daisy_chain_wrapper.py:251-261 | one turn of the waiting loop ends it with data exactly if the deque is not empty, and raises exactly if it is empty and the download has failed |
| `DaisyChainWrapper.Wrapper.WaitForData` | gslib/daisy_chain_wrapper.py:249-263 | the waiting loop ends, with data in the deque, or because the download has failed and the deque is empty; what was in the deque before stays there |
| `DaisyChainWrapper.Wrapper.Take` | gslib/daisy_chain_wrapper.py:264-288 | returns the object's bytes at the position and remembers them for a rewind: what is left over, or the front of the first chunk, as long as asked for if the chunk is; the rest of the chunk is left over |
| `DaisyChainWrapper.Wrapper.Read` | gslib/daisy_chain_wrapper.py:232-288 | `read` ends and returns the object's bytes at the position, none exactly at the end or for a size of 0; too large a size is refused exactly then; it raises the download's exception only if the download has failed and nothing is left over or buffered, so a read with data at hand never does; data left over comes first, then the first chunk |
| `DaisyChainWrapper.Wrapper.ReadRest` | gslib/daisy_chain_wrapper.py:232-288 | reading on until nothing comes gives exactly the rest of the object |
| `DaisyChainWrapper.Wrapper.SeekTo` | gslib/daisy_chain_wrapper.py:307-325 | a supported seek ends at the offset with the object's bytes from there to come, or decides to restart the download there, exactly if the offset is neither the position nor the last one |
| `DaisyChainWrapper.Wrapper.DrainBlock` | gslib/daisy_chain_wrapper.py:332-335 | drops chunks until the count is 0, never runs out of them, and leaves an empty deque |
| `DaisyChainWrapper.Wrapper.RestartAt` | gslib/daisy_chain_wrapper.py:338-348 | nothing of the old download is pending, and the object's bytes from the offset are to come; a failure of the old download stays on record |
| `DaisyChainWrapper.Wrapper.StopDownload` | gslib/daisy_chain_wrapper.py:327-336 | the loop of a restart ends with the old thread dead, although the thread may take turns, and die, between the test, the drain and the next test |
| `DaisyChainWrapper.Wrapper.SeekAbsolute` | gslib/daisy_chain_wrapper.py:307-348 | a supported seek ends, at the offset, also when the old download thread has to be drained and replaced |
| `DaisyChainWrapper.Wrapper.SizeThenRest` | gslib/daisy_chain_wrapper.py:294-317 | seeking to the end gives the size, and seeking back and reading on gives exactly the rest of the object from where the reader was |
| `ReplayBuffer.Wrapper.Create` | gslib/resumable_streaming_upload.py:41-65 | refused exactly when the buffer is smaller than an upload chunk and the check is on |
| `ReplayBuffer.Wrapper.ReadBuffered` | gslib/resumable_streaming_upload.py:89-119 | finds the position inside the chunks and returns exactly the stream's bytes from it, as far as they are buffered; from before the window, Python's slices with a negative offset |
| `ReplayBuffer.Wrapper.Buffer` | gslib/resumable_streaming_upload.py:147-161 | after evict and refill the deque is exactly the last `max_buffer_size` bytes, also when one read exceeds it |
| `ReplayBuffer.Wrapper.ReadSized` | gslib/resumable_streaming_upload.py:72-171 | a sized read in any state, also before the window: first what is buffered, then what the stream gives; it raises exactly before the window with nothing buffered |
| `ReplayBuffer.Wrapper.Read` | gslib/resumable_streaming_upload.py:72-171 | in the window or at the end it returns the stream's bytes at the position, as many as a plain file if the stream gives them; after a read-all with new data, if and only if it asks for nothing behind the buffer that the stream had |
| `ReplayBuffer.Wrapper.ReadAll` | gslib/resumable_streaming_upload.py:124-139 | everything left; the window stays that of the stream if and only if there was no new data |
| `ReplayBuffer.Wrapper.Seek` | gslib/resumable_streaming_upload.py:181-212 | in any state: granted exactly inside the window, and a refused seek changes nothing; from the end it lands at `len - offset`, inside the window if and only if the offset fits; after a read-all with new data it does so if and only if the position was at the end |
| `ReplayBuffer.ReadAllBreaksWindow` | gslib/resumable_streaming_upload.py:124-139 | after a read-all, a granted seek to 0 is followed by a read that ends at the buffer's end, and a seek to the end goes there too |
| `ReplayBuffer.SeekBeforeStart` | gslib/resumable_streaming_upload.py:193-204 | a granted seek from the end by more than the stream has: the next read returns nothing although there is a byte, or raises if the stream was empty |
| `ReplayBuffer.BeforeNear` | gslib/resumable_streaming_upload.py:103-119 | what a read from less than a chunk before the window returns: the stream's bytes one chunk length further on, or nothing for sizes from the distance up to the chunk's length |
| `ReplayBuffer.BeforeFar` | gslib/resumable_streaming_upload.py:103-119 | from further before: nothing, then a front of the first chunk, then the window from its start |
| `ReplayBuffer.Perform` | gslib/resumable_streaming_upload.py:72-212 | in every state each operation of the object, with any offset, is the operation of the abstract window, for streams that read short and buffers of any size |
| `ReplayBuffer.ReplayGuarantee` | gslib/resumable_streaming_upload.py:46-49 | after any run without a seek beyond the end, refused seeks included, the position is a plain file's, and a seek is granted if and only if it goes back at most the buffer size from the furthest byte read |
| `XmlUpload.RangeMatchesLength` | gslib/boto_resumable_upload.py:323-334 | the inclusive Content-Range has as many bytes as Content-Length announces (section 4.2 of RFC 7233) |
| `XmlUpload.JoinedIsPrefix` | gslib/boto_resumable_upload.py:323-360 | what a request of this file can leave at the service is a prefix of the file, and the file if it has its length |
| `XmlUpload.BotoResumableUpload.QueryServiceState` | gslib/boto_resumable_upload.py:138-166 | an empty PUT; 200 only for a completed upload |
| `XmlUpload.BotoResumableUpload.QueryServicePos` | gslib/boto_resumable_upload.py:168-224 | by the reply: the whole file for 200, the inclusive range or (0, -1) for 308, start over exactly for every other code and an unreadable range |
| `XmlUpload.BotoResumableUpload.StartNewResumableUpload` | gslib/boto_resumable_upload.py:226-284 | by the reply: a new session exactly for 200 or 201 with a valid location; wait and retry exactly for 429, 500, 503 or a missing location; abort for every other code and for a caller's Content-Length |
| `XmlUpload.BotoResumableUpload.SendBuffers` | gslib/boto_resumable_upload.py:352-374 | the send loop sends the file from where it stands to its end, in order |
| `XmlUpload.BotoResumableUpload.UploadFileBytes` | gslib/boto_resumable_upload.py:286-403 | by how the PUT ends: success exactly for 200, and then the object is the file; wait and retry exactly for 408, 429, 500 and 503; abort exactly for every other code and for a file too short, which it is exactly if nothing is to be sent and the file pointer is not at the end |
| `XmlUpload.BotoResumableUpload.SendRest` | gslib/boto_resumable_upload.py:467-480 | a failed PUT is followed by a state query, except after an HTTP exception; all that was said decides (`XmlUpload.OutcomeExact`) |
| `XmlUpload.OutcomeExact` | gslib/boto_resumable_upload.py:424-480 | what an attempt comes to, reply by reply: success exactly for 200; retried exactly for lost replies and the codes that ask for patience; aborted if the state query is answered with 400, and by every other code |
| `XmlUpload.BotoResumableUpload.Begin` | gslib/boto_resumable_upload.py:424-439 | resumes after the last byte the service tells of, or starts a new upload, exactly if there is none to resume or the reply does not tell |
| `XmlUpload.BotoResumableUpload.AttemptResumableUpload` | gslib/boto_resumable_upload.py:405-482 | one attempt is all or nothing, and comes to what the replies say; the start point is recorded once, by the first attempt that gets to its PUT; with a service that loses nothing it succeeds if and only if `Completes` |
| `XmlUpload.BotoResumableUpload.TrackProgressLessIterations` | gslib/boto_resumable_upload.py:504-537 | the counter is reset on progress, and too many attempts abort |
| `XmlUpload.BotoResumableUpload.SendFile` | gslib/boto_resumable_upload.py:539-620 | for every service behaviour the object is what it was or the whole file, and a normal return means it is the file; it goes on after exactly the retryable failures, up to `num_retries + 1` attempts: an attempt answered with 408, 429, 500 or 503 whose state query is answered, not with 400, is followed by another while retries are left; it returns exactly after the first 200; with a service that loses nothing it succeeds if and only if `Completes` |
| `XmlUpload.ResumeWholeFile` | gslib/boto_resumable_upload.py:424-439 | an upload that the service already has in full, resumed with the file just opened, aborts; with the file pointer at the end it returns |
| `JsonTransfer.PerformResumableDownload` | gslib/gcs_json_api.py:1286-1339 | it succeeds if and only if an attempt completes, and raises at once exactly what is no transfer exception; after every other failure it goes on from where the stream ended, until it gives up, exactly when `num_retries + 1` failures in a row brought no byte; at most `MaxAttempts` attempts; whatever the stream held before the start byte, success means that the object's bytes follow |
| `JsonTransfer.MaxAttemptsExact` | gslib/gcs_json_api.py:1322-1339 | these are `num_retries * (unconfirmed + 1) + 1`, which is within `(unconfirmed + 1) * (num_retries + 1)` |
| `JsonTransfer.PerformResumableUpload` | gslib/gcs_json_api.py:1640-1716 | both nested loops end for every service; it succeeds if and only if the file is streamed completely, and raises at once exactly what is no transfer exception; after a transfer exception the service is asked until it answers, and its last answer is what counts as transferred; it gives up exactly when `num_retries + 1` failures in a row, of attempts and refreshes, brought no progress |
| `JsonTransfer.ConfirmedExact` | gslib/gcs_json_api.py:1700-1703 | progress is measured against the larger of where the upload started and the largest byte count ever confirmed |
| `JsonTransfer.FruitlessExact` | gslib/gcs_json_api.py:1700-1706 | the retry count is the number of last failures that left the largest confirmed byte count as it was |
| `JsonTransfer.FirstTokenStays` | gslib/gcs_json_api.py:1911-1915 | a rewrite token is never replaced |
| `JsonTransfer.SentExact` | gslib/gcs_json_api.py:1888-1915 | the first call carries the tracker file's token, and each later one the token of the call before it or, if that had none, of the reply to it |
| `JsonTransfer.Rewrite` | gslib/gcs_json_api.py:1880-1919 | the deltas add up to the last total, every call carries the first token, the tracker file holds it after a failure and is gone after success |
| `Progress.ReportSound` | gslib/progress_callback.py:69-89 | one report keeps callbacks non-decreasing, at most the total, and up to date |
| `Progress.CallbacksSound` | gslib/progress_callback.py:69-89 | over any run nothing is lost, the last callback is exactly the total once it is reached, and before that lags by at most the interval |
| `Progress.TimeoutNeverFires` | gslib/progress_callback.py:76 | with a clock that goes forward the callbacks are those of a tracker without a timeout |
| `Progress.ProgressCallbackWithTimeout.Progress` | gslib/progress_callback.py:69-89 | the object's fields change as the tracker of the lemmas does |
| `Progress.UploadCallbackConnection.CountInitial` | gslib/gcs_json_media.py:239-245 | the first use of a connection counts the initial bytes, once |
| `Progress.UploadCallbackConnection.Send` | gslib/gcs_json_media.py:231-282 | the data goes on the wire unchanged, and what is counted is its length less the metadata, however it is cut |
| `Progress.SendAll` | gslib/gcs_json_media.py:231-282 | over any sends: initial bytes plus payload, and the final callback is exact |
| `CloudUrl.MatchesExact` | gslib/storage_url.py:33-38 | the provider, bucket and object expressions match exactly these strings, with unique parts |
| `CloudUrl.GenerationExact` | gslib/storage_url.py:39-40 | a generation is found exactly when only digits follow the last `#` of a longer name |
| `CloudUrl.VersionGreedy` | gslib/storage_url.py:41-42 | the version match takes the longest name there is |
| `CloudUrl.VersionExact` | gslib/storage_url.py:41-42 | a name has no version exactly if there is no `#` between its first and last character |
| `CloudUrl.SplitVersionExact` | gslib/storage_url.py:245-254 | gs names have the generation behind their last `#`, s3 names the version that leaves the longest name, and no other names have one |
| `CloudUrl.StorageUrl.Create` | gslib/storage_url.py:223-264 | parsing by setting fields gives the parsed value, or its error |
| `CloudUrl.ParsedIsWellFormed` | gslib/storage_url.py:223-264 | what every accepted URL satisfies: no empty bucket or object, no relative object, maximal version split |
| `CloudUrl.ParseObject` | gslib/storage_url.py:236-257 | exactly what an object URL parses to, relative object names included |
| `CloudUrl.ParseContainer` | gslib/storage_url.py:229-235 | every provider and every bucket parses to just its parts |
| `CloudUrl.RefusedExact` | gslib/storage_url.py:242-264 | what matches is refused exactly for a relative object name, or for a third slash behind the scheme |
| `CloudUrl.NoMatchExact` | gslib/storage_url.py:255-257 | nothing matches exactly if the first colon does not start a `://` |
| `CloudUrl.RoundTrip` | gslib/storage_url.py:304-316 | printing gives back the string, with a slash for a bare bucket, for every accepted string but `://` |
| `CloudUrl.ReparseEqual` | gslib/storage_url.py:266-267 | parsing the print gives the same URL, with the same generation or version |
| `CloudUrl.GenerationBehind` | gslib/storage_url.py:39-40 | behind a slash, a wildcard is taken for a generation exactly if it ends in `#` and digits |
| `CloudUrl.StripExact` | gslib/storage_url.py:467-470 | one trailing slash is taken away, and nothing else |
| `CloudUrl.PrefixOfObject` | gslib/storage_url.py:293-297 | for every wildcard `w` and object `x` or `x/`, the prefix URL is that of `x/w` in the same bucket, and parses to it if and only if no generation or version is made up |
| `CloudUrl.ObjectPrefixWithoutWildcard` | gslib/storage_url.py:293-297 | without a wildcard it is the object's URL without generation and one trailing slash, which is the bucket's exactly for the object `/` |
| `CloudUrl.ContainerPrefixWithoutWildcard` | gslib/storage_url.py:293-297 | without a wildcard, that of a bucket is the bucket's without slash and parses to it, and that of a provider ends in one slash and is no URL |
| `CloudUrl.PrefixOfContainer` | gslib/storage_url.py:293-297 | for every wildcard, what the prefix URL of a bucket or a provider parses to, also if it looks like a generation or is a relative path symbol |
| `CloudUrl.S3WildcardBecomesVersion` | gslib/storage_url.py:41-42 | the family of S3 names for which the wildcard becomes a version |
| `PemSections.MarkerExact` | gslib/context_config.py:53-60 | a line is a marker of a name exactly when it is that BEGIN or END line |
| `PemSections.LinesExact` | gslib/context_config.py:83-86 | the lines of a text are exactly its maximal stretches without line break that neither begin nor end with a space, in order, the last included if nothing follows it |
| `PemSections.RawLinesExact` | gslib/context_config.py:83 | the pieces of a text, with one break character between them, make up the whole text, also a last one without line break |
| `PemSections.StripExact` | gslib/context_config.py:84 | stripping takes away a front and a back that consist of spaces, and nothing else |
| `PemSections.JoinExact` | gslib/context_config.py:110 | a section is written with a newline after each line and no other line break |
| `PemSections.SplitPemIntoSections` | gslib/context_config.py:63-116 | the loop computes the fold over the lines of the text, of which `PemSections.SplitExact` says what it is |
| `PemSections.ProcessLine` | gslib/context_config.py:88-111 | the loop's body is one step of the fold |
| `PemSections.SplitExact` | gslib/context_config.py:63-116 | a name is in the result exactly if it has a complete section among the lines, and is mapped to the last one (sections 2 and 3 of RFC 7468); the lines are the maximal stretches of the text without line break and without space at either end |
| `PemSections.ReparseSame` | gslib/context_config.py:63-116 | the result's sections, written in any order, are split into the same result |
| `TabCompletion.EntryExact` | gslib/tab_complete.py:130-134 | an entry of a one-level listing is the name, or its front up to the first slash behind the prefix |
| `TabCompletion.OneLevelExact` | gslib/tab_complete.py:130-134 | a one-level listing has the entries of all names with the prefix and no others, each once |
| `TabCompletion.EntryAgrees` | gslib/tab_complete.py:130-134 | a longer prefix without another slash shows the same entry |
| `TabCompletion.FilteredListing` | gslib/tab_complete.py:130-134 | the filtered listing of p is the listing of every extension with as many slashes, in the same order |
| `TabCompletion.OtherLevelIsEmpty` | gslib/tab_complete.py:132-134 | past another slash the filtered listing is empty, so the slash count is needed |
| `TabCompletion.TabCompletionCache.GetCachedResults` | gslib/tab_complete.py:122-142 | there is a hit exactly within the time to live, for the same prefix, or for a longer one without another slash if the listing is complete; what it returns, and that it keeps the entry alive |
| `TabCompletion.Complete` | gslib/tab_complete.py:253-269 | every answer is that of a new listing, or empty after a timeout; a listing is requested exactly when the cache has no answer; the cache stays right |
| `TabCompletion.CompleteAll` | gslib/tab_complete.py:253-269 | the same for any series of completions |
| `Lookahead.PluralityCheckableIterator.PopulateHead` | gslib/plurality_checkable_iterator.py:56-85 | nothing is lost or reordered, and no more is read ahead than needed |
| `Lookahead.PluralityCheckableIterator.Next` | gslib/plurality_checkable_iterator.py:90-97 | the next item, or the end exactly when there is none |
| `Lookahead.PluralityCheckableIterator.IsEmpty` | gslib/plurality_checkable_iterator.py:99-100 | whether nothing remains; what remains is unchanged |
| `Lookahead.PluralityCheckableIterator.HasPlurality` | gslib/plurality_checkable_iterator.py:102-105 | whether more than one item remains; what remains is unchanged |
| `Lookahead.PluralityCheckableIterator.PeekException` | gslib/plurality_checkable_iterator.py:107-112 | raises exactly if the next item is an exception, and does not use it up |
| `Lookahead.Drive` | gslib/plurality_checkable_iterator.py:56-112 | any sequence of calls is answered as if all items were known |
| `Lookahead.SurfacedExact` | gslib/plurality_checkable_iterator.py:56-112 | exactly the underlying events surface, in order, one for each `next` |
| `CopyIteration.CopyObjectsIterator.Create` | gslib/name_expansion.py:663-679 | takes the first pair, or ends or raises as taking it does |
| `CopyIteration.OutcomesExact` | gslib/name_expansion.py:684-697 | each step of an expansion gives its source, with the expansion's destination, or its exception |
| `CopyIteration.AllOutcomesExact` | gslib/name_expansion.py:684-692 | what comes of the pairs is what comes of each, one after the other; a pair that raises is not dropped |
| `CopyIteration.CopyObjectsIterator.Next` | gslib/name_expansion.py:684-720 | the next outcome of the in-order concatenation, each source with its own destination |
| `CopyIteration.CopyObjectsIterator.Note` | gslib/name_expansion.py:699-718 | the summary fields include one more source |
| `CopyIteration.CopyObjectsIterator.Drain` | gslib/name_expansion.py:681-720 | iterating to the end gives the whole concatenation |
| `CopyIteration.FlagsExact` | gslib/name_expansion.py:699-715 | the flags are set exactly if a file, a cloud object, or a cloud object with a cloud destination of another scheme was yielded |
| `CopyIteration.ProvidersExact` | gslib/name_expansion.py:716-718 | the providers are exactly the schemes of the yielded cloud sources, and `file` if a file was yielded, once each |
| `CopyIteration.ProvidersInOrder` | gslib/name_expansion.py:716-718 | in the order they were first seen |

## Left out

- The multi-process path of Apply (`new_pool_needed`, consumer processes, managers) except the permits of its dispatcher, `fail_on_error`, signals, the UI and seek-ahead threads, and `_ThreadStat`.
- Producer failures other than those of the iterator and of `arg_checker`: a failure while the size of an argument is read would leave `num_tasks` one ahead of the tasks enqueued.
- An exception handler that raises is not told apart from one that returns: both are swallowed, and what it changed before counts.
- The shared maps of the threaded Apply are a value that steps replace, not a class: its threads interleave, and one method cannot run in between another. The sequential Apply is a class.
- `ApplyMachine` has one shared attribute; several are independent of each other.
- Daisy-chain reads ask for a size, seeks go to offsets within the object, and the download is not compressed; `AcquireLockWithTimeout` is only a truthiness test in the code and always true.
- HTTP, boto and apitools: the services of `XmlUpload` and `JsonTransfer` are methods that may do anything their contracts allow. The XML service reports only bytes it has, from byte 0 on, and is the only writer of the object; the file does not change during the upload. The JSON download's attempts append correct bytes before they fail.
- JsonTransfer.PerformResumableUpload: what the service stores is not modelled, because apitools reads and sends the data.
- Sleeping between retries, log messages, and callbacks of the XML upload.
- Progress.UploadCallbackConnection.Send: the size modifier for gzip, which is floating-point.
- Regular expressions are modelled by the splits they make on strings without newlines; schemes are not normalised.
- PemSections.SplitPemIntoSections: treats `\r\n` as two line breaks with an empty line between, which is dropped like every empty line; warnings are not modelled.
- The listing of the tab completer is an abstract, unchanging list of names without wildcards; bucket-only completion, the mapping of an empty prefix to `gs://`, and the cache file's format are left out.
- Lookahead.PluralityCheckableIterator.PopulateHead: an underlying iterator whose creation fails is not told apart from one whose first `next` raises.
- `_NameExpansionIterator` and wildcard matching: the expansions of `CopyIteration` are given.
- `gslib/file_part.py`, `gslib/parallel_tracker_file.py`, `gslib/seek_ahead_thread.py`, metadata mapping, argument parsing and exception tables: they would only add easy members.
