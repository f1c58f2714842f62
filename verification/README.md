# ZzClawTerm: verified models of its state machines and algorithms

ZzClawTerm is a desktop terminal. This project models the self-contained parts of it whose
guarantees are not obvious from the code, and proves those guarantees for every input, every
run and every interleaving.

| files | what they model |
|---|---|
| `BlockingJobs*.dfy` | the bounded blocking-job scheduler: calls, workers, cancels and shutdown, one atomic operation per action |
| `SingleInstance*.dfy`, `ActivationQueue.dfy`, `ActivationCodec.dfy` | the single-instance hand-off: lock, endpoint file, authenticated request and acknowledgement; the bounded queue built from a counter and an unbounded channel; the frame codec |
| `DocumentEdit.dfy`, `Selections.dfy`, `Folds.dfy` | multi-edit transactions, selection normal form, rectangles, fold projections |
| `NoteExport.dfy`, `ExportNames.dfy` | planning a note export over an unordered, possibly cyclic forest, and allocating file names |
| `DownloadCommit*.dfy` | staging and committing a download while other programs create, rename, replace and write files |
| `RawCapture.dfy`, `PromptLines.dfy` | capturing command output and recognising the returning prompt |
| `NaturalOrder.dfy`, `TextEdits.dfy`, `RemotePaths.dfy`, `ConnectionSearch.dfy` | natural ordering, the single-line text field, remote path normal form, group search |
| `Utf8.dfy`, `Text.dfy`, `StableSort.dfy`, `Common.dfy` | byte offsets as prefix sums of character widths (section 3 of RFC 3629), string operations, a stable sort, counting |

Concurrent protocols are state machines: a `State`, the `Action`s that are `Enabled` in it, the
`Next` state, and theorems about `Exec(s, run)` for every valid sequence of actions. One action is
one atomic operation. Code that mutates fields or runs loops is a class or a method whose contract
ties it to a function, and the promises are lemmas about that function.

Text is a sequence of Unicode scalar values and an offset is a number of bytes, as in the source.
The case and alphanumeric tables are parameters; what is assumed of them is written as a predicate
(`NaturalOrder.Folding`: the lower case of a non-digit is not empty and does not start with an ASCII
digit; `ExportNames.Uppercasing`: ASCII maps as usual). White space and control characters are concrete.

## Where the code does not do what one would expect

- `DownloadTemporary` says it takes ownership only after creating its file, but the guard is built
  first (download_path.rs:397-408). If another program takes the name in between, its file is removed
  (`DownloadCommitRuns.DropMayRemoveForeign`). `DownloadCommit.DropRemovesOwn` says exactly when it is the guard's own.
- A name from `ExportNames::unique` can be a Windows device name although the title was checked,
  because the stem is cut and trimmed again; `ExportNames.DeviceExactly` gives the exact condition.
- An Ok task future does not imply a Completed outcome (`OkFutureMayBeCancelled`); it does exactly when both
  flag reads after the closure found the flag down (`OkFutureCompletesIff`). The `Disconnected` arm of
  `submit_inner` cannot be reached (`TrySendNeverDisconnected`).
- `Forwarded` can be false: an acknowledgement carries no token, so a program that takes the port of an owner
  that is going away can confirm a request nobody enqueued (`SingleInstanceRuns.ForwardedMayBeFalse`). It is true
  exactly when a process of this program listens on the port when the client connects
  (`SingleInstance.ForwardedIsGenuineIff`).
- A request can be enqueued twice: an attempt enqueues it at most once (`SingleInstance.AttemptEnqueuesOnce`), but
  when its acknowledgement is lost the retry sends it again (`SingleInstanceRuns.RetryMayEnqueueTwice`).
- A sender past its closed check may enqueue after close (`ActivationQueue.LateSendMayEnter`);
  `ActivationQueue.EntersAfterCloseIff` says exactly which.
- After truncation a capture's stored output need not be a prefix of the output (`RawCapture.OutputMaySkip`);
  `RawCapture.OutputIsPrefixIff` says exactly when it is.
- Two bracketed prompts of different hosts can pass for one device (`PromptLines.DifferentHostsMayPass`).

## Model

| member | source | states |
|---|---|---|
| BlockingJobsTheorems.EveryJobRunsAtMostOnce | crates/zzclawterm-desktop/src/blocking_jobs.rs:449-502 | in every reachable state of every interleaving a job has been entered at most once, has at most one outcome and at most one task result, the callback saw nothing but that outcome, and a job that was never enqueued has neither run nor an outcome |
| BlockingJobsTheorems.DepthCountsWaitingJobs | crates/zzclawterm-desktop/src/blocking_jobs.rs:359-379 | `queue_depth` is exactly the queue, plus calls between increment and enqueue or rollback, plus workers between receive and decrement; it is positive whenever someone is about to decrement it, and the queue never exceeds its capacity |
| BlockingJobsTheorems.MetricsBalanceAtRest | crates/zzclawterm-desktop/src/blocking_jobs.rs:334-379 | when nothing is in flight the depth is zero, submitted + rejected is the number of calls, submitted is the number of jobs with an outcome, and `panicked` is the number that panicked |
| BlockingJobsTheorems.ExitedMeansDrained | crates/zzclawterm-desktop/src/blocking_jobs.rs:224-238 | once all workers have exited the queue is empty, no call holds a sender clone, and every accepted job, including one that raced shutdown with a cloned sender, has exactly one outcome, was notified of it, and (for a task) has one result |
| BlockingJobsTheorems.TrySendNeverDisconnected | crates/zzclawterm-desktop/src/blocking_jobs.rs:349-379 | a call that reaches `try_send` holds a sender, so some worker is alive: the `Disconnected` arm is unreachable, and the job is enqueued at the back exactly when there is room |
| BlockingJobsTheorems.CancelledBeforeCheckNeverRuns | crates/zzclawterm-desktop/src/blocking_jobs.rs:459-469 | if the cancel or stop flag is up before the worker reads it, then on every continuation the closure is never entered and the only possible outcome is Cancelled |
| BlockingJobsTheorems.TaskFutureAgreesWithOutcome | crates/zzclawterm-desktop/src/blocking_jobs.rs:400-426 | a finished task has exactly one result: Completed implies Ok of the returned value, Failed implies Panicked, Cancelled implies Cancelled or a value that was already sent; and a Cancelled outcome or result implies that the cancel or the stop flag is up |
| BlockingJobsTheorems.OkFutureMayBeCancelled | crates/zzclawterm-desktop/src/blocking_jobs.rs:408-416 | a reachable run in which the future is Ok(42) and the outcome is Cancelled: an Ok future alone does not imply Completed |
| BlockingJobsTheorems.OkFutureCompletesIff | crates/zzclawterm-desktop/src/blocking_jobs.rs:479-486 | over every run, a task whose future is Ok is Completed if and only if the two flag reads after its closure both found the flag down |
| BlockingJobsTheorems.UnflaggedJobCompletes | crates/zzclawterm-desktop/src/blocking_jobs.rs:459-502 | with both flags down, every finished job that did not panic ran once and is Completed, and a task's future is Ok of what it returned |
| BlockingJobsFlags.CancelledNeedsFlag | crates/zzclawterm-desktop/src/blocking_jobs.rs:459-486 | in every reachable state, nothing is reported as cancelled, as an outcome or through a future, unless the job's own flag or the stop flag is up |
| BlockingJobsFlags.OutcomeFollowsChecks | crates/zzclawterm-desktop/src/blocking_jobs.rs:400-486 | over every run, a finished job is Completed after the two reads before and the two after its closure all found the flag down, Cancelled after one before or after it found it up, Panicked after the two before it found it down and no more; a task's own two reads in between decide its future |
| BlockingJobsTheorems.ChecksDecide | crates/zzclawterm-desktop/src/blocking_jobs.rs:400-469 | over every run, a job is entered if and only if both reads before it found the flag down, and the future of a task that returned is Ok of its value if and only if both reads after its body did, Cancelled if and only if one found it up |
| BlockingJobsCalls.AnswerFollowsReads | crates/zzclawterm-desktop/src/blocking_jobs.rs:328-380 | over every run, a returned call was accepted if and only if it found the scheduler not stopping, a sender, and fewer waiting jobs than the capacity; was refused as full if and only if it found exactly the capacity; and as shutting down if and only if it found the stop flag up or the sender gone |
| BlockingJobsCalls.ShuttingDownMeansStopping | crates/zzclawterm-desktop/src/blocking_jobs.rs:334-361 | nobody is refused as shutting down unless shutdown has begun |
| BlockingJobsCalls.OpenSchedulerAccepts | crates/zzclawterm-desktop/src/blocking_jobs.rs:328-368 | in every reachable state that is not stopping and has room, the steps of a call alone lead to acceptance: its new job is at the back of the queue, both counters went up by one, and nothing else changed |
| BlockingJobsCalls.JobsAreTakenInOrder | crates/zzclawterm-desktop/src/blocking_jobs.rs:449-458 | over every run, the jobs workers took followed by the queue are the former queue followed by the jobs enqueued: first in, first out |
| BlockingJobsTheorems.InternalStepDescends | crates/zzclawterm-desktop/src/blocking_jobs.rs:449-492 | every operation of a call, a worker or the shutdown strictly lowers a measure of the work left |
| BlockingJobsTheorems.ShutdownTakesBoundedSteps | crates/zzclawterm-desktop/src/blocking_jobs.rs:206-238 | a run without new calls makes at most as many operations as that measure |
| BlockingJobsTheorems.NoDeadlock | crates/zzclawterm-desktop/src/blocking_jobs.rs:206-238 | a reachable state in which no operation is enabled is one where shutdown has joined every worker and every call has returned |
| BlockingJobsTheorems.ShutdownCompletes | crates/zzclawterm-desktop/src/blocking_jobs.rs:206-238 | together: a run without new calls that can go no further was bounded, joined every worker, emptied the queue and served every accepted job |
| BlockingJobsProofs.StepKeeps | crates/zzclawterm-desktop/src/blocking_jobs.rs:328-380 | the accounting invariant (the counter, the metrics, who is between which two atomic operations, where each job is and what it has reported) is kept by every atomic operation of every thread; what calls are answered is `BlockingJobsCalls.AnswerFollowsReads` |
| SingleInstance.OneOwner | crates/zzclawterm-app/src/single_instance.rs:64-134 | in every run at most one process holds the lock; from publication until it removes the file, the endpoint is that process's and carries the token its handlers compare with, and until it stops listening it is the process that accepts connections on the port named there |
| SingleInstance.OnlyHolderWritesEndpoint | crates/zzclawterm-app/src/single_instance.rs:53-62 | the endpoint file changes only by steps of the process that holds the lock before and after the step |
| SingleInstanceRuns.FreeLockIsTaken | crates/zzclawterm-app/src/single_instance.rs:80-134 | from every state in which the lock is free, the steps of a process that is about to try it alone make it the owner on any free port with any fresh token, with that endpoint published, whether or not a stale file was there and could be removed |
| SingleInstanceRuns.HeldLockIsRead | crates/zzclawterm-app/src/single_instance.rs:80-103 | from every state in which the lock is held, a process that tries it goes on to connect to what the endpoint file names, or to sleep if there is none |
| SingleInstanceRuns.OwnerLeavesCleanly | crates/zzclawterm-app/src/single_instance.rs:53-62 | dropping the owner frees its port, removes the endpoint file and frees the lock, and touches nothing else |
| SingleInstance.EndedHoldsNothing | crates/zzclawterm-app/src/single_instance.rs:53-134 | over every run, a process that failed, forwarded, retired or crashed holds neither the lock nor a port |
| SingleInstance.ErrorIsFinal | crates/zzclawterm-app/src/single_instance.rs:96-102 | after `acquire` has returned an error the process neither owns nor forwards on any continuation |
| SingleInstanceRuns.HandlerTells | crates/zzclawterm-app/src/single_instance.rs:169-185 | the acknowledgement of a `try_send` carries the request's id and says accepted, full or shutting down exactly as `try_send` returned |
| SingleInstanceRuns.HandlerRefuses | crates/zzclawterm-app/src/single_instance.rs:164-185 | an unreadable, oversized or malformed frame is answered with zeros and a request under another token with its own id, as invalid, and neither reaches a queue |
| SingleInstanceRuns.ClientConnects | crates/zzclawterm-app/src/single_instance.rs:208-222 | connecting sends whoever listens a frame that decodes to the endpoint's token and the client's own request |
| SingleInstanceRuns.AckDecides | crates/zzclawterm-app/src/single_instance.rs:223-239 | for every acknowledgement and every cut of it, the client returns Forwarded if and only if it is whole, says accepted and carries the client's own id; otherwise it sleeps |
| SingleInstance.ForwardedMeansEnqueued | crates/zzclawterm-app/src/single_instance.rs:208-239 | after `Forwarded`, exactly this request is in the owner's queue, entered over the client's own connection, if and only if a process of this program accepted that connection; that process is then the one that drew the token the request presented |
| SingleInstance.EnqueuedMeansAuthorised | crates/zzclawterm-app/src/single_instance.rs:157-189 | a handler enqueues only a request that was decoded from what arrived and carried its own process's token, whoever sent it |
| SingleInstance.ConfirmationIsGenuine | crates/zzclawterm-app/src/single_instance.rs:223-239 | an acknowledgement read on a connection that one of our handlers serves, whole or cut anywhere, confirms a request only if that handler's `try_send` put this very request into the queue, under the token presented |
| SingleInstance.ForwardedIsGenuineIff | crates/zzclawterm-app/src/single_instance.rs:208-239 | over every run, a `Forwarded` request was enqueued if and only if, when the client connected, a process of this program was listening on the port read from the endpoint file |
| SingleInstanceRuns.ForwardedMayBeFalse | crates/zzclawterm-app/src/single_instance.rs:53-62 | a run from the start in which another program takes the port of an owner that is going away and echoes the request id: `Forwarded`, and no queue ever held anything |
| SingleInstanceRuns.ForwardedMayBeTrue | crates/zzclawterm-app/src/single_instance.rs:157-189 | the ordinary run from the start: the request enters the owner's queue and the client returns `Forwarded` |
| SingleInstance.AttemptEnqueuesOnce | crates/zzclawterm-app/src/single_instance.rs:169-185 | over every run, no two connections share a `try_send`, and every queue took exactly one item per `try_send` that returned Ok: an attempt enqueues at most once |
| SingleInstanceRuns.RetryMayEnqueueTwice | crates/zzclawterm-app/src/single_instance.rs:80-103 | a run in which the acknowledgement of the first attempt is lost and the retry enqueues the same request again |
| SingleInstance.EnqueuedIsAccountedFor | crates/zzclawterm-app/src/single_instance.rs:174-182 | an enqueued request has been received, is in hand, waits in the channel, or was lost with the receiver |
| ActivationQueue.CounterIsExact | crates/zzclawterm-core/src/activation.rs:399-457 | for every interleaving the counter equals channel length, in-flight reservations, the popped-but-uncounted item and items lost with the receiver; it never exceeds the capacity and is positive before every decrement |
| ActivationQueue.ReceivedInOrder | crates/zzclawterm-core/src/activation.rs:447-451 | what was received is a prefix of what was enqueued, and the rest is in hand, in the channel, or lost with the receiver, in order |
| ActivationQueue.NothingEntersAfterClose | crates/zzclawterm-core/src/activation.rs:415-439 | a `try_send` that starts after close never enqueues and never keeps a reservation, on every continuation |
| ActivationQueue.EntersAfterCloseIff | crates/zzclawterm-core/src/activation.rs:415-457 | in every reachable closed state, a pending `try_send` can still enqueue on some continuation if and only if it is past its closed check with a slot, or with no stale full count and room that exists or that a live receiver can make, and the receiving half is not shut |
| ActivationQueue.LateSendMayEnter | crates/zzclawterm-core/src/activation.rs:415-439 | a run from the start in which a sender already past its closed check enqueues after close |
| ActivationQueue.ShutIsFinal | crates/zzclawterm-core/src/activation.rs:453-463 | once the receiving half is shut nothing is enqueued any more, whoever is where |
| ActivationQueue.RefusalHasReason | crates/zzclawterm-core/src/activation.rs:415-439 | over every run, a call refused as full last read a counter equal to the capacity, and one refused as closed ended in a closed queue |
| ActivationQueue.ReceiverDrains | crates/zzclawterm-core/src/activation.rs:447-451 | from every state in which the receiver waits and its half is live or shut, a run receives everything in the channel, in order, gives back a slot for each item and changes nothing else |
| ActivationCodec.RequestRoundTrip | crates/zzclawterm-core/src/activation.rs:190-264 | whatever encodes, decodes to exactly the same token and request |
| ActivationCodec.RequestIsCanonical | crates/zzclawterm-core/src/activation.rs:224-264 | whatever decodes, re-encodes successfully to the same bytes except the ignored reserved byte 7 |
| ActivationCodec.RequestLengthIsChecked | crates/zzclawterm-core/src/activation.rs:224-264 | every proper prefix of a valid request frame is Truncated, every extension is TrailingData |
| ActivationCodec.AckRoundTrip | crates/zzclawterm-core/src/activation.rs:266-280 | every acknowledgement encodes and decodes back |
| ActivationCodec.AckIsCanonical | crates/zzclawterm-core/src/activation.rs:273-280 | whatever decodes as an acknowledgement re-encodes to the same bytes except byte 7 |
| ActivationCodec.FrameRoundTrip | crates/zzclawterm-core/src/activation.rs:282-325 | a framed payload of legal size is recovered |
| ActivationCodec.FrameIsCanonical | crates/zzclawterm-core/src/activation.rs:296-325 | an accepted frame is the frame of its payload, up to byte 7 |
| ActivationCodec.FrameLengthIsChecked | crates/zzclawterm-core/src/activation.rs:296-325 | cut or extended frames are refused with the right error |
| ActivationCodec.HeaderIsChecked | crates/zzclawterm-core/src/activation.rs:296-325 | changing any one of the first eight bytes of a frame is answered with the error for that field, and the reserved byte is ignored |
| ActivationCodec.LengthIsLimited | crates/zzclawterm-core/src/activation.rs:311-314 | a length field above the limit is too large, whatever follows |
| ActivationCodec.ArgumentIsChecked | crates/zzclawterm-core/src/activation.rs:238-259 | exactly which argument heads are too large, cut off, odd wide text, or of unknown encoding |
| ActivationCodec.CountIsLimited | crates/zzclawterm-core/src/activation.rs:231-235 | a payload is refused for its argument count exactly when the count exceeds 256 |
| ActivationCodec.RequestEncodesIff | crates/zzclawterm-core/src/activation.rs:190-222 | exactly which requests encode, and which of the three limits is reported otherwise |
| ActivationCodec.RequestLayout | crates/zzclawterm-core/src/activation.rs:190-222 | the bytes of an encoded request: magic, version 1, kind 1, length, token, id and argument count at their places |
| ActivationCodec.AckLayout | crates/zzclawterm-core/src/activation.rs:266-271 | the 29 bytes of every acknowledgement |
| ActivationCodec.BuildRequest | crates/zzclawterm-core/src/activation.rs:190-222 | the buffer built by pushing field after field is the specified encoding, including every limit error |
| ActivationCodec.PushArgs | crates/zzclawterm-core/src/activation.rs:201-220 | the argument loop appends the encoding of all arguments, or reports the first that is too large |
| ActivationCodec.ParseRequest | crates/zzclawterm-core/src/activation.rs:224-264 | the cursor-driven parser computes the specified decoding on every byte string, with every index in bounds |
| ActivationCodec.Cursor.ReadBytes | crates/zzclawterm-core/src/activation.rs:357-368 | reads and advances exactly when enough bytes are left; otherwise nothing moves |
| ActivationCodec.Cursor.ReadArgs | crates/zzclawterm-core/src/activation.rs:236-261 | reading `count` arguments is the specified decoding of the rest and leaves exactly what follows |
| DocumentEdit.AcceptedIffApplicable | crates/zzclawterm-core/src/document_edit.rs:127-140 | the sorted scan accepts an edit list exactly when every range is well formed and the ranges are pairwise disjoint, in whatever order they were given |
| DocumentEdit.TextDocument.Apply | crates/zzclawterm-core/src/document_edit.rs:127-160 | accepts exactly the applicable lists; a rejected or empty list changes nothing, history included; an accepted one makes the content the left-to-right splice, pushes one undo snapshot, clears redo, and leaves the carets behind the insertions |
| DocumentEdit.TextDocument.ReplaceFromBack | crates/zzclawterm-core/src/document_edit.rs:152-154 | in-place replacement from back to front equals the simultaneous splice of the original |
| DocumentEdit.ReplaceStep | crates/zzclawterm-core/src/document_edit.rs:152-154 | one in-place replacement turns the content with edits n+1.. applied into the content with edits n.. applied |
| DocumentEdit.HeadThenRest | crates/zzclawterm-core/src/document_edit.rs:127-160 | the splice is the text up to and including the n-th insertion followed by the splice of the rest |
| DocumentEdit.CaretsFollowInsertions | crates/zzclawterm-core/src/document_edit.rs:145-151 | the i-th caret is a char boundary of the result, and the text before it is exactly the result up to and including the i-th inserted text |
| DocumentEdit.Cursors | crates/zzclawterm-core/src/document_edit.rs:145-151 | the loop with the signed shift computes those carets; the shifted start is never negative |
| DocumentEdit.Validate | crates/zzclawterm-core/src/document_edit.rs:129-140 | the scan with `previous_end` decides exactly whether the sorted edits are ordered and well formed |
| DocumentEdit.TextDocument.Checkpoint | crates/zzclawterm-core/src/document_edit.rs:114-120 | pushes the current state, drops the oldest when there were 64, clears redo |
| DocumentEdit.TextDocument.constructor | crates/zzclawterm-core/src/document_edit.rs:95-105 | both ends of the selection start on the char boundary at or below the cursor, with empty history |
| DocumentEdit.TextDocument.CurrentSelections | crates/zzclawterm-core/src/document_edit.rs:121-125 | a non-empty normal list that holds every extra selection and the one between anchor and head, moved to char boundaries, covers no byte besides, and has no end that none of them has |
| DocumentEdit.TextDocument.ReplaceSelections | crates/zzclawterm-core/src/document_edit.rs:161-171 | never fails, for any anchor, head and extra selections: the new content is the splice of the text over exactly those selections, in terms of the old fields, with one undo snapshot and a caret behind each insertion |
| DocumentEdit.RetypedIsOrdered | crates/zzclawterm-core/src/document_edit.rs:161-171 | replacing normalised selections is always an applicable, already sorted edit list |
| StableSort.SortIsStable | crates/zzclawterm-core/src/document_edit.rs:128-128 | elements with equal keys keep their order, so insertions at one place keep theirs |
| StableSort.Unique | crates/zzclawterm-core/src/document_edit.rs:128-128 | a sorted sequence is determined by the order within each key, so these facts fix what `sort_by_key` returns |
| StableSort.SortSpec | crates/zzclawterm-core/src/document_edit.rs:182-182 | the sort is an ordered permutation |
| Selections.NormalizeSelections | crates/zzclawterm-core/src/document_edit.rs:174-196 | the merging loop computes the specified normal form |
| Selections.NormalizeSpec | crates/zzclawterm-core/src/document_edit.rs:174-196 | the result is sorted, disjoint, mergeless and on char boundaries; it covers exactly the bytes of the snapped input, and every input range lies inside one result range |
| Selections.NormalizeEnds | crates/zzclawterm-core/src/document_edit.rs:174-196 | every end of the result is an end of a snapped input range |
| Selections.NormalIffFixed | crates/zzclawterm-core/src/document_edit.rs:174-196 | normalising leaves a list alone exactly when its ranges are on boundaries and each is behind the one before, or touches it and selects something |
| Selections.NormalizeIdempotent | crates/zzclawterm-core/src/document_edit.rs:174-196 | normalising twice is normalising once |
| Selections.RectangleSelections | crates/zzclawterm-core/src/document_edit.rs:198-231 | the line loop computes the specified rectangle |
| Selections.RectangleIsNormal | crates/zzclawterm-core/src/document_edit.rs:198-231 | a rectangle is a fixed point of normalisation |
| Selections.RectangleCoversBox | crates/zzclawterm-core/src/document_edit.rs:198-231 | a character is covered exactly when it is not a line feed, its line lies between those of the two corners and its column between theirs, the greater one excluded |
| Selections.RectangleHasRowPerLine | crates/zzclawterm-core/src/document_edit.rs:213-229 | there is one range, possibly empty, for every line of the box that the text has |
| Selections.SnapCovers | crates/zzclawterm-core/src/document_edit.rs:175-181 | a snapped range holds exactly the characters that end behind the lower of its two ends and not behind the higher, whichever way round they were given |
| Utf8.FloorByStepping | crates/zzclawterm-core/src/document_edit.rs:233-239 | stepping down finds the greatest char boundary at or below the offset |
| Folds.NewProjection | crates/zzclawterm-core/src/document_edit.rs:326-355 | the loop computes the specified projection |
| Folds.ProjectionPartitions | crates/zzclawterm-core/src/document_edit.rs:326-355 | the segments tile the source text and the display text without gap or overlap |
| Folds.OffsetsAreMonotone | crates/zzclawterm-core/src/document_edit.rs:356-371 | both offset maps are monotone |
| Folds.RoundTripFromSource | crates/zzclawterm-core/src/document_edit.rs:356-371 | showing a position and coming back gives the position if it is visible, the start of its fold if it is hidden, the end if it is behind the end |
| Folds.OffsetsRoundTrip | crates/zzclawterm-core/src/document_edit.rs:356-371 | both round trips of the two offset maps, for all offsets |
| Folds.EveryFoldHides | crates/zzclawterm-core/src/document_edit.rs:327-336 | the start of every valid fold is hidden by some fold that took effect, and by one at least as long if they start together |
| Folds.ProjectionIgnoresOrder | crates/zzclawterm-core/src/document_edit.rs:327-327 | the projection does not depend on the order in which folds are supplied |
| Folds.VisibleTextIsShown | crates/zzclawterm-core/src/document_edit.rs:326-363 | at the display offset of a visible character the display text has that character |
| NoteExport.PlanNoteExport | crates/zzclawterm-core/src/note_export.rs:111-165 | terminates on every snapshot; DuplicateId exactly when ids repeat; succeeds exactly when ids are distinct and every folder's and note's parent chain reaches the root; on success every folder and note is an entry of its parent's directory named after its title, markdown is kept, each directory follows its parent, and no two entries collide after upper-casing every component |
| NoteExport.CheckIds | crates/zzclawterm-core/src/note_export.rs:114-124 | detects exactly the snapshots with a repeated id |
| NoteExport.PlaceFolders | crates/zzclawterm-core/src/note_export.rs:125-149 | the passes either place every folder or stop with a folder whose chain never reaches the root |
| NoteExport.PlacePass | crates/zzclawterm-core/src/note_export.rs:129-148 | one pass keeps the bookkeeping invariant, never grows the pending list, and if it places nothing then no pending folder's parent has a place |
| NoteExport.PlaceNotes | crates/zzclawterm-core/src/note_export.rs:150-163 | succeeds exactly when every note's parent has a place; then names collide with nothing planned before |
| NoteExport.ClosedHoldsRooted | crates/zzclawterm-core/src/note_export.rs:132-147 | places closed under parent links hold every node whose chain reaches the root, so a pass without progress is final |
| NoteExport.RegisterKeeps | crates/zzclawterm-core/src/note_export.rs:137-143 | taking a name that is free in its directory keeps all entries apart, although directories are only compared case-insensitively |
| ExportNames.Pick | crates/zzclawterm-core/src/note_export.rs:73-90 | finds the first free candidate within (reserved names + 2) attempts |
| ExportNames.Crowded | crates/zzclawterm-core/src/note_export.rs:73-90 | pigeonhole: if the first `last` attempts are all taken, `last` is at most the number of names plus one |
| ExportNames.CandidatesDiffer | crates/zzclawterm-core/src/note_export.rs:76-86 | numbered candidates differ after truncation and upper-casing |
| ExportNames.CandidateSpec | crates/zzclawterm-core/src/note_export.rs:76-86 | every candidate has at most 240 bytes and no control character, separator or reserved character |
| ExportNames.CandidateIsComponent | crates/zzclawterm-core/src/note_export.rs:76-86 | no candidate is empty, `.` or `..` |
| ExportNames.SanitizeIsPresentable | crates/zzclawterm-core/src/note_export.rs:17-62 | the cleaned title is portable, not empty and does not end in a blank or dot |
| ExportNames.SanitizeIsNoDevice | crates/zzclawterm-core/src/note_export.rs:33-61 | the cleaned title is never a Windows device name |
| ExportNames.NamesKeepPortable | crates/zzclawterm-core/src/note_export.rs:17-33 | apart from the stand-in for an empty one, a cleaned title is the beginning of the title, with exactly the characters that are not portable replaced |
| ExportNames.TruncateIsLongest | crates/zzclawterm-core/src/note_export.rs:9-15 | the cut is the longest prefix of whole characters that fits |
| ExportNames.PortableTitleIsKept | crates/zzclawterm-core/src/note_export.rs:73-90 | a portable title that fits is spelled as given, with ` (n)` and `.md` where due and an underscore in front of a device |
| ExportNames.BlankTitleIsUntitled | crates/zzclawterm-core/src/note_export.rs:28-33 | a title of blanks and dots becomes Untitled |
| ExportNames.DevicesAreMarked | crates/zzclawterm-core/src/note_export.rs:34-61 | CON, PRN, AUX, NUL and COM or LPT with one of twelve digits, in any case and with any extension, get an underscore in front |
| ExportNames.DigitsRead | crates/zzclawterm-core/src/note_export.rs:76-81 | the number in a candidate reads back as its index, without a leading zero |
| ExportNames.DeviceExactly | crates/zzclawterm-core/src/note_export.rs:82-84 | a returned name is a device name exactly when it is the unnumbered name of a note whose cleaned title is no device itself, is longer than 237 bytes, and up to there is a device word followed by blanks |
| ExportNames.PaddedTitleIsDevice | crates/zzclawterm-core/src/note_export.rs:82-84 | such a title, so "never a device name" is false of `unique` |
| ExportNames.Namespace.Unique | crates/zzclawterm-core/src/note_export.rs:73-90 | the returned name was free, is at most 240 bytes, portable and a proper component, and is reserved from then on |
| DownloadCommit.StepKeeps | crates/zzclawterm-files/src/download_path.rs:378-477 | the invariant that ties every phase to its files is kept by every step of the download and of other programs |
| DownloadCommit.OthersAreUntouched | crates/zzclawterm-files/src/download_path.rs:419-457 | over a whole run every file that the download does not write ends as its other writers left it |
| DownloadCommit.WrittenIsAuthorised | crates/zzclawterm-files/src/download_path.rs:422-456 | what the download writes was created exclusively by it, or is the file captured beforehand and verified on the open handle |
| DownloadCommit.ForeignFilesSurvive | crates/zzclawterm-files/src/download_path.rs:419-457 | a file someone else put there at any time ends as its other writers left it, unless it is the captured one and the commit reached truncation |
| DownloadCommit.MineIsNew | crates/zzclawterm-files/src/download_path.rs:272-283 | a file that already exists never becomes one of the download's own |
| DownloadCommit.UnfitNameFails | crates/zzclawterm-files/src/download_path.rs:384-456 | if a step finds a link or another irregular file, a taken temporary name, a missing staged file, or a target that appeared or was replaced, the download fails on every continuation and every file it did not create keeps what its writers put there |
| DownloadCommit.OwnStepsKeepNames | crates/zzclawterm-files/src/download_path.rs:300-315 | the download removes a name only in its two guards, and the target's guard only while the name leads to its own file |
| DownloadCommit.SuccessMeans | crates/zzclawterm-files/src/download_path.rs:419-457 | over every run from the start, a successful commit went to the captured file or to one created for it; and if no action of another program touched the staged name or wrote to the staged file or the opened destination, it holds exactly the concatenation of all bytes staged in the run |
| DownloadCommit.SuccessIsUnderTarget | crates/zzclawterm-files/src/download_path.rs:419-457 | if no other program touches the target's name, the target leads to the committed file after success |
| DownloadCommitRuns.UndisturbedDownloadSucceeds | crates/zzclawterm-files/src/download_path.rs:378-457 | for every free or regular target and all bytes, the download's own steps alone end in success with exactly these bytes under the target, the captured file if there was one, the temporary name gone and every other name and file as before |
| DownloadCommitRuns.FailedCreateLeavesNothing | crates/zzclawterm-files/src/download_path.rs:300-315 | a failed copy into a new target can end with both names removed and nothing else changed |
| DownloadCommitRuns.FailedCreateSparesOthers | crates/zzclawterm-files/src/download_path.rs:300-315 | if the target no longer leads to the new file, only the temporary name goes |
| DownloadCommitRuns.AbandonedDownloadLeavesNothing | crates/zzclawterm-files/src/download_path.rs:473-477 | giving up before the destination is touched removes the temporary name and changes nothing else |
| DownloadCommit.EarlyFailureKeepsTarget | crates/zzclawterm-files/src/download_path.rs:419-445 | a failure before the destination is truncated or created leaves every existing file as its writers left it |
| DownloadCommit.DropRemovesOwn | crates/zzclawterm-files/src/download_path.rs:473-477 | in every reachable state, the temporary's guard takes away the staged file if and only if the name still leads to it, the identity comparison that the other guard makes; otherwise what it takes is foreign or the freshly created target, and after a failed creation always foreign |
| DownloadCommit.UntouchedNameIsOwn | crates/zzclawterm-files/src/download_path.rs:399-411 | from creation on, as long as no other program does anything to the name, what the guard removes is the staged file, even if others write to that file |
| DownloadCommitRuns.DropMayRemoveForeign | crates/zzclawterm-files/src/download_path.rs:397-408 | the guard exists before the file is created: a run in which another program takes the name first and its file is removed |
| RawCapture.CaptureIsExact | crates/zzclawterm-core/src/raw_cli_capture.rs:53-86 | for every way of cutting the output into chunks: truncated exactly when the bytes exceed the limit, otherwise the output is the whole concatenation and the observer is where one run over it would be; the last arrival is that of the last chunk with text |
| RawCapture.PollIgnoresChunking | crates/zzclawterm-core/src/raw_cli_capture.rs:88-118 | two ways of cutting the same output with the same last arrival are polled alike at every time and deadline |
| RawCapture.PromptMeans | crates/zzclawterm-core/src/raw_cli_capture.rs:88-118 | Prompt implies complete output, settled for 400 ms, before the deadline, and recognised prompts before and after that are the same line, or bracketed with the second continuing the first, or led by the same host name |
| RawCapture.EndingsExactly | crates/zzclawterm-core/src/raw_cli_capture.rs:88-118 | for every way of cutting the output into chunks and every time, the exact condition, in the output, its last arrival and the deadline, of each of the five endings and of none: 1 MiB, deadline, 400 ms of quiet, a waiting line, the same device's prompt, 8 s without a known prompt |
| RawCapture.TruncationIsPermanent | crates/zzclawterm-core/src/raw_cli_capture.rs:68-91 | once truncated, every later poll says Truncated |
| RawCapture.OutputIsPrefixIff | crates/zzclawterm-core/src/raw_cli_capture.rs:68-86 | for every list of chunks, the stored output is a prefix of what arrived if and only if no chunk after the first cut begins with a character that fits the room left; it is then what arrived cut at the limit |
| RawCapture.OutputMaySkip | crates/zzclawterm-core/src/raw_cli_capture.rs:74-81 | three chunks from the start after which the stored output is not a prefix of what arrived |
| RawCapture.RawCliCapture.FeedText | crates/zzclawterm-core/src/raw_cli_capture.rs:68-86 | the method updates output, flags, time and observer as specified |
| RawCapture.RawCliCapture.constructor | crates/zzclawterm-core/src/raw_cli_capture.rs:53-66 | remembers the trimmed last line exactly if it has the shape of a prompt |
| PromptLines.FeedConcat | crates/zzclawterm-core/src/network_cli_prompt.rs:133-197 | feeding in pieces equals feeding at once, also in the middle of escape sequences |
| PromptLines.FeedKeepsBounded | crates/zzclawterm-core/src/network_cli_prompt.rs:133-197 | whatever arrives, line, saved line and parameters stay bounded and the cursor stays inside the line |
| PromptLines.ColourIsInvisible | crates/zzclawterm-core/src/network_cli_prompt.rs:144-160 | a control sequence that is no erase or column move changes nothing that is ever shown, whatever follows |
| PromptLines.TitleIsInvisible | crates/zzclawterm-core/src/network_cli_prompt.rs:161-166 | nor does an operating system command, with either terminator |
| PromptLines.IdleIsInvisible | crates/zzclawterm-core/src/network_cli_prompt.rs:168-196 | nor do control characters other than escape, return, line feed and backspace |
| PromptLines.UnfinishedSequenceHides | crates/zzclawterm-core/src/network_cli_prompt.rs:199-202 | while a sequence of any kind is incomplete nothing is shown |
| PromptLines.ColumnOneIsReturn | crates/zzclawterm-core/src/network_cli_prompt.rs:144-160 | moving to column one acts like a return |
| PromptLines.LastLineIsShown | crates/zzclawterm-core/src/network_cli_prompt.rs:170-208 | the last printable line is shown exactly, whatever came before |
| PromptLines.FinishedLineIsShown | crates/zzclawterm-core/src/network_cli_prompt.rs:170-208 | a trailing line feed keeps showing the line it ended |
| PromptLines.LongLineIsHidden | crates/zzclawterm-core/src/network_cli_prompt.rs:170-208 | a line of more than 512 characters is not shown, not even once it has ended |
| PromptLines.BackspaceReplaces | crates/zzclawterm-core/src/network_cli_prompt.rs:181-194 | backspace and a character replace the last character |
| PromptLines.RedrawIsShown | crates/zzclawterm-core/src/network_cli_prompt.rs:146-156 | return, erase, print shows the new line without a trace of the old |
| PromptLines.StaleLineIsHidden | crates/zzclawterm-core/src/network_cli_prompt.rs:199-202 | a line overwritten only in part is not shown |
| PromptLines.PrintOverwrites | crates/zzclawterm-core/src/network_cli_prompt.rs:181-192 | printed text replaces exactly the characters from the cursor on |
| PromptLines.SameDeviceIffSameHost | crates/zzclawterm-core/src/raw_cli_capture.rs:145-154 | unbracketed prompts of two modes pass for one device exactly when their host names agree |
| PromptLines.SameDeviceExactly | crates/zzclawterm-core/src/raw_cli_capture.rs:129-155 | for all recognised prompts, exactly which pass for one device: equal lines, two bracketed ones where the second is the first or continues it after a dash, two unbracketed ones led by the same host name; never a bracketed with an unbracketed one |
| PromptLines.AnglePromptIff | crates/zzclawterm-core/src/network_cli_prompt.rs:56-67 | `<x>` is a prompt exactly when x is a host name and the line does not ask for input |
| PromptLines.SquarePromptIff | crates/zzclawterm-core/src/network_cli_prompt.rs:68-74 | `[x]` is a prompt exactly when x is a device context and the line does not ask for input |
| PromptLines.PlainPromptIff | crates/zzclawterm-core/src/network_cli_prompt.rs:75-98 | every other line is a prompt exactly when it is a host, a host with a context or a bracketed name that is not called like a shell, then blanks, then at least one terminator, and does not ask for input |
| PromptLines.PromptEnds | crates/zzclawterm-core/src/network_cli_prompt.rs:56-79 | a recognised prompt has no `@`, asks for nothing, and ends in a terminator or a bracket |
| PromptLines.HintIsWait | crates/zzclawterm-core/src/network_cli_prompt.rs:101-119 | a hint in any case and anywhere in the line makes it ask for input |
| PromptLines.BracketedHostsAgreeIff | crates/zzclawterm-core/src/raw_cli_capture.rs:139-144 | for bracketed prompts the answer agrees with equality of hosts if and only if the second is not the first continued by a dash |
| PromptLines.DifferentHostsMayPass | crates/zzclawterm-core/src/raw_cli_capture.rs:139-144 | `<core>` and `<core-2>` are both recognised and pass for one device, in this order only |
| PromptLines.PromptLine.FeedText | crates/zzclawterm-core/src/network_cli_prompt.rs:133-197 | the per-character loop over the fields computes the specified observer |
| NaturalOrder.NaturalCompare | crates/zzclawterm-core/src/natural_order.rs:16-52 | the loop over two shrinking remainders computes the specified order |
| NaturalOrder.NaturalEqual | crates/zzclawterm-core/src/natural_order.rs:16-52 | Equal only for identical strings |
| NaturalOrder.NaturalAntisymmetric | crates/zzclawterm-core/src/natural_order.rs:16-52 | swapping the arguments reverses the answer |
| NaturalOrder.NaturalTransitive | crates/zzclawterm-core/src/natural_order.rs:16-52 | transitive over all strings, mixed tokens and the raw tie-break included |
| NaturalOrder.RunsCompareByValue | crates/zzclawterm-core/src/natural_order.rs:73-82 | digit runs of any length compare by numeric value, then by padding |
| NaturalOrder.NumbersSortByValue | crates/zzclawterm-core/src/natural_order.rs:16-52 | after a common prefix, a smaller number sorts first whatever follows |
| NaturalOrder.LettersSortByFolding | crates/zzclawterm-core/src/natural_order.rs:16-52 | the first differing character decides by its folded form, whatever follows |
| NaturalOrder.CaseOnlyBreaksTies | crates/zzclawterm-core/src/natural_order.rs:16-52 | names that differ only in case compare alike with every name they are not tied with, and among themselves by raw text |
| NaturalOrder.PrefixSortsFirst | crates/zzclawterm-core/src/natural_order.rs:16-52 | a proper prefix that does not end inside a number sorts first |
| TextEdits.StepKeepsValid | crates/zzclawterm-core/src/text_edit.rs:57-209 | every operation keeps caret and anchor on char boundaries and never stores an anchor equal to the caret |
| TextEdits.RunKeepsValid | crates/zzclawterm-core/src/text_edit.rs:57-209 | so does every sequence of operations |
| TextEdits.WordBeforeSpec | crates/zzclawterm-core/src/text_edit.rs:279-299 | word left skips the spaces, then exactly one maximal run of one class, and moves unless it is at the start |
| TextEdits.WordAfterSpec | crates/zzclawterm-core/src/text_edit.rs:301-319 | word right skips the spaces, then exactly one maximal run of one class, and moves unless it is at the end |
| TextEdits.WordRangeSpec | crates/zzclawterm-core/src/text_edit.rs:214-243 | a double click selects exactly the maximal run of one class around the character that the byte falls in, the last one when it falls behind the text |
| TextEdits.WordRightReachesEnd | crates/zzclawterm-core/src/text_edit.rs:301-319 | repeated word moves reach the end |
| TextEdits.WordLeftReachesStart | crates/zzclawterm-core/src/text_edit.rs:279-299 | repeated word moves reach the start |
| TextEdits.TypeThenErase | crates/zzclawterm-core/src/text_edit.rs:121-138 | typing a character and erasing it leaves the text without the selection, and undoes itself when there was none |
| TextEdits.BackspaceTakesOne | crates/zzclawterm-core/src/text_edit.rs:127-138 | without a selection backspace removes exactly the character before the caret, and nothing at the start |
| TextEdits.DeleteTakesOne | crates/zzclawterm-core/src/text_edit.rs:142-154 | without a selection delete removes exactly the character after the caret, and nothing at the end |
| TextEdits.DeleteWordTakesWord | crates/zzclawterm-core/src/text_edit.rs:157-169 | without a selection word deletion removes exactly back to the word boundary |
| TextEdits.DeletingTakesSelection | crates/zzclawterm-core/src/text_edit.rs:127-169 | with a selection every deletion removes exactly the selection |
| TextEdits.InsertingReplacesSelection | crates/zzclawterm-core/src/text_edit.rs:121-124 | inserting puts the text in place of the selection and the caret behind it |
| TextEdits.MotionsMoveBy | crates/zzclawterm-core/src/text_edit.rs:175-209 | where each of the six motions puts the caret, in characters |
| TextEdits.MotionsCollapse | crates/zzclawterm-core/src/text_edit.rs:175-209 | with a selection, left and right collapse to the edge they point at, and start and end ignore it |
| TextEdits.SelectingSelects | crates/zzclawterm-core/src/text_edit.rs:87-109 | selecting a range, everything, or a place, with the caret at the end asked for |
| TextEdits.NewContentKeepsPlaces | crates/zzclawterm-core/src/text_edit.rs:57-62 | new content keeps caret and selection where they still fall on characters, and moves them to its end when they lie beyond it |
| TextEdits.IdentifiersAreWords | crates/zzclawterm-core/src/text_edit.rs:354-362 | letters, digits and underscores make one word, any other character ends it, and only blanks are passed over |
| TextEdits.RightThenLeft | crates/zzclawterm-core/src/text_edit.rs:257-273 | right then left returns to the caret |
| TextEdits.ExtendKeepsFixedEnd | crates/zzclawterm-core/src/text_edit.rs:201-205 | extending keeps one end of the selection fixed and puts the caret on the other |
| TextEdits.TextEdit.constructor | crates/zzclawterm-core/src/text_edit.rs:35-43 | starts with a collapsed caret at the end |
| TextEdits.TextEdit.SetContent | crates/zzclawterm-core/src/text_edit.rs:57-62 | clamps caret and anchor into the new content |
| TextEdits.TextEdit.SetSelection | crates/zzclawterm-core/src/text_edit.rs:87-98 | stores both ends on boundaries, the caret at the end asked for |
| TextEdits.TextEdit.SetCursor | crates/zzclawterm-core/src/text_edit.rs:100-103 | places the caret on a boundary and drops the selection |
| TextEdits.TextEdit.SelectAll | crates/zzclawterm-core/src/text_edit.rs:105-109 | selects everything, or nothing in an empty field |
| TextEdits.TextEdit.Replace | crates/zzclawterm-core/src/text_edit.rs:112-118 | replaces the floored range and leaves the caret behind the insertion |
| TextEdits.TextEdit.Insert | crates/zzclawterm-core/src/text_edit.rs:121-124 | replaces the selection |
| TextEdits.TextEdit.DeleteBackward | crates/zzclawterm-core/src/text_edit.rs:127-139 | removes the selection or the character before; reports a change exactly when there was one to make |
| TextEdits.TextEdit.DeleteForward | crates/zzclawterm-core/src/text_edit.rs:142-154 | removes the selection or the character after; reports a change exactly when there was one to make |
| TextEdits.TextEdit.DeleteWordBackward | crates/zzclawterm-core/src/text_edit.rs:157-169 | removes the selection or back to the previous word boundary; reports a change exactly when there was one to make |
| TextEdits.TextEdit.Move | crates/zzclawterm-core/src/text_edit.rs:175-209 | moves, extends or collapses as specified |
| TextEdits.TextEdit.WordBoundaryBefore | crates/zzclawterm-core/src/text_edit.rs:279-299 | the two backward loops compute the word boundary |
| TextEdits.TextEdit.WordBoundaryAfter | crates/zzclawterm-core/src/text_edit.rs:301-319 | the two forward loops compute the word boundary |
| TextEdits.TextEdit.WordRangeAt | crates/zzclawterm-core/src/text_edit.rs:214-243 | the loops compute the word range on every offset |
| RemotePaths.PosixPathParts | crates/zzclawterm-files/src/file_browser.rs:691-706 | the push and pop loop computes the normalised parts, or None for relative paths and paths with NUL |
| RemotePaths.PartsAreNormal | crates/zzclawterm-files/src/file_browser.rs:691-706 | every part is a proper name |
| RemotePaths.PartsOfIdentity | crates/zzclawterm-files/src/file_browser.rs:468-474 | the identity of any path has the same parts as the path |
| RemotePaths.IdentityIdempotent | crates/zzclawterm-files/src/file_browser.rs:468-474 | the identity of an identity is itself, for every string |
| RemotePaths.IdentityIffSameParts | crates/zzclawterm-files/src/file_browser.rs:511-513 | two absolute NUL-free paths are the same exactly when their parts are equal |
| RemotePaths.DotsAreResolved | crates/zzclawterm-files/src/file_browser.rs:691-706 | a trailing `..` takes away the last part and none at the root, a trailing `.` or slash nothing, and a name followed by `..` nothing |
| RemotePaths.JoinAppends | crates/zzclawterm-files/src/file_browser.rs:437-452 | joining a proper child appends exactly that part |
| RemotePaths.NameParentUndoJoin | crates/zzclawterm-files/src/file_browser.rs:404-435 | name and parent undo join |
| RemotePaths.JoinUndoesParentName | crates/zzclawterm-files/src/file_browser.rs:404-452 | join undoes parent and name when the name is a proper one |
| RemotePaths.BareNames | crates/zzclawterm-files/src/file_browser.rs:404-452 | the parent of a bare name is `.`, and joining a name to `.`, `./` or nothing gives the bare name |
| RemotePaths.DirectoryCopyRefusedIff | crates/zzclawterm-files/src/file_browser.rs:652-676 | for all strings, a directory copy is refused exactly when one path has no normal form or the destination's parts begin with the source's |
| RemotePaths.FileCopyRefusedIff | crates/zzclawterm-files/src/file_browser.rs:652-666 | for all strings, a file copy is refused exactly when the source is the root or is the destination, by parts where it has a normal form and letter for letter where it has none |
| ConnectionSearch.Search | crates/zzclawterm-core/src/connection_search.rs:18-45 | terminates on cyclic catalogs; the included ids are exactly those of groups that match or lie below a match; an empty query includes none |
| ConnectionSearch.HitExactly | crates/zzclawterm-core/src/connection_search.rs:7-31 | a query matches a name exactly when, without the blanks around it, it occurs there up to the case of ASCII letters |
| ConnectionSearch.BlankIsEmpty | crates/zzclawterm-core/src/connection_search.rs:7-9 | a query of blanks is empty |
| ConnectionSearch.Index | crates/zzclawterm-core/src/connection_search.rs:22-31 | one pass lists the children of every id and the matching ids |
| ConnectionSearch.ClosedHoldsSubtrees | crates/zzclawterm-core/src/connection_search.rs:32-39 | a set that holds the matches and is closed downwards holds every subtree of a match |

## Left out

- Sockets, file locks, system calls, threads, timeouts and sleeps: each becomes an atomic step; any own step of the download may also fail (`Abort`).
- Job closures that never return and outcome callbacks that panic: a closure returns or panics in one step, and `on_outcome` is total; `ShutdownCompletes` relies on both.
- Reuse of identities: inode numbers and activation tokens are never reused; the name of a staged file differs from the target's.
- Check-then-remove in the new target's guard is one step.
- Permissions, modification times and the optional length check of `ReplaceKnownTarget`: only ever additional reasons to fail, which `Abort` covers.
- ExportNames.Pick: requires fewer than 2^64 - 2 reserved names, the range of the source's counter; likewise `NoteExport.PlanNoteExport` for folders and notes together.
- Writing and parsing the three lines of the endpoint file; it is an optional value of port and token.
- Search and replace compilation, regular expressions, undo and redo replay in the document editor.
- `ConnectionSearch::matches_connection`, `resolve_ssh_execution_profile` and similar direct combinations: they would only add easy members.
- Local and Windows path branches of the file browser, WSL paths, backend dispatch.
- The hex document, command-suggestion suppression, updater, transfer speed, MAC addresses, user interface, plugins, synchronisation and OTP.
