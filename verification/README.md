# NebulaStream: a Dafny model of parsing, query lifecycle, sequencing and buffer memory

This project models four protocols of the NebulaStream worker and one plan transformation, and proves what they promise:

- **Parallel parsing** (`SequenceShredder`, `CSVInputFormatter`). Workers receive numbered raw buffers in any order and decide, with two bits per buffer in a growing ring, which of them has just completed a tuple that spans buffers. The result: in every interleaving the emitted tuples are those of splitting the whole stream sequentially.
- **Query lifecycle** (`RunningQueryPlan`, `QueryEngine`, `RunningSource`). Pipelines keep their successors alive by reference counts; starts, work, stops and failures are tasks and callbacks. The results: when a stage may run, when and how often it is stopped, and that nothing is lost at the end of the stream.
- **Sequencing** (`NonBlockingMonotonicSeqQueue`, `ChunkCollector`, `Sequencer`, `EmitOperatorHandler`). Concurrent state machines that turn chunked, out-of-order buffers into complete or ordered ones.
- **Buffer memory** (`BufferControlBlock`, `TupleBuffer`, pools, unpooled chunks). Reference counts with nested children, a bump allocator that frees whole chunks, and conservation of pooled segments.
- **Plan flip** (`PhysicalPlanBuilder::flip`). Reversal of a plan's edges in place.

## How it is modelled

The shredder, the formatter's progress tracker, the sequencer, the emit handler, the segment table, the allocator, the buffer manager and the plan are classes with the fields the code updates. Each method is one section under a lock, or one call where the code does not interleave. The shredder's `Stage` is its first locked section together with the lock-free search on the snapshot, the two commits are its second; a ghost ledger of plain sets says what the bitmaps, the staged buffers and the use counts stand for, and every method keeps them in step. Since any sequence of method calls keeps that invariant, it holds in every interleaving of calls.

The lock-free queue, the chunk collector, the emit handler's and the sequence operator's workers and the query lifecycle are state machines: a state, a total function per step (a step whose guard fails changes nothing, so every sequence of actions is a run), and theorems about all runs. Atomics are sequentially consistent; a weak compare-and-exchange may fail for no reason.

A 64-bit bitmap is a sequence of 64 booleans; shifts require an amount below 64, so verification shows that no shift amount reaches 64. `x & (n - 1)` is `x % n` for the ring sizes, which are powers of two. Raw text is a `string`; a formatted tuple is represented by its raw text. The tuple delimiter is one character.

What comes from outside becomes a parameter: the texts of the raw buffers, the bytes a tuple's fields take (`Format.width`), the address the memory resource gives out, the rolling average of request sizes, and the order of all steps.

Some promises turned out false of the code. Each has a lemma with a concrete input or run, and a lemma that says exactly when the promise holds:

- A first tuple that a buffer without a delimiter completes is never reported if the tuple ends in a later bitmap than that buffer, because two guards test the number of the start (zero) instead of its flag: `ShredderRuns.FirstTupleIsLost`, exactly when in `ShredderRuns.LostExactly`, and the exact effect on the output in `ParallelParse.ParallelEqualsSequential`.
- The flush does not ask whether the number behind the last buffer is in range; if it is not, it claims numbers that do not exist or overwrites the start of the open tuple: `FlushOverrun.OverfullRing`, and exactly when it is right, `SequenceShredding.SequenceShredder.FlushSearch`.
- The flush need not use a fresh sequence number: `LostTupleNumber.RepeatedNumber`, and exactly when it repeats one, `ChunkSequence.FlushNumberRepeats`.
- A stage can be executed before every pipeline is started, if the query is stopped during its setup and a stopping stage emits: this is possible for exactly the plans that have an edge, `LifecycleTheorems.SetupBeforeExecution`.
- A stage whose start has succeeded can be destroyed without being stopped: `LifecycleTheorems.StartedNeverStopped`; exactly when it is stopped, `LifecycleTheorems.StoppedExactlyIfReached`.
- The head of the monotonic queue need not follow the current number: `MonotonicQueue.HeadCanLag`, and a condition under which it does, `MonotonicQueue.HeadFollows`.
- The last-chunk flag need not sit on the highest output number: `EmitChunks.FlagPrecedesLastNumber`; it always does for exactly the sequences of at most one input chunk, `EmitChunks.FlagIsHighest`.
- A child index is cut to 16 bits when the child is loaded: `BufferReferences.IndexIsCut`, and exactly when the round trip holds, `BufferReferences.StoredIndexRoundTrip`.
- An unpooled buffer's payload fits its footprint for every size exactly if the alignment divides the size of the control block: `UnpooledChunks.FitsExactlyIfAligned`; sizes are cut to 32 bits, `UnpooledChunks.SizeIsCut` and, exactly when that matters, `UnpooledChunks.AlignedExactly`.
- A new chunk need not hold the segment it was made for, because the page mask cuts its size to 32 bits: `UnpooledChunks.ChunkIsTooSmall`, and exactly when it does, `UnpooledChunks.ChunkHoldsFirst`.
- Segments that are stored in each other stay in use when every handle is gone: `BufferReferences.CycleLeaks`; exactly which ones do, `BufferReferences.LeakedExactly`.

Where code and comments disagree, the model follows the code. The comment in `nes-query-engine/RunningQueryPlan.cpp:383` says that stopping a query's sources emits pending pipeline stops; clearing the sources only drops their references. The class comment of `TupleBuffer` says that no child may be alive when its parent goes; the code keeps a loaded child alive by its own count.

## Model

| member | source | states |
|---|---|---|
| Spans.StageCompletes | nes-input-formatters/src/SequenceShredder.cpp:158-304 | staging a buffer makes exactly those spanning tuples complete that its own search finds: the call that stages the last buffer, and no other, sees a tuple complete |
| Spans.StageKeepsInv | nes-input-formatters/src/SequenceShredder.cpp:158-211 | the first locked section keeps: claims of calls in flight are disjoint, used starts are complete, every complete tuple is used, claimed or the lost first one |
| Spans.CommitKeepsInv | nes-input-formatters/src/SequenceShredder.cpp:518-540 | the second locked section keeps the same invariant |
| Spans.StageKeepsDisjoint | nes-input-formatters/src/SequenceShredder.cpp:195-211 | after a stage step still no two calls in flight claim a spanning tuple with the same start |
| Spans.StageKeepsAccounts | nes-input-formatters/src/SequenceShredder.cpp:212-304 | after a stage step still every complete spanning tuple is used, claimed, or the overlooked first one |
| Spans.StageKeepsLost | nes-input-formatters/src/SequenceShredder.cpp:272-301 | after a stage step still a first tuple counted as lost is complete, unused and claimed by nobody |
| ShredderRuns.RunKeepsInv | nes-input-formatters/src/SequenceShredder.cpp:132-327 | the protocol's invariant holds after every sequence of stage and commit steps |
| ShredderRuns.HandedOutOnce | nes-input-formatters/src/SequenceShredder.cpp:501-629 | in a run no two events hand out spanning tuples with the same start |
| ShredderRuns.OwnerStagedLast | nes-input-formatters/src/SequenceShredder.cpp:195-304 | the call that hands a spanning tuple out is the one that staged its last buffer |
| ShredderRuns.ExactlyOneOwner | nes-input-formatters/src/SequenceShredder.cpp:132-327 | a spanning tuple is handed out at most once, by the call that staged its last buffer; when no call is in flight each complete one was handed out, exactly unless it is the lost first one |
| ShredderRuns.LostExactly | nes-input-formatters/src/SequenceShredder.cpp:261-303 | the first tuple is lost if and only if a plain buffer of an earlier bitmap than the one of its end completes it; never if it ends before buffer 64 |
| ShredderRuns.FirstTupleIsLost | nes-input-formatters/src/SequenceShredder.cpp:261-285 | a run of 65 buffers in which no call hands out the complete first tuple |
| UseCounts.StageKeepsRemaining | nes-input-formatters/src/SequenceShredder.cpp:166-179 | a staged buffer has three remaining uses with a delimiter and one without; staging changes no other buffer's remaining uses |
| UseCounts.CommitRemaining | nes-input-formatters/src/SequenceShredder.cpp:591-605 | a commit takes from every buffer exactly the uses it makes of it |
| ShredderBuffers.StageBuffers | nes-input-formatters/src/SequenceShredder.cpp:158-179 | storing a buffer keeps every live slot's count and buffer, and sets its own |
| ShredderBuffers.HandOutHas | nes-input-formatters/src/SequenceShredder.cpp:591-605 | every buffer a commit hands out is still in its slot, with enough uses left: counts never become negative |
| ShredderBuffers.HandOutEnd | nes-input-formatters/src/SequenceShredder.cpp:519-528 | after the hand-out all live counts equal the remaining uses of the committed state |
| ShredderSearch.TryGetSpanningTupleStart | nes-input-formatters/src/SequenceShredder.cpp:385-410 | the aligned leading-ones count finds the highest position below the caller's bit that has no seen bit, and its delimiter bit |
| ShredderSearch.TryGetSpanningTupleEnd | nes-input-formatters/src/SequenceShredder.cpp:412-439 | the aligned trailing-ones count finds the lowest position above the caller's bit that is not a plain buffer, and its delimiter bit |
| ShredderSearch.StartInBitmap | nes-input-formatters/src/SequenceShredder.cpp:219-225 | if the run below ends in the own bitmap, the reported start is valid exactly if it is the reachable delimiter below |
| ShredderSearch.EndInBitmap | nes-input-formatters/src/SequenceShredder.cpp:226-230 | if the run above ends in the own bitmap, the reported end is valid exactly if it is the reachable delimiter above |
| ShredderSearch.TryToFindLowerWrappingSpanningTuple | nes-input-formatters/src/SequenceShredder.cpp:441-467 | the backward search over the ring stops at the tail at the latest and reports exactly the nearest delimiter reachable over plain buffers |
| ShredderSearch.TryToFindHigherWrappingSpanningTuple | nes-input-formatters/src/SequenceShredder.cpp:468-499 | the forward search stops within one turn of the ring and reports exactly the nearest delimiter reachable over plain buffers, never one of the tail bitmap |
| ShredderSearch.RunIsPlain | nes-input-formatters/src/SequenceShredder.cpp:181-193 | a run of seen bits that reaches up to a fresh buffer holds no used delimiter: the two meanings of a seen bit cannot be confused |
| ShredderSearch.Reachable | nes-input-formatters/src/SequenceShredder.cpp:181-190 | the plain scan: the unique delimiters reachable from a buffer in both directions, if there are any |
| ShredderSearch.Search | nes-input-formatters/src/SequenceShredder.cpp:212-304 | in all four wrapping modes the search reports exactly what the plain scan reaches, with the right validity flags; a plain buffer misses only the overlooked first tuple; for a number just behind the ring, what it reports instead |
| ShredderRing.StageMatches | nes-input-formatters/src/SequenceShredder.cpp:163-179 | setting a buffer's bit keeps both bitmap rings in step with the staged numbers |
| ShredderRing.StageKeepsTailOpen | nes-input-formatters/src/SequenceShredder.cpp:166-179 | staging never fills the seen bits of the tail bitmap |
| ShredderRing.ClearTail | nes-input-formatters/src/SequenceShredder.cpp:337-346 | a full tail bitmap holds consumed numbers only; clearing it and moving the tail keeps the rings in step |
| ShredderRing.UnusedDelimiter | nes-input-formatters/src/SequenceShredder.cpp:332-346 | some staged delimiter is always unused, so a tail bitmap to stop at exists |
| ShredderRing.TailBound | nes-input-formatters/src/SequenceShredder.cpp:332-346 | the tail never passes the last staged number, so advancing it stops within one turn |
| ShredderRing.DoublingKeepsSlot | nes-input-formatters/src/SequenceShredder.cpp:348-369 | under the conditions of a resize, old and doubled ring give every live number the same bitmap and the same buffer slot |
| ShredderRing.DoublingMatches | nes-input-formatters/src/SequenceShredder.cpp:371-380 | the doubled bitmap rings stand for the same numbers |
| SequenceShredding.WrappedTurn | nes-input-formatters/src/SequenceShredder.cpp:359-369 | a tail that wrapped at slot zero and keeps its slot in the doubled ring implies the conditions under which no live number moves |
| SequenceShredding.GrownRings | nes-input-formatters/src/SequenceShredder.cpp:505-515 | a ring size that a call took before a resize still maps the call's live buffers to their slots afterwards |
| SequenceShredding.GrownState | nes-input-formatters/src/SequenceShredder.cpp:371-381 | a resize keeps bitmaps, staged buffers, use counts and all calls in flight in step with the ledger |
| SequenceShredding.WrappingChecks | nes-input-formatters/src/SequenceShredder.cpp:185-193 | the two mask tests hold exactly if all buffers below, or above, in the bitmap are plain |
| SequenceShredding.StagedRing | nes-input-formatters/src/SequenceShredder.cpp:163-179 | after the first section's bit update the rings match, everything below the tail is consumed and the tail bitmap is open |
| SequenceShredding.MarkedRing | nes-input-formatters/src/SequenceShredder.cpp:607-617 | marking the used starts keeps the rings in step, and the tail bitmap is full exactly if the code's completion test says so |
| SequenceShredding.CommittedState | nes-input-formatters/src/SequenceShredder.cpp:518-540 | hand-out and marking together lead to the committed state |
| SequenceShredding.PassedState | nes-input-formatters/src/SequenceShredder.cpp:579-590 | a buffer that the tail has passed is returned unchanged and taking it touches no live slot |
| SequenceShredding.SequenceShredder.constructor | nes-input-formatters/src/SequenceShredder.cpp:44-64 | the initial ring holds the artificial delimiter zero with one use |
| SequenceShredding.SequenceShredder.IsInRange | nes-input-formatters/src/SequenceShredder.cpp:66-77 | in range exactly below the head; a refusal is counted |
| SequenceShredding.SequenceShredder.Store | nes-input-formatters/src/SequenceShredder.cpp:158-179 | the buffer and its full count are stored and the bitmaps match the extended ledger |
| SequenceShredding.SequenceShredder.TakeSnapshot | nes-input-formatters/src/SequenceShredder.cpp:181-211 | the wrapping flags are exact and the snapshot is enough for the search |
| SequenceShredding.SequenceShredder.StoreAndSearch | nes-input-formatters/src/SequenceShredder.cpp:158-304 | after storing, the search on the snapshot reports the reachable delimiters of the state it was taken from |
| SequenceShredding.SequenceShredder.Stage | nes-input-formatters/src/SequenceShredder.cpp:134-326 | the ledger records the buffer and the call's claim; other calls in flight are unaffected; a plain buffer without a complete tuple ends here |
| SequenceShredding.SequenceShredder.CommitWithoutDelimiter | nes-input-formatters/src/SequenceShredder.cpp:501-544 | hands out exactly the staged buffers from start to end of the claimed tuple, with the caller's index, and commits the claim |
| SequenceShredding.SequenceShredder.CommitWithDelimiter | nes-input-formatters/src/SequenceShredder.cpp:546-629 | hands out exactly the staged buffers of the leading and trailing tuples that were claimed, with the caller's index, also if the tail has passed the buffer or the ring has grown since |
| SequenceShredding.SequenceShredder.ReturnPassedBuffer | nes-input-formatters/src/SequenceShredder.cpp:579-590 | returns the caller's own buffer, from its slot if it is still there |
| SequenceShredding.SequenceShredder.HandOut | nes-input-formatters/src/SequenceShredder.cpp:591-605 | collects the staged buffers of the range in order and takes exactly the call's uses from the counts |
| SequenceShredding.SequenceShredder.HandOutOne | nes-input-formatters/src/SequenceShredder.cpp:593-604 | the slot computed with the call's ring size holds the buffer staged for the number |
| SequenceShredding.SequenceShredder.Mark | nes-input-formatters/src/SequenceShredder.cpp:607-617 | sets the used bits of the valid starts and tests whether that completes the tail bitmap |
| SequenceShredding.SequenceShredder.MarkStarts | nes-input-formatters/src/SequenceShredder.cpp:530-532 | the ledger is committed and the state is valid but possibly for a full tail bitmap |
| SequenceShredding.SequenceShredder.MarkAndAdvance | nes-input-formatters/src/SequenceShredder.cpp:607-623 | afterwards the state is valid: the tail bitmap is open again, and the ring has its size or is doubled exactly as the tail allows |
| SequenceShredding.SequenceShredder.IncrementTail | nes-input-formatters/src/SequenceShredder.cpp:332-383 | the tail moves past every completed bitmap; the ring doubles, and its refusals are forgotten, if and only if five or more numbers were refused, the tail has passed slot zero, it keeps its slot, and the doubled ring has at most 2048 bitmaps |
| SequenceShredding.SequenceShredder.AdvanceTail | nes-input-formatters/src/SequenceShredder.cpp:334-346 | clears completed bitmaps until an open one, terminates, and reports exactly whether the tail has passed slot zero |
| SequenceShredding.SequenceShredder.Grow | nes-input-formatters/src/SequenceShredder.cpp:371-381 | doubles all four vectors and keeps the invariant |
| SequenceShredding.SequenceShredder.ProcessSequenceNumber | nes-input-formatters/src/SequenceShredder.cpp:132-327 | one undisturbed call: the staged buffers of what it completed, or nothing |
| SequenceShredding.SequenceShredder.NextLargestSequenceNumber | nes-input-formatters/src/SequenceShredder.cpp:85-114 | the walk down the ring finds the number behind the largest staged one and whether that one has a delimiter |
| SequenceShredding.SequenceShredder.FlushFinalPartialTuple | nes-input-formatters/src/SequenceShredder.cpp:79-130 | the artificial delimiter behind the last number hands out the open tuple's buffers; the sequence number to use follows the use count of the last buffer |
| SequenceShredding.SequenceShredder.FlushSearch | nes-input-formatters/src/SequenceShredder.cpp:79-304 | after any gapless stream: the flush claims exactly the open tuple, with all of its buffers still in their slots, if and only if the number behind the last buffer is in range; otherwise it reports an end exactly if the open tuple does not start at the tail |
| FlushRange.FlushRing | nes-input-formatters/src/SequenceShredder.cpp:85-125 | what the flush sees: in range there is no end; behind the ring its bit falls on the tail, the start is still right, and any delimiter above the tail passes for an end |
| FlushRange.FlushedSlots | nes-input-formatters/src/SequenceShredder.cpp:160-175 | the flush leaves every buffer of the open tuple in place exactly if it is in range or the tuple does not start at the tail |
| FlushOverrun.OverfullRing | nes-input-formatters/src/SequenceShredder.cpp:79-130 | for every initial ring size, also the one the program uses, a stream that fills the ring and whose flush claims a tuple that ends five numbers behind its own, where nothing was staged |
| TupleText.FindFrom | nes-input-formatters/src/CSVInputFormatter.cpp:264-264 | the first delimiter at or behind a position, or none |
| TupleText.FindLast | nes-input-formatters/src/CSVInputFormatter.cpp:110-113 | the last delimiter of a buffer |
| TupleText.SplitJoin | nes-input-formatters/src/CSVInputFormatter.cpp:157-179 | the reference split is the inverse of joining with delimiters and its pieces hold none |
| TupleText.SplitConcat | nes-input-formatters/src/CSVInputFormatter.cpp:575-597 | the split of two texts put together joins the last piece of the one with the first of the other |
| CsvFormatting.DescribeDelimited | nes-input-formatters/src/CSVInputFormatter.cpp:474-486 | the offsets handed to the shredder are those of the first and the last delimiter |
| CsvFormatting.ProgressTracker.constructor | nes-input-formatters/src/CSVInputFormatter.cpp:66-78 | a new tracker starts with chunk one and an empty formatted buffer |
| CsvFormatting.ProgressTracker.ResetForNewRawTB | nes-input-formatters/src/CSVInputFormatter.cpp:81-89 | points the tracker at a raw buffer and changes nothing that was formatted |
| CsvFormatting.ProgressTracker.CheckAndHandleFullBuffer | nes-input-formatters/src/CSVInputFormatter.cpp:134-155 | afterwards there is room for a tuple; a full buffer was passed on as a numbered chunk that is not the last; no tuple is lost or repeated |
| CsvFormatting.ProgressTracker.FormatTuple | nes-input-formatters/src/CSVInputFormatter.cpp:172-188 | adds exactly one tuple, within the buffer's size, and moves on to the next delimiter |
| CsvFormatting.ProgressTracker.ProcessCurrentBuffer | nes-input-formatters/src/CSVInputFormatter.cpp:157-179 | formats exactly the finished pieces of the reference split, in order |
| CsvFormatting.ProgressTracker.ProcessPartialTuple | nes-input-formatters/src/CSVInputFormatter.cpp:556-602 | formats one tuple: the text from the first buffer's last delimiter to the last buffer's first one |
| CsvFormatting.GluePartialTuple | nes-input-formatters/src/CSVInputFormatter.cpp:566-597 | the append loop yields trailing part, all buffers in between, leading part |
| CsvFormatting.ProgressTracker.Close | nes-input-formatters/src/CSVInputFormatter.cpp:524-528 | chunk numbers are 1..k, only the last is flagged, tuple counts are right, and the chunks hold every formatted tuple |
| CsvFormatting.FormatWithDelimiter | nes-input-formatters/src/CSVInputFormatter.cpp:488-529 | emits the leading spanning tuple, the inner tuples and the trailing one in this order; nothing at all exactly if there is only one buffer with one delimiter |
| CsvFormatting.FormatWithoutDelimiter | nes-input-formatters/src/CSVInputFormatter.cpp:531-553 | emits one spanning tuple if there are at least three buffers |
| CsvFormatting.FlushFinalTuple | nes-input-formatters/src/CSVInputFormatter.cpp:604-634 | emits the open tuple unless its text is empty |
| ParallelParse.SplitOfPrefix | nes-input-formatters/src/CSVInputFormatter.cpp:452-554 | the sequential split of the first k buffers, by the buffer in which each tuple ends |
| ParallelParse.StageEmits | nes-input-formatters/src/CSVInputFormatter.cpp:478-487 | staging emits nothing and takes nothing back |
| ParallelParse.CommitEmits | nes-input-formatters/src/CSVInputFormatter.cpp:488-529 | a commit adds exactly the tuples of its call to what was emitted |
| ParallelParse.QuietResult | nes-input-formatters/src/CSVInputFormatter.cpp:604-634 | when no call is in flight, the emitted tuples, the flushed one and a lost first one make up the tuples of the stream |
| ParallelParse.ParallelEqualsSequential | nes-input-formatters/src/CSVInputFormatter.cpp:452-634 | for every cut of a stream and every interleaving followed by the flush, the emitted multiset is the delimiter split without an empty last piece, less the first tuple exactly if it was lost |
| ParallelParse.FirstDelimiterInFirstBitmap | nes-input-formatters/src/CSVInputFormatter.cpp:452-634 | nothing is missing if the first delimiter lies in a buffer below 64 |
| ParallelParsing.SpanTextOfStream | nes-input-formatters/src/CSVInputFormatter.cpp:566-597 | the text glued from handed-out buffers is the stream's text between the two delimiters |
| ParallelParsing.DelimiterCallTuples | nes-input-formatters/src/CSVInputFormatter.cpp:488-529 | what the formatter makes of a call's buffers is what the call owes the stream |
| ParallelParsing.PlainCallTuples | nes-input-formatters/src/CSVInputFormatter.cpp:531-553 | the same for a call whose buffer has no delimiter; it always gets at least three buffers |
| ParallelParsing.InspectRawBuffer | nes-input-formatters/src/CSVInputFormatter.cpp:472-477 | finds whether a raw buffer has a delimiter, and its first and last one |
| ParallelParsing.ParallelParser.Begin | nes-input-formatters/src/CSVInputFormatter.cpp:459-487 | an out-of-range buffer is to be repeated and changes nothing; otherwise the stage step is made on the real ring |
| ParallelParsing.ParallelParser.Finish | nes-input-formatters/src/CSVInputFormatter.cpp:488-553 | the commit step on the real ring emits numbered chunks, after which the emitted tuples are still exactly those of all committed calls |
| ParallelParsing.ParallelParser.Flush | nes-input-formatters/src/CSVInputFormatter.cpp:604-634 | after it, all emitted chunks together hold exactly the tuples of the stream, less a lost first one; the open text, if not empty, is one chunk under the number behind the last buffer, or under that of the last buffer if this has not ended a tuple; exactly when that number was used before; the next number must be in range |
| ParallelParsing.FlushText | nes-input-formatters/src/SequenceShredder.cpp:104-125 | the flush gets at least two buffers and their text is the text still open |
| ChunkSequence.CommitNumbers | nes-input-formatters/src/CSVInputFormatter.cpp:488-553 | every call emits under its own number, under which nothing was emitted before, so no two chunks share sequence and chunk number |
| ChunkSequence.LastUses | nes-input-formatters/src/SequenceShredder.cpp:110-120 | when every call is done, the use count of the last buffer tells exactly whether it has a delimiter and the tuple that ends in it was handed out |
| ChunkSequence.FlushNumberRepeats | nes-input-formatters/src/SequenceShredder.cpp:110-120 | the flush repeats the number of an earlier chunk if and only if the first tuple was lost, ends in the last buffer, and that has tuples of its own |
| LostTupleNumber.RepeatedNumber | nes-input-formatters/src/SequenceShredder.cpp:104-125 | a stream of 64 buffers whose emitted chunks repeat a sequence and chunk number |
| LifecycleReferences.NextReferences | nes-query-engine/RunningQueryPlan.cpp:140-197 | no step makes a reference to a node that has none, and a node leaves its shared phase only without references |
| LifecycleSafety.NextKeepsNodes | nes-query-engine/RunningQueryPlan.cpp:140-197 | phase, termination flag and past of every node stay consistent; a destroyed node requires no termination |
| LifecycleSafety.HeldInSetup | nes-query-engine/RunningQueryPlan.cpp:217-256 | during the setup every node is held by a waiting source or a predecessor |
| LifecycleSafety.NextKeepsSetup | nes-query-engine/RunningQueryPlan.cpp:301-356 | a setup ends by firing once with every node started, or by an interruption that leaves no source |
| LifecycleTheorems.RunIsSafe | nes-query-engine/QueryEngine.cpp:434-588 | these invariants hold in every reachable state |
| LifecycleTheorems.StopsOnceAfterExecution | nes-query-engine/QueryEngine.cpp:434-588 | a stage is never executed during or after its own stop and is stopped at most once |
| LifecycleTheorems.StopsAfterPredecessors | nes-query-engine/RunningQueryPlan.cpp:140-168 | a node is handed to its stop only after all predecessors are destroyed; without failures each one that was started has been stopped |
| LifecycleTheorems.ExecutesAfterSetup | nes-query-engine/RunningQueryPlan.cpp:297-357 | a stage is executed only when every pipeline has been started, unless the setup was interrupted |
| LifecycleTheorems.EarlyExecution | nes-query-engine/QueryEngine.cpp:558-588 | a run in which a stopping stage's buffer is executed by a successor that was never started |
| LifecycleTheorems.SetupBeforeExecution | nes-query-engine/QueryEngine.cpp:434-588 | start before execution holds in all runs of exactly the plans without edges |
| LifecycleTheorems.StartedNeverStopped | nes-query-engine/RunningQueryPlan.cpp:183-194 | for every pipeline without predecessors, a run in which its start succeeds and it is destroyed without a stop |
| LifecycleTheorems.StoppedExactlyIfReached | nes-query-engine/RunningQueryPlan.cpp:140-194 | without failures a destroyed node was stopped exactly if the callback of its start had reached it, and always if the setup was not interrupted |
| LifecycleTheorems.RestedQueryTerminates | nes-query-engine/QueryEngine.cpp:812-838 | a query without tasks and open sources has no node left, so its termination callback is due |
| LifecycleDrain.NextCounted | nes-query-engine/QueryEngine.cpp:207-273 | every step keeps the pending counter of a lockable node equal to its outstanding work tasks |
| LifecycleDrain.PendingTasksAreExact | nes-query-engine/QueryEngine.cpp:207-273 | in every run the pending counter is that number, never negative |
| LifecycleDrain.PendingStopGuarded | nes-query-engine/QueryEngine.cpp:518-556 | a pending stop that lets go leaves no pipeline with outstanding work unguarded |
| LifecycleDrain.EndStopGuarded | nes-query-engine/RunningQueryPlan.cpp:149-157 | successors of a stopped pipeline pass from it to pending stops without a gap |
| LifecycleDrain.SourceGuarded | nes-query-engine/RunningQueryPlan.cpp:325-347 | successors of an ended source pass from it to pending stops without a gap |
| LifecycleDrain.NextDrained | nes-query-engine/QueryEngine.cpp:434-482 | without failure and stop request, no step lets a work task expire |
| LifecycleDrain.EndOfStreamDrain | nes-query-engine/QueryEngine.cpp:518-582 | if all sources end by themselves, no work task ever finds its pipeline gone, and when a pipeline is handed to its stop every task emitted for it has been executed and completed |
| LifecycleProgress.RunIsTidy | nes-query-engine/RunningQueryPlan.cpp:361-424 | in every run sources are open only while the query starts or runs, and wait only during the setup |
| LifecycleProgress.PendingStopReleases | nes-query-engine/QueryEngine.cpp:518-556 | in every reachable state a step on a pending stop takes it away if and only if its pipeline requires no termination or has no outstanding work |
| LifecycleProgress.SetupCanComplete | nes-query-engine/RunningQueryPlan.cpp:297-357 | from every reachable state of a setup without failure, some continuation starts all pipelines and then all sources |
| LifecycleProgress.EveryQueryCanEnd | nes-query-engine/QueryEngine.cpp:434-588 | from every reachable state some continuation leaves no node, task or source, and ends a query without failures as stopped |
| LifecycleProgress.EveryStageCanStop | nes-query-engine/QueryEngine.cpp:434-588 | without failures and if the setup was not interrupted, that end can be reached with every stage started and stopped once |
| LifecycleProgress.SourceTaskRuns | nes-query-engine/RunningSource.cpp:37-68 | a buffer of a running source can be executed by each of its successors |
| LifecycleProgress.PassedTaskRuns | nes-query-engine/QueryEngine.cpp:434-482 | a buffer that an executing stage passes on or repeats can be executed |
| LifecycleProgress.StopTaskIsKept | nes-query-engine/QueryEngine.cpp:558-588 | a buffer emitted by a stage that is being stopped is never lost, in no continuation: its pipeline stays until it is done |
| LifecycleProgress.FailureEndsQuery | nes-query-engine/QueryEngine.cpp:777-811 | a failure of a source, of a start or task whose pipeline can be locked, or of a stop fails the query; its sources are closed and no stage that can be locked will be stopped |
| LifecycleProgress.TaskOutcome | nes-query-engine/QueryEngine.cpp:434-482 | a task that fails tears the query down if its pipeline can be locked, one that succeeds does not touch it |
| LifecycleProgress.StartOutcome | nes-query-engine/QueryEngine.cpp:484-516 | a start that fails tears the query down, one that succeeds makes the pipeline require termination, both if it can be locked |
| MonotonicQueue.NextKeepsInv | nes-common/include/Sequencing/NonBlockingMonotonicSeqQueue.hpp:128-244 | every atomic step keeps: stored prefix, blocks in place, head not ahead, and a thread that will shift over a stored next number; neither current number nor head decreases |
| MonotonicQueue.EmplaceKeepsInv | nes-common/include/Sequencing/NonBlockingMonotonicSeqQueue.hpp:85-101 | a number that arrives for the first time is above the current one |
| MonotonicQueue.CheckKeepsInv | nes-common/include/Sequencing/NonBlockingMonotonicSeqQueue.hpp:194-226 | a thread leaves the shift loop only when the next number is not stored, even with a stale copy of the current number |
| MonotonicQueue.RunKeepsInv | nes-common/include/Sequencing/NonBlockingMonotonicSeqQueue.hpp:85-244 | the invariant holds under every interleaving and every spurious failure |
| MonotonicQueue.CurrentNeverDecreases | nes-common/include/Sequencing/NonBlockingMonotonicSeqQueue.hpp:179-227 | along a run the current number never decreases |
| MonotonicQueue.CurrentIsEmplaced | nes-common/include/Sequencing/NonBlockingMonotonicSeqQueue.hpp:179-227 | all numbers up to the current one were emplaced |
| MonotonicQueue.BlockOfNumber | nes-common/include/Sequencing/NonBlockingMonotonicSeqQueue.hpp:128-173 | a thread that has found its block is in the block of its number: both block assertions hold |
| MonotonicQueue.BlockOfCurrent | nes-common/include/Sequencing/NonBlockingMonotonicSeqQueue.hpp:233-244 | the block of a loaded current number exists and is reachable from the loaded head |
| MonotonicQueue.QuiescentQueue | nes-common/include/Sequencing/NonBlockingMonotonicSeqQueue.hpp:85-117 | when all emplace calls have returned, the current number is the largest with all numbers up to it emplaced, and its slot holds the value of its first emplace |
| MonotonicQueue.StoredValues | nes-common/include/Sequencing/NonBlockingMonotonicSeqQueue.hpp:128-173 | in every run a slot holds the value its number was first emplaced with, and every number up to the current one was emplaced |
| MonotonicQueue.EveryCallCanReturn | nes-common/include/Sequencing/NonBlockingMonotonicSeqQueue.hpp:85-244 | from every reachable state some continuation lets every emplace return |
| MonotonicQueue.HeadFollows | nes-common/include/Sequencing/NonBlockingMonotonicSeqQueue.hpp:179-226 | if no head exchange fails for no reason and no thread enters a new block while another is still to move the head, the head ends in the block of the current number |
| MonotonicQueue.HeadCanLag | nes-common/include/Sequencing/NonBlockingMonotonicSeqQueue.hpp:179-226 | a run of two calls after which the head is in an earlier block |
| MonotonicQueue.ReferencesAreKept | nes-common/include/Sequencing/NonBlockingMonotonicSeqQueue.hpp:128-244 | every block that a thread gets a reference to is kept by the head or by a thread: no released block is used |
| ChunkCollector.BalanceZero | nes-common/include/Sequencing/ChunkCollector.hpp:79-86 | the sum of the counter updates is zero exactly when every chunk was counted, and never wraps around to zero |
| ChunkCollector.CountZero | nes-common/include/Sequencing/ChunkCollector.hpp:79-86 | the unsigned 64-bit counter reaches zero exactly when every chunk has been counted |
| ChunkCollector.MergedIsMaximum | nes-common/include/Sequencing/ChunkCollector.hpp:64-68 | what is merged when all chunks are counted is the maximum of all watermarks |
| ChunkCollector.OthersReturned | nes-common/include/Sequencing/ChunkCollector.hpp:147-155 | while a call removes a node no other call uses it |
| ChunkCollector.RunKeepsInv | nes-common/include/Sequencing/ChunkCollector.hpp:126-157 | the collector's invariant holds for every arrival order and interleaving |
| ChunkCollector.CompleteOnce | nes-common/include/Sequencing/ChunkCollector.hpp:62-89 | only one call of a number returns it, only when all chunks were counted, with the maximum watermark; and one does once all have returned |
| ChunkCollector.NodesAreRemovedInTime | nes-common/include/Sequencing/ChunkCollector.hpp:126-157 | a node in use is in the list; with no call running, a node that had calls is gone exactly if all its numbers are complete |
| ChunkCollector.EveryNumberCanComplete | nes-common/include/Sequencing/ChunkCollector.hpp:62-157 | from every reachable state some continuation returns a number, with the maximum watermark of its chunks |
| Sequencing.InsertKeeps | nes-common/include/Sequencing/Sequencer.hpp:77-81 | the queue stays sorted by sequence, chunk and flag, and gains exactly the item |
| Sequencing.Sequencer.constructor | nes-common/include/Sequencing/Sequencer.hpp:104-105 | expects the first chunk of number one |
| Sequencing.Sequencer.IsNext | nes-common/include/Sequencing/Sequencer.hpp:49-61 | hands an item back exactly if it is at the expected position, otherwise keeps it |
| Sequencing.Sequencer.AdvanceAndGetNext | nes-common/include/Sequencing/Sequencer.hpp:69-94 | moves to the following position and hands out the item there if it is waiting |
| Sequencing.NextNotWaiting | nes-common/include/Sequencing/Sequencer.hpp:87-94 | if the first of the queue is not the expected item, the expected one is not in the queue at all |
| SequenceOperator.RunKeepsInv | nes-physical-operators/src/SequenceOperatorHandler.cpp:27-49 | for any number of workers and every interleaving of their locked and unlocked steps, the handler stays in order |
| SequenceOperator.OneWorkerHasTheTurn | nes-physical-operators/src/SequenceOperatorHandler.cpp:27-49 | between its grant and its advance a worker is the only one; no other worker can read or write the unprotected buffer variable, or changes it |
| SequenceOperator.ProcessedInOrder | nes-physical-operators/src/SequenceOperatorHandler.cpp:27-49 | in every run the items are processed once each, in order and unchanged, and the precondition of the sequencer never fails |
| SequenceOperator.NothingIsForgotten | nes-physical-operators/src/SequenceOperatorHandler.cpp:38-49 | when all workers are idle the next item is not waiting; if all items have arrived, all were processed |
| SequenceOperator.EveryItemCanBeProcessed | nes-physical-operators/src/SequencePhysicalOperator.cpp:31-52 | from every reachable state some continuation processes the whole stream |
| SequenceOperator.AdvanceKeepsInv | nes-common/include/Sequencing/Sequencer.hpp:69-94 | a worker that advances is granted the following item exactly if it is waiting, and gives up the turn otherwise |
| SequenceOperator.SequenceOperatorHandler.constructor | nes-common/include/Sequencing/Sequencer.hpp:100-108 | the handler starts in the initial state of the protocol |
| SequenceOperator.SequenceOperatorHandler.AskSequencer | nes-physical-operators/src/SequenceOperatorHandler.cpp:29-30 | the locked first step of getNextBuffer is a step of the protocol, and grants the item exactly if it is the next one |
| SequenceOperator.SequenceOperatorHandler.StoreBuffer | nes-physical-operators/src/SequenceOperatorHandler.cpp:32-33 | the unlocked write of the variable is a step of the protocol |
| SequenceOperator.SequenceOperatorHandler.ProcessBuffer | nes-physical-operators/src/SequencePhysicalOperator.cpp:31-52 | the buffer that the worker finds in the variable is the next item of the stream |
| SequenceOperator.SequenceOperatorHandler.LoadSequence | nes-physical-operators/src/SequenceOperatorHandler.cpp:40-42 | the unlocked read of the variable is a step of the protocol |
| SequenceOperator.SequenceOperatorHandler.AdvanceSequencer | nes-physical-operators/src/SequenceOperatorHandler.cpp:41-48 | the locked step of markBufferAsDone is a step of the protocol; the sequencer accepts the data that were read |
| EmitChunks.EmitPhysicalOperator.Execute | nes-physical-operators/src/EmitPhysicalOperator.cpp:109-127 | every record is written once; a buffer is emitted exactly when it is full, never as the last chunk |
| EmitChunks.EmitPhysicalOperator.Close | nes-physical-operators/src/EmitPhysicalOperator.cpp:129-164 | all outputs together hold exactly the records; only the closing one can carry the flag, and then both maps have lost the key |
| EmitChunks.CountKeepsInv | nes-physical-operators/src/EmitOperatorHandler.cpp:47-65 | a worker is told that it completes the sequence exactly if all input chunks are counted |
| EmitChunks.ChunkNumbersAreComplete | nes-physical-operators/src/EmitPhysicalOperator.cpp:136-164 | in every interleaving the buffers of all workers carry exactly the numbers 1..N, each once; when all workers are done exactly one output is flagged and both maps are empty |
| EmitChunks.EmittedNumber | nes-physical-operators/src/EmitPhysicalOperator.cpp:109-127 | in every run an open worker can emit a full buffer, with the next number |
| EmitChunks.EveryRunCanFinish | nes-physical-operators/src/EmitPhysicalOperator.cpp:129-164 | from every reachable state some continuation ends with all workers done |
| EmitChunks.AtomicCloseIsLast | nes-physical-operators/src/EmitPhysicalOperator.cpp:148-164 | if a close is one step, the flagged output has number N in every continuation, and no number follows |
| EmitChunks.FlagIsHighest | nes-physical-operators/src/EmitPhysicalOperator.cpp:148-161 | the flagged output has the highest number in all runs if and only if the sequence has at most one input chunk |
| EmitChunks.FlagPrecedesLastNumber | nes-physical-operators/src/EmitPhysicalOperator.cpp:152-153 | for every number of input chunks above one, a run to the end in which number one is flagged |
| BufferReferences.SegmentTable.Prepare | nes-memory/TupleBufferImpl.cpp:142-158 | a free segment gets its first handle and count one |
| BufferReferences.SegmentTable.Copy | nes-memory/TupleBuffer.cpp:43-49 | a copied handle counts, an empty one does not |
| BufferReferences.SegmentTable.CopyAssign | nes-memory/TupleBuffer.cpp:50-72 | the handle changes its segment; counts stay equal to references, and only segments without references are recycled |
| BufferReferences.SegmentTable.MoveConstruct | nes-memory/include/Runtime/TupleBuffer.hpp:99-107 | moving a handle changes no count |
| BufferReferences.SegmentTable.MoveAssign | nes-memory/TupleBuffer.cpp:73-88 | swapping two handles changes no count |
| BufferReferences.SegmentTable.Drop | nes-memory/TupleBuffer.cpp:89-110 | counts equal references again after the last release has gone through all children that lost their last reference |
| BufferReferences.SegmentTable.StoreChild | nes-memory/TupleBuffer.cpp:175-183 | the child moves from the handle into the parent's list at the returned index; no count changes |
| BufferReferences.SegmentTable.LoadChild | nes-memory/TupleBufferImpl.cpp:333-343 | the new handle refers to the child at the index, cut to 16 bits |
| BufferReferences.SegmentTable.Release | nes-memory/TupleBufferImpl.cpp:211-245 | a segment is recycled exactly when its count reaches zero; release terminates; lists of segments still in use do not change |
| BufferReferences.SegmentTable.ReleaseChildren | nes-memory/TupleBufferImpl.cpp:215-221 | taking a segment apart makes exactly the releases its child entries stand for |
| BufferReferences.StoredIndexRoundTrip | nes-memory/TupleBufferImpl.cpp:326-343 | a stored child is found again by its index, also after later stores, exactly below 65536 entries or if the cut index holds the same child |
| BufferReferences.IndexIsCut | nes-memory/TupleBufferImpl.cpp:333-343 | the child with index 65536 is not found by it |
| BufferReferences.LeakedExactly | nes-memory/TupleBufferImpl.cpp:211-245 | without handles a segment stays in use if and only if it is reached from a cycle of child entries |
| BufferReferences.CycleLeaks | nes-memory/TupleBuffer.cpp:175-183 | two segments that are stored in each other are never recycled |
| BufferReferences.NothingLeaks | nes-memory/TupleBufferImpl.cpp:211-245 | without handles, an acyclic table has recycled every segment |
| UnpooledChunks.AlignedSize | nes-memory/TupleBufferImpl.hpp:52-60 | where nothing is cut off, the aligned size is the size rounded up to the alignment |
| UnpooledChunks.AlignedExactly | nes-memory/TupleBufferImpl.hpp:52-60 | in 32 bits the aligned size is at least the size exactly if the size rounded up is below 2^32 |
| UnpooledChunks.FitsIfAligned | nes-memory/UnpooledChunksManager.cpp:140-155 | control block and payload fit the footprint if the alignment divides the control block |
| UnpooledChunks.FitsExactlyIfAligned | nes-memory/UnpooledChunksManager.cpp:140-155 | they fit for every size if and only if it does |
| UnpooledChunks.SizeIsCut | nes-memory/TupleBufferImpl.hpp:52-60 | a size that fills 32 bits with the control block gets no footprint |
| UnpooledChunks.ChunkHoldsFirst | nes-memory/UnpooledChunksManager.cpp:106-110 | a new chunk holds the segment it was made for exactly if its size in whole pages is below 2^32 or the size cut to 32 bits still suffices; for a request of at least ten averages, exactly if it is a page below 2^32 |
| UnpooledChunks.ChunkIsTooSmall | nes-memory/UnpooledChunksManager.cpp:106-110 | a thread's first request, for 450000000 bytes, gets a chunk of 205037568 bytes |
| UnpooledChunks.CutSegment | nes-memory/UnpooledChunksManager.cpp:92-103 | a segment cut behind the used part overlaps no live segment |
| UnpooledChunks.FirstSegment | nes-memory/UnpooledChunksManager.cpp:119-132 | nor does the first segment of a new chunk |
| UnpooledChunks.DropSegment | nes-memory/UnpooledChunksManager.cpp:160-178 | the active count is one exactly for the last live segment of a chunk |
| UnpooledChunks.UnpooledChunksManager.GetUnpooledBuffer | nes-memory/UnpooledChunksManager.cpp:82-192 | the segment is cut behind the used part of the thread's last chunk if that is larger than both, else from a new chunk that becomes the last one; live segments never overlap and each payload, of at least the requested size, lies in its own footprint of a chunk not yet freed, if and only if it fits where it is cut |
| UnpooledChunks.UnpooledChunksManager.Recycle | nes-memory/UnpooledChunksManager.cpp:158-179 | a chunk is freed exactly when its last segment is released |
| UnpooledChunks.UnpooledChunksManager.GetNumberOfUnpooledBuffers | nes-memory/UnpooledChunksManager.cpp:66-80 | the sum of the active counts is the number of live unpooled buffers |
| BufferPools.BufferManager.constructor | nes-memory/BufferManager.cpp:160-178 | every segment is in the global queue |
| BufferPools.BufferManager.GetBuffer | nes-memory/BufferManager.cpp:193-206 | hands out the first available segment; none exactly if the queue is empty |
| BufferPools.BufferManager.RecyclePooledBuffer | nes-memory/BufferManager.cpp:230-237 | the bounded write succeeds and is counted |
| BufferPools.BufferManager.Recycle | nes-memory/FixedSizeBufferPool.cpp:115-132 | a segment goes back to its owner's queue, which has room, or past a destroyed pool to the global queue |
| BufferPools.BufferManager.CreateFixedSizeBufferPool | nes-memory/BufferManager.cpp:276-306 | reserves all segments or none, exactly according to the number available |
| BufferPools.BufferManager.FillPool | nes-memory/FixedSizeBufferPool.cpp:38-49 | no write to the pool's bounded queue is lost |
| BufferPools.BufferManager.GetBufferFromPool | nes-memory/FixedSizeBufferPool.cpp:89-102 | hands out a segment of the pool, to be returned to it |
| BufferPools.BufferManager.DestroyPool | nes-memory/FixedSizeBufferPool.cpp:62-81 | exactly the pool's resident segments go to the global queue at once |
| BufferPools.BufferManager.Destroy | nes-memory/BufferManager.cpp:57-104 | shutdown succeeds exactly if no segment is in use, and then all are in the global queue |
| BufferPools.EverythingIsBack | nes-memory/BufferManager.cpp:57-104 | with all pools destroyed and nothing in use the global queue holds every segment |
| PlanFlip.CollectNodes | nes-query-optimizer/src/PhysicalPlanBuilder.cpp:68-80 | the depth-first search visits only reachable operators, each once, and leaves no visited operator with an unvisited child behind |
| PlanFlip.PhysicalPlan.Collect | nes-query-optimizer/src/PhysicalPlanBuilder.cpp:65-80 | the visited operators are exactly those the root reaches |
| PlanFlip.PhysicalPlan.ReverseEdges | nes-query-optimizer/src/PhysicalPlanBuilder.cpp:82-95 | the reversed lists hold every parent as often as it has the child, while the old lists are cleared |
| PlanFlip.ParentsCount | nes-query-optimizer/src/PhysicalPlanBuilder.cpp:84-95 | every edge is reversed with its multiplicity, and there are no others |
| PlanFlip.CountInDegrees | nes-query-optimizer/src/PhysicalPlanBuilder.cpp:97-103 | an in-degree is zero exactly if the operator appears in no reversed list |
| PlanFlip.AppearsIfInner | nes-query-optimizer/src/PhysicalPlanBuilder.cpp:97-112 | an operator appears there exactly if it had a child |
| PlanFlip.SelectRoots | nes-query-optimizer/src/PhysicalPlanBuilder.cpp:105-112 | the roots are the operators of in-degree zero, each once |
| PlanFlip.PhysicalPlan.Flip | nes-query-optimizer/src/PhysicalPlanBuilder.cpp:61-127 | exactly the reversed edges with multiplicity among the reachable operators, all others untouched; the new roots are exactly the former leaves |
| PlanFlip.ReachedFromLeaf | nes-query-optimizer/src/PhysicalPlanBuilder.cpp:61-127 | in an acyclic plan every operator is reachable from some new root |
| PlanFlip.SameOperators | nes-query-optimizer/src/PhysicalPlanBuilder.cpp:65-80 | what the only leaf reaches in the flipped plan is what the root reached in the plan |
| PlanFlip.RootIsOnlyLeaf | nes-query-optimizer/src/PhysicalPlanBuilder.cpp:97-112 | in the flipped plan the old root, and no other operator, has no child |
| PlanFlip.FlipTwice | nes-query-optimizer/src/PhysicalPlanBuilder.cpp:61-127 | flipping an acyclic plan with one leaf, and then from that leaf, covers the same operators, restores every edge with its multiplicity and gives back the root |

## Left out

- Field values: parsing of tokens into values, and the tokenizer, are foreign library code; a tuple is its raw text, and the bytes its fields take are a parameter that never exceeds the schema's size.
- Tuple delimiters of more than one byte: the code itself mixes an offset of one with the delimiter's length.
- SequenceShredding.SequenceShredder.FlushFinalPartialTuple: requires the number behind the last buffer to be in range, like `ParallelParsing.ParallelParser.Flush`.
- SequenceShredding.SequenceShredder.CommitWithDelimiter: for a buffer the tail has passed, requires a real raw buffer; only the flush's artificial one is none, and that is never passed.
- ParallelParsing.ParallelParser.Flush: requires the number behind the last buffer to be in range, which the code does not test; `FlushSearch` says what happens otherwise, up to the flush's second section.
- SequenceShredding.SequenceShredder.Stage: each number is staged once and only after the range test said yes, as the formatter calls it; the offsets are not cut to 32 bits.
- CsvFormatting.FormatWithDelimiter: allocation of formatted buffers and the emit calls themselves are left out; the emitted chunks are a sequence.
- Memory orders weaker than sequential consistency, the internals of the queues and locks, timeouts and blocking.
- The query lifecycle, the monotonic queue, the chunk collector, the emit workers and the workers of the sequence operator are modelled on values, as state machines, because their steps interleave; updates in place are steps of the machine.
- Query lifecycle: the creation of all nodes of a plan is one step; a source that was closed has ended its thread; an emit with the policies NEVER or REPEAT that gives up on a full queue is a step that does nothing; a pending stop's work stealing from the admission queue is left out; engine shutdown, where tasks are dropped on purpose, and status listeners are left out.
- LifecycleDrain.EndOfStreamDrain: says that no task is lost; that the query can be run to its end is `LifecycleProgress.EveryQueryCanEnd`, and that a scheduler does so is not claimed; stopping a query drops its sources without draining them, so nothing is claimed for that.
- MonotonicQueue.QuiescentQueue: the value agreement is for quiescent states, because a slot's number is stored before its value.
- ChunkCollector.CompleteOnce: the compare-and-exchange loop on the watermark is one step, at the access that ends it; the debug flag for a repeated last chunk is left out.
- BufferReferences.SegmentTable.Release: each handle operation is one step; the debug bookkeeping of owning threads is left out.
- UnpooledChunks.UnpooledChunksManager.GetUnpooledBuffer: requires an alignment that divides the control block's size and a request that fits 32 bits with it; the rolling average is a parameter; a request of zero bytes, which the memory segment's assertion refuses, is not excluded.
- UnpooledChunks.UnpooledChunksManager.GetUnpooledBuffer: without memory it returns nothing; the code goes on with a null chunk, and the lookup of that chunk throws.
- BufferPools.BufferManager.Recycle: a pool's test of its destroyed flag and its queue write are one step.
- The test that the new roots of a flipped plan are sources, and null children.
- Arenas, window operators and watermark processors, row and column layouts, the source catalog, sinks and file sources, the SQL parser, gRPC, model loading, logging and statistics: not part of this model.
