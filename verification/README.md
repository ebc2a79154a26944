# Verified model of the serving state

This project models the host-side state of an LLM inference server and proves properties of it:
the paged KV-cache ledger and its byte pool, the prefix index that decides what is reused, the
shared-prefill bookkeeping, the life cycle of HTTP clients, and the algorithms around them
(byte-pair encoding, streaming stop search, speculative depth choice, UTF-8 handling and
grammar-constrained masks).

`dafny verify dfyconfig.toml` checks everything.

How the parts fit together:

- **Byte pool** (`FreeRanges`, `BytePool`). First-fit aligned allocation over a sorted, coalesced
  free list. The free list is a canonical form of the free bytes, and counting how many equal
  requests still fit is what the ledger's promises rest on.
- **Cache ledger** (`KvLedger` to `KvCache`). `KvLedger` states every operation on batch executions
  as a function of the ledger state. `KvBooks` and `KvRecords` keep the books: reference counts,
  ownership of pool allocations, index charges. `KvInvariant` adds page tables and the room promised
  to admitted executions; `KvReclaim`, `KvAdmission` and `KvWrites` show that every operation keeps
  it. `KvContents`, `KvRuns` and `KvSafety` add page memory and prove, over all runs, that the ledger
  behaves as if every execution, pending capture and checkpoint owned its whole history. `KvAccounts`,
  `KvReports` and `KvProgress` are about conservation, self-checks, reclamation and progress.
  `KvCache` is the ledger as an object whose methods do exactly what those functions say.
- **Prefix index** (`Prompts`, `PrefixArena` to `PrefixIndex`, `PrefixRuns`). A trie of token and image
  histories in a slot arena with a free list, sibling lists, record lists and a CLOCK hand. `Rep` in
  `PrefixArena` relates the slots to the tree; the class `PrefixIndex` keeps it and answers as a
  plain map from checkpoint to history would. `PrefixLog` reads its records as a list, newest first,
  and `PrefixRuns` carries both through whole runs of operations.
- **HTTP clients** (`HttpLifecycle`). The I/O thread, the preparation workers and the owner of the
  GPU as one state machine of atomic steps, with theorems over every interleaving.
- **Shared prefill** (`PendingPrefix`), **tokenizer** (`Bpe`, `Tokenizer`), **stop search**
  (`StopMatcher`), **draft depths** (`MtpDepths`), **UTF-8** (`Utf8`, `TextDecoder`) and
  **constraints** (`Constraint`) are independent of the cache.

Classes mirror the source's objects. Each method is proved against a specification that says what
the operation achieves, and the properties below are proved of those specifications. Where an error
is thrown in the source, the model returns an outcome (`Rejected`, `None`, `ok == false`).

Results worth knowing:

- A constraint state shows exactly the tokens it would take for every matcher that allows only ordinary
  text and constraint stops, and for no others, wherever such a token could fit
  (`Constraint.MaskAgrees`, `Constraint.AgreementExact`). The compiler builds only such matchers, given
  the matcher library's own rule (`Constraint.PlainCompiled`, `Constraint.ToolsCompiled`).
- A stop matcher that has been finished can fail on later text, where the length of a stop is
  subtracted from a smaller one. It does so exactly when the first stop of the whole text begins in
  what was already shown (`StopMatchers.StopMatcher.Push`), and after any `finish`, the first or a later
  one, some text makes it do so exactly when nothing has matched and the text read so far cuts a stop off
  (`StopMatchers.StopMatcher.Finish`). A first `finish` can tell from the text it hands out
  (`StopMatchers.CutOffExact`); the least case is in `StopMatchers.CutOffExample`. With one stop that is
  whenever anything was withheld; with several it need not be (`StopMatchers.HeldYetHarmless`).
- Memory statistics are available exactly when a page is a whole number of tokens
  (`KvProgress.StatsExact`), which the pool configuration alone does not ensure
  (`KvProgress.StatsRefused`).

## Model

| member | source | states |
|---|---|---|
| FreeRanges.CanonicalUnique | src/kv_cache.cc:185-214 | the sorted coalesced free list is determined by the set of free bytes |
| FreeRanges.TakeSound | src/kv_cache.cc:110-147 | a placement is aligned, lies in free bytes, and leaves exactly the other free bytes in canonical form |
| FreeRanges.GiveSound | src/kv_cache.cc:196-214 | a release adds exactly its bytes and keeps the list canonical |
| FreeRanges.TakeThenGive | src/kv_cache.cc:110-214 | placing and giving back restores the free list exactly |
| FreeRanges.GivesCommute | src/kv_cache.cc:185-214 | releases of disjoint ranges commute |
| FreeRanges.TakeUniform | src/kv_cache.cc:110-147 | a page-sized request succeeds iff the fit count is positive, and then lowers it by exactly one |
| FreeRanges.TakeAllUniform | src/kv_cache.cc:149-183 | n equal requests all fit iff n is at most the fit count |
| FreeRanges.GiveFits | src/kv_cache.cc:185-214 | releasing bytes or merging ranges never lowers the fit count |
| BytePools.AllocateWellFormed | src/kv_cache.cc:110-147 | allocation keeps free and live ranges a partition of the pool |
| BytePools.ReleaseWellFormed | src/kv_cache.cc:185-214 | release keeps the partition |
| BytePools.LiveApart | src/kv_cache.cc:110-147 | live allocations have distinct identifiers and disjoint bytes |
| BytePools.EmptyPoolWhole | src/kv_cache.cc:185-214 | with nothing live the whole pool is one free range |
| BytePools.AllocateThenRelease | src/kv_cache.cc:110-214 | allocate then release restores the free list and the usage |
| BytePools.ReleasesCommute | src/kv_cache.cc:185-214 | the order of two releases does not matter |
| BytePools.SequenceExact | src/kv_cache.cc:149-183 | the dry run of a request sequence predicts the real calls exactly, failures included |
| BytePools.BytePool.TryAllocate | src/kv_cache.cc:110-147 | the object's allocation is the specified one; misuse and a full pool change nothing |
| BytePools.BytePool.CanAllocateSequence | src/kv_cache.cc:149-183 | the loop computes the placement of the whole sequence |
| BytePools.BytePool.Release | src/kv_cache.cc:185-214 | the object's release is the specified one, accepted iff the allocation is live |
| BytePools.BytePool.Owns | src/kv_cache.cc:220-227 | ownership is membership among the live allocations |
| PageMath.QuotientRemainder | src/kv_cache.cc:1298-1308 | page numbers and places in pages, counted up, are the quotient and the remainder |
| KvInvariant.InvInitial | src/kv_cache.cc:229-234 | an empty ledger satisfies the invariant |
| KvAdmission.MakeRoomInv | src/kv_cache.cc:489-497 | making room evicts only idle, unprotected checkpoints and ends with room or a refusal |
| KvAdmission.BeginBatchInv | src/kv_cache.cc:440-503 | batch admission keeps the invariant and cannot fail after its check |
| KvAdmission.ForkBatchInv | src/kv_cache.cc:505-555 | a fork keeps the invariant, including the copy it forces on its source |
| KvAdmission.ResizeBatchInv | src/kv_cache.cc:557-594 | shrinking always succeeds; growing succeeds iff every promise still fits |
| KvAdmission.BeginCaptureInv | src/kv_cache.cc:821-888 | a capture spends unreserved room only |
| KvAdmission.PublishInv | src/kv_cache.cc:930-998 | publication succeeds iff the buffers are those of the pending capture, and keeps the invariant |
| KvReclaim.EraseCheckpointInv | src/kv_cache.cc:1144-1167 | erasing an idle checkpoint keeps the invariant and only frees |
| KvReclaim.EvictIdleInv | src/kv_cache.cc:1044-1076 | eviction under any policy removes one idle, unprotected checkpoint |
| KvReclaim.AbortCaptureInv | src/kv_cache.cc:890-903 | aborting gives back exactly what the capture held |
| KvReclaim.ReleaseExecutionInv | src/kv_cache.cc:1094-1121 | release gives back the capture, pages, buffers and the borrow of the source |
| KvReclaim.AllocateOutsideInv | src/kv_cache.cc:1012-1020 | caller allocations never touch promised room |
| KvReclaim.ReleaseOutsideInv | src/kv_cache.cc:1086-1088 | returning a caller allocation keeps the invariant |
| KvWrites.TouchSucceeds | src/kv_cache.cc:742-780 | the page loop of an in-limit write always finds its pages and leaves them private |
| KvWrites.PrepareWriteInv | src/kv_cache.cc:692-792 | an in-limit write never exhausts a budget, and every write keeps the invariant |
| KvWrites.PrepareWriteEffect | src/kv_cache.cc:715-792 | a write changes the writer's length and table only; pages from the written position on end with one reference |
| KvContents.WriterReads | src/kv_cache.cc:715-792 | after the copies and stores the writer reads its old history and then the new rows |
| KvContents.OthersRead | src/kv_cache.cc:715-792 | every other execution and checkpoint reads what it read before |
| KvRuns.BeginRefines | src/kv_cache.cc:596-652 | an admitted execution starts with its source's history; only idle checkpoints disappear |
| KvRuns.ForkRefines | src/kv_cache.cc:505-652 | a fork starts with its source execution's history |
| KvRuns.WriteRefines | src/kv_cache.cc:692-792 | on private histories a write appends its rows to one execution, and a refused one does nothing |
| KvSafety.StepSound | src/kv_cache.cc:440-1142 | every operation keeps the invariant and acts on private histories as its event says |
| KvSafety.Reachable | src/kv_cache.cc:440-1142 | the invariant and the refinement hold after every run |
| KvSafety.ReservationSafety | src/kv_cache.cc:498-502 | after any interleaving the promised pages are allocatable, the index has room, and in-limit writes succeed |
| KvSafety.Isolation | src/kv_cache.cc:715-792 | after any interleaving each execution and checkpoint reads its own private history |
| KvAccounts.PoolConservation | src/kv_cache.cc:1215-1250 | pool usage is the sum of pages, buffers, captures, checkpoint state and caller allocations |
| KvReports.ReferenceTotal | src/kv_cache.cc:1295-1347 | all page reference counts together are the entries of all page tables |
| KvReports.SelfCheckPasses | src/kv_cache.cc:1295-1353 | the ledger's self-check passes in every reachable state |
| KvProgress.StatsExact | src/kv_cache.cc:1215-1284 | statistics are available iff a page is a whole number of tokens; nothing is unaccounted but caller allocations, and the slack is what the pages hold beyond their valid tokens |
| KvProgress.StatsRefused | src/kv_cache.cc:1260-1263 | a valid configuration whose statistics are refused on the empty ledger |
| KvProgress.ReclaimExact | src/kv_cache.cc:1215-1257 | the reclaimable bytes are what erasing all idle checkpoints frees, in any order |
| KvProgress.AdmissionProgress | src/kv_cache.cc:377-503 | an idle ledger with a willing policy admits every fresh request that passed the static check |
| KvProgress.OldestWilling | src/kv_cache.cc:1069-1075 | with no policy the ledger never declines an eviction while something is eligible |
| KvProgress.DefaultProgress | src/kv_cache.cc:377-503 | with no policy an idle ledger admits every fresh request that passed the static check |
| KvCache.CacheLedger.ReservedPages | src/kv_cache.cc:349-375 | the loop computes the pages still promised |
| KvCache.CacheLedger.BatchRequestFits | src/kv_cache.cc:377-438 | the static check is the specified one, argument errors included |
| KvCache.CacheLedger.EvictIdleCheckpoint | src/kv_cache.cc:1044-1070 | the object's eviction by a policy is the specified one |
| KvCache.CacheLedger.EvictOldestCheckpoint | src/kv_cache.cc:1044-1076 | with no policy the oldest idle unprotected checkpoint is erased, and nothing changes iff there is none |
| KvCache.CacheLedger.TryBeginBatch | src/kv_cache.cc:440-503 | the object's admission is the specified one and keeps the invariant |
| KvCache.CacheLedger.TryForkBatch | src/kv_cache.cc:505-555 | the object's fork is the specified one and keeps the invariant |
| KvCache.CacheLedger.TryResizeBatch | src/kv_cache.cc:557-594 | the object's resize is the specified one, and restores the limit on refusal |
| KvCache.CacheLedger.BeginExecution | src/kv_cache.cc:596-652 | with room proven, both buffers are granted and the record is created |
| KvCache.CacheLedger.PrepareWrite | src/kv_cache.cc:692-792 | the object's write is the specified one and is never out of budget |
| KvCache.CacheLedger.TryBeginCapture | src/kv_cache.cc:821-888 | the object's capture is the specified one |
| KvCache.CacheLedger.AbortCapture | src/kv_cache.cc:890-903 | the object's abort is the specified one |
| KvCache.CacheLedger.PublishCheckpoint | src/kv_cache.cc:930-998 | the object's publication is the specified one |
| KvCache.CacheLedger.ReleaseExecution | src/kv_cache.cc:1094-1121 | the object's release is the specified one |
| KvCache.CacheLedger.ReleaseCheckpoint | src/kv_cache.cc:1123-1126 | a borrowed or pinned checkpoint is refused, any other erased |
| KvCache.CacheLedger.TryAllocateGpu | src/kv_cache.cc:1012-1020 | refused while executions exist, else a pool allocation owned by the caller |
| KvCache.CacheLedger.ReleaseGpu | src/kv_cache.cc:1086-1088 | gives back an allocation the caller owns and nothing else |
| KvCache.CacheLedger.PinCheckpoint | src/kv_cache.cc:1128-1134 | one more pin on a known checkpoint |
| KvCache.CacheLedger.UnpinCheckpoint | src/kv_cache.cc:1136-1143 | one pin fewer, refused where there is none |
| KvCache.CacheLedger.CheckInvariants | src/kv_cache.cc:1295-1353 | the self-check accepts exactly the states with sound pages, tables and counts, so every valid one |
| KvCache.CacheLedger.GpuMemoryStats | src/kv_cache.cc:1215-1284 | the counting loops compute the specified statistics, page slack included |
| Prompts.SafeBoundary | src/pending_prefix.cc:31-40 | the largest position at or before the given one that splits no image |
| Prompts.CommonTokens | src/pending_prefix.cc:42-74 | the longest history both prompts share at a token that splits no image of either |
| Prompts.BoundaryAgrees | src/pending_prefix.cc:73 | rounding back for one prompt never needs further rounding for the other |
| PendingPrefix.Work.Create | src/pending_prefix.cc:76-89 | arguments are accepted iff the prompt, images and cursor are sound |
| PendingPrefix.Work.JoinWork | src/pending_prefix.cc:91-108 | a request joins iff it shares a path no dispatched work has passed; its fork is the longest shared history |
| PendingPrefix.Work.RestorePrefix | src/pending_prefix.cc:120-127 | a restore is accepted iff fresh, idle, safe and before every fork |
| PendingPrefix.Work.NextStep | src/pending_prefix.cc:141-156 | a step starts at the cursor, is bounded text or one whole image, and never passes a fork; the last guard cannot fire |
| PendingPrefix.Work.BeginStep | src/pending_prefix.cc:158-162 | dispatching keeps every dependent ahead of the work |
| PendingPrefix.Work.CompleteStep | src/pending_prefix.cc:164-169 | completion commits the dispatched end or marks failure |
| PendingPrefix.Work.Detach | src/pending_prefix.cc:112-118 | removes exactly the named dependent |
| PendingPrefix.Drive | src/runtime/scheduler.cc:560-640 | whatever joins, cancellations and failed steps happen between and during the steps: the committed steps tile the prompt, every request is branched off on a step edge, cancelled, or lost to a failure, and the effective turns are bounded |
| PendingPrefix.TakeTurn | src/runtime/scheduler.cc:560-640 | each turn of the scheduler that finds something to do lowers the weight of what is left |
| PrefixArena.PathsAgree | src/prefix_index.cc:545-574 | two histories agree up to a length iff their trie paths do |
| PrefixArena.AddNode | src/prefix_index.cc:588-621 | a new node keeps the arena sound |
| PrefixRecords.AddRecord | src/prefix_index.cc:623-655 | a new record keeps the arena sound and heads its lists |
| PrefixRecords.EraseRecordRep | src/prefix_index.cc:723-757 | unlinking a record keeps the arena sound but for its node |
| PrefixPrune.PruneNode | src/prefix_index.cc:759-793 | removing an empty node keeps the arena sound but for its parent |
| PrefixLookups.NodesAreHistories | src/prefix_index.cc:96-106 | the trie's nodes are the root and exactly the prefixes of retained histories |
| PrefixLookups.LongestIsMaximum | src/prefix_index.cc:229-267 | the reported length is the maximum common length over all retained histories |
| PrefixLookups.CandidateIsMatch | src/prefix_index.cc:229-267 | the records considered are exactly the usable full matches |
| PrefixIndexes.PrefixIndex.Create | src/prefix_index.cc:104-136 | an index exists iff the budget holds at least one slot and no more than can be named, and is then empty and sound |
| PrefixIndexes.PrefixIndex.FindChild | src/prefix_index.cc:545-559 | finds the child with this token and image iff there is one |
| PrefixIndexes.PrefixIndex.FindRecord | src/prefix_index.cc:575-586 | finds the record of a checkpoint iff it is retained |
| PrefixIndexes.PrefixIndex.FindLongest | src/prefix_index.cc:229-267 | a lookup equals the search of a plain map: maximum shared length, deepest usable full match, first in the log among equals |
| PrefixIndexes.PrefixIndex.GrowPath | src/prefix_index.cc:216-219 | the rest of a path is allocated with exactly the slots counted beforehand |
| PrefixIndexes.PrefixIndex.HasRoom | src/prefix_index.cc:862-868 | the byte check passes iff that many slots are free |
| PrefixIndexes.PrefixIndex.Admit | src/prefix_index.cc:140-227 | every outcome of an admission: the map and the log of records after it, the order it takes, what is thinned, exactly when it is protected; an idle path keeps at most eight periodic checkpoints |
| PrefixLog.LogDescends | src/prefix_index.cc:623-655 | the log is in order of admission, newest first, each checkpoint once |
| PrefixRuns.OrderIsRecency | src/prefix_index.cc:229-267 | after any run the list of checkpoints is in order of their last admission |
| PrefixRuns.Run | src/prefix_index.cc:140-227 | any sequence of operations leaves what the plain map and list of its events say |
| PrefixRuns.Serve | src/prefix_index.cc:229-267 | over every run on a fresh index a lookup reports the maximum shared length and the deepest usable full match, of equals the one admitted last |
| PrefixIndexes.PrefixIndex.ThinPeriodicFromNode | src/prefix_index.cc:800-860 | at most one record is thinned, the first eligible one in alternating order, never the newest |
| PrefixIndexes.PrefixIndex.Remove | src/prefix_index.cc:471-478 | exactly one history is forgotten and no slot that served only it stays taken |
| PrefixIndexes.PrefixIndex.MarkUsed | src/prefix_index.cc:269-282 | a use promotes its record and touches no other |
| PrefixIndexes.PrefixIndex.SetPriority | src/prefix_index.cc:284-296 | only the priority of the named record changes |
| PrefixIndexes.PrefixIndex.NextClockRecord | src/prefix_index.cc:709-721 | the hand moves to the next record, cyclically, and never dangles |
| PrefixIndexes.PrefixIndex.RebalanceReused | src/prefix_index.cc:402-469 | rebalancing never ends farther from three quarters than it began |
| PrefixIndexes.PrefixIndex.DemoteNext | src/prefix_index.cc:440-467 | no single demotion moves the reused bytes farther from the target |
| PrefixIndexes.PrefixIndex.SelectClockVictim | src/prefix_index.cc:309-349 | nothing iff nothing is eligible, else lowest priority, probationary first; ineligible records untouched; linear scan |
| Bpe.BestUnique | src/tokenizer.cc:183-188 | the lowest-rank leftmost pair is unique |
| Bpe.NaiveDone | src/tokenizer.cc:194-207 | repeated merging ends with no mergeable pair |
| Bpe.NaiveText | src/tokenizer.cc:117-122 | merging preserves the concatenated pieces |
| Bpe.FreshIsBest | src/tokenizer.cc:194-199 | the first candidate of the queue, when not stale, is the best pair |
| Bpe.MergeAll | src/tokenizer.cc:160-210 | the queue-driven loop equals naive merging, with at most three pops per possible merge |
| Tokenizers.EncodeSpan | src/tokenizer.cc:157-210 | a span becomes its symbols, merged naively, or an error on invalid UTF-8 |
| Tokenizers.SpanFaithful | src/tokenizer.cc:157-210 | a span encodes iff valid; its tokens spell the normalised text |
| Tokenizers.EncodingSplits | src/tokenizer.cc:132-151 | the first added token, longest at its place, splits the text and nothing merges across it |
| Tokenizers.Encode | src/tokenizer.cc:127-155 | the scanning loop computes that encoding |
| StopMatchers.BuildTable | src/stop_matcher.cc:13-18 | the failure table holds the longest proper borders |
| StopMatchers.Advance | src/stop_matcher.cc:24-28 | the state is the longest prefix of the pattern that ends the text |
| StopMatchers.AdvanceAll | src/stop_matcher.cc:37-50 | a hit is the first match in request order; otherwise the retained length is the longest possible start |
| StopMatchers.StopMatcher.Push | src/stop_matcher.cc:30-57 | after any chunks the output is what may be shown of the whole text; after a finish it fails exactly when the first stop begins in what was shown |
| StopMatchers.StopMatcher.Finish | src/stop_matcher.cc:59-63 | at any finish, the first or a later one, the total output is the text before the earliest-ending match, or all of it; some later push fails iff nothing has matched and the text read so far cuts a stop off |
| StopMatchers.CutOffExact | src/stop_matcher.cc:38-40 | after handing out the withheld text, some continuation completes a stop begun in it, before any other, iff a stop is cut off |
| StopMatchers.OneStopCutOff | src/stop_matcher.cc:38-40 | with one stop that is whenever anything was withheld |
| StopMatchers.CutOffExample | src/stop_matcher.cc:38-40 | the least failing case: stop `ab`, text `a`, a finish, then `b` |
| StopMatchers.HeldYetHarmless | src/stop_matcher.cc:38-40 | with several stops withheld text need not cut one off |
| StopMatchers.StopMatcher.WouldMatch | src/stop_matcher.cc:65-72 | the prediction equals what a push would find |
| StopMatchers.ShownUnique | src/stop_matcher.cc:30-57 | the shown text depends on the whole text only, not on chunking |
| MtpDepths.Allocate | src/runtime/mtp_head.cc:9-52 | the loop computes the greedy choice |
| MtpDepths.GreedyUnique | src/runtime/mtp_head.cc:14-20 | bounds, threshold, width and tie order determine the choice |
| MtpDepths.GreedyOptimal | src/runtime/mtp_head.cc:40-50 | no feasible depths have a larger total survival |
| MtpDepths.CapSame | src/runtime/mtp_head.cc:79-81 | a cap that cuts off nothing drafted leaves the allocation unchanged |
| MtpDepths.ChooseMtpDepths | src/runtime/mtp_head.cc:55-91 | the allocation at the largest cap that meets the tail occupancy, else at the least cap; bad input rejected |
| Utf8.OctetsEncode | src/text/utf8.h:8-44 | every scalar's encoding satisfies the grammar and reads back as the scalar |
| Utf8.OctetsDecode | src/text/utf8.h:8-44 | every character of the grammar is the encoding of the scalar read from it |
| Utf8.ReadScalar | src/text/utf8.h:11-44 | a read succeeds iff the text continues with the encoding of a scalar, which it returns |
| Utf8.CharacterBytes | src/tokenizer.cc:25-39 | the tokenizer's check accepts the same characters |
| Utf8.Automaton.Accept | src/json_constraint.cc:211-235 | the byte automaton steps as specified |
| Utf8.AutomatonAgrees | src/json_constraint.cc:211-235 | the automaton ends idle exactly on valid text |
| Utf8.AutomatonAlive | src/json_constraint.cc:211-235 | the automaton is alive iff some continuation makes the text valid |
| TextDecoder.IncrementalTotal | src/chat_codec.cc:35-75 | pushed output and final flush equal decoding each maximal byte run at once |
| TextDecoder.IncrementalTextDecoder.Push | src/chat_codec.cc:40-53 | one push buffers a byte or flushes and appends a piece |
| TextDecoder.IncrementalTextDecoder.Finish | src/chat_codec.cc:55-71 | a run is kept verbatim iff valid, else one replacement per byte |
| TextDecoder.IncrementalTextDecoder.Pending | src/chat_codec.cc:73-80 | the pending text is what a flush would keep, or nothing |
| Constraint.MaskAgrees | src/json_constraint.cc:497-532 | under a matcher that keeps to the inventory the mask shows a token iff it would be accepted |
| Constraint.AgreementExact | src/json_constraint.cc:497-532 | mask and acceptance agree in every state iff the matcher keeps to the inventory wherever a token fits |
| Constraint.PlainCompiled | src/json_constraint.cc:340-362 | compiled schema grammars keep to the inventory, by the matcher library's rule on texts and stops |
| Constraint.ToolsCompiled | src/json_constraint.cc:458-480 | so do tool grammars, whose boundary tokens get a placeholder text and an ordinary bit |
| Constraint.Intersect | src/json_constraint.cc:237-251 | the intersection keeps exactly the tokens the automaton can continue with |
| Constraint.State.FillMask | src/json_constraint.cc:497-511 | a token's bit is set iff accept would take it, and masking fails only when terminated or when the matcher fails |
| Constraint.State.Accept | src/json_constraint.cc:513-532 | accepting steps phase, matcher and automaton together, and a refusal changes nothing |
| Constraint.State.BlockMasks | src/json_constraint.cc:549-574 | each row holds exactly the tokens accepted after that many drafts, or all ones; the committed state is restored, also on failure |
| HttpLifecycle.ActConsistent | src/http_server.cc:256-293 | every step of the I/O thread, a worker or the owner keeps a client's flags consistent and only extends its history |
| HttpLifecycle.ReadyStays | src/http_server.cc:851-875 | no step of the I/O thread or a worker takes a granted reservation from a living client |
| HttpLifecycle.ReadyThenAnythingThenEmit | src/http_server.cc:851-875 | after a true `ready` and any run of other steps, `emit` is recorded, or the client is gone and nothing changes |
| HttpLifecycle.SlotTurns | src/http_server.cc:613-706 | a burst taken, pushed and, when streamed, written out makes `ready` true again, with exactly that burst handed over |
| HttpLifecycle.FairRunFrees | src/http_server.cc:613-706 | in every run from a reachable state, four steps in which the I/O thread writes a client's output out or processes it with none waiting free a full slot, or the client has ended |
| HttpLifecycle.ActRank | src/http_server.cc:613-706 | no step of any party puts the emptying of a full slot off, and each such step brings it nearer |
| HttpLifecycle.DoGood | src/http_server.cc:743-790 | every step of the server keeps clients, queues, notice counts and byte account in agreement |
| HttpLifecycle.EveryRun | src/http_server.cc:386-392 | in every run each client meets the promises, and body bytes are the sum of the charges and with media leases stay within the total, so the guard's subtraction never wraps |
| HttpLifecycle.GoodPromised | src/http_server.cc:263-293 | at most one completion or cancellation, exactly one once an admitted client is gone; a completion only after every burst and the result reached the output |
| HttpLifecycle.RunGrows | src/http_server.cc:613-682 | over a run no accepted or delivered burst is taken back and no end is undone |
| HttpLifecycle.AccountCharged | src/http_server.cc:545-550 | the byte account follows each client's own charge at every step |
| HttpLifecycle.AccountRaised | src/http_server.cc:273-279 | a step queues a client exactly when it raises the flag for that queue, once |
| HttpLifecycle.TimesDelivered | src/http_server.cc:798-849 | handing a queue over loses no end notice and invents nothing |

## Left out

- Serial executions: the serial form of `prepare_write` may evict the owner of a page already listed as a copy source, so its isolation and rollback are not modelled; `begin_execution`, `publish_checkpoint` with payload bytes and `allocate_gpu_releasing_idle` belong to it.
- Rollback after a failed self-check or allocation inside batch operations: those branches are shown unreachable and are not modelled.
- Size overflow and record sizes: sizes are unbounded with the pool capacity bounded below the largest size, and positive constants stand for the sizes of the bookkeeping records. Identifier overflow is not modelled.
- Records searched by unique identifier are maps; the order of the record vectors matters only for the default eviction choice, which is the lowest identifier.
- Eviction callbacks are pure choices that do not re-enter the ledger; removal notifications are not modelled.
- The CPU tier of the pool, and the page contents of local rings, snapshots and hidden state.
- KvAdmission.PublishInv: publication by a batch capture only; the serial one without a pending capture is left out with serial executions.
- KvSafety.StepSound: batch operations only, for the same reason.
- KvSafety.Reachable: runs hold batch operations only, for the same reason.
- PrefixIndexes.PrefixIndex.Admit: the eight-per-path bound is a contract of one admission whose path starts with at most eight, because a shallower admission or a demotion can add to deeper paths.
- Redundant-victim selection, nearest ancestors and statistics of the prefix index; reuse-count, order and token-count overflow.
- PrefixRuns.Serve: the queries after a run are lookups; metadata and statistics queries are not among the operations.
- Tokenizers.EncodeSpan: loading and validating the tokenizer file is a precondition (`Loaded`), and the file's format is not modelled.
- MtpDepths.ChooseMtpDepths: exact reals, so rounding of the tail fraction and non-finite inputs are not modelled.
- MtpDepths.Allocate: probabilities are exact reals, so rounding of the tail fraction and non-finite inputs are not modelled.
- Constraint.State.FillMask: masks are bit sequences rather than packed words, and the grammar matcher is the history of accepted tokens with an arbitrary verdict inside the inventory.
- Constraint.PlainCompiled: that the matcher library allows a token only by its text or as a stop is taken from the library, whose source is not part of this model.
- HttpLifecycle.SlotTurns: one uninterrupted schedule of taking, pushing and writing; for every interleaving the freeing of a full slot is what `FairRunFrees` states.
- HttpLifecycle.FairRunFrees: that the operating system lets the I/O thread write and run is what the useful steps stand for.
- HttpLifecycle.ReadyThenAnythingThenEmit: for requests without logprobs, because a disconnection clears the request before it takes the lock; the burst size limit is the caller's.
- HttpLifecycle.DoGood: each stretch of code between lock operations is one atomic step on values, because the claims are about interleavings; update in place and memory order are not captured.
- HttpLifecycle.EveryRun: until shutdown. Sockets, timeouts, response text and the connection limit are not modelled; the outcome of parsing, of the output encoder and of each write is arbitrary.
- The chat router above the text decoder, request validation, JSON parsing, metrics, device kernels and copies.
