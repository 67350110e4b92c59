# Knowledge-base service: models and proofs

A Dafny model of the algorithms and protocols inside a knowledge-base service, with proofs of what
they promise. `dafny verify dfyconfig.toml` checks everything.

One file per component:

- `LineDiff.dfy` - the line diff: a flat LCS table filled in place and walked back; shortest edit scripts.
- `SseParser.dfy` - the incremental server-sent-events reader with its held-back CR (WHATWG HTML section 9.2.6).
- `PayloadScan.dfy` - the search for sensitivity-shaped keys in a possibly cyclic object graph.
- `JobQueue.dfy` - the leased job queue as a step relation over tables, clock and audit log, and the store's methods.
- `WorkerLoop.dfy` - the worker's poll loop, dispatch and shutdown on top of that queue.
- `AgentChat.dfy` - the admin chat reducer and the order of its wire transcript.
- `StreamTranslator.dfy` - the vendor stream, gathered per block index and translated.
- `Chunker.dfy` - range merging, boundary search, the cutting loop and the trailing merge, over any token offsets.
- `Pagination.dfy` - keyset pages over a table, fixed or changing between pages, with cursors cut to milliseconds.
- `RankFusion.dfy` - reciprocal rank fusion over the reals.
- `Citations.dfy` - the citation check on a synthesized answer, its regular expressions spelled out.
- `Pipeline.dfy` - the retrieval pipeline over arbitrary provider outcomes, and the client's reducer.
- `VersionedStore.dfy` - `createEntry` and `updateEntry` as interleaved transactions with row locks.
- `TagOps.dfy` - bulk rename, delete and merge of tags, with failures and concurrent edits.
- `Options.dfy` - the type of values that may be absent.
- `JsText.dfy` - the few JavaScript string operations several files share.

How the parts are modelled. Code that loops or updates is a method or a class method, proved equal to a
specification function or against a stated property; the theorems are lemmas about those functions. Foreign
calls are parameters: a parser, a scrubber, an embedder, a database fault, what other connections do
between two statements. Concurrency is a step relation over whole-system states, and a theorem about
"every run" quantifies over all sequences of enabled steps. Strings are sequences of Unicode scalar values.

Where code and documentation differ, the model follows the code:

- `api/worker.py:70-102` is documented to mark a job in flight as failed on shutdown. The loop clears the
  current job before shutdown runs (`api/worker.py:159-174`), so it never finds one: `PollLoop` proves that.
- `lib/chunk.ts:308` floors a boundary to a token edge and `lib/chunk.ts:309-315` moves one token on when that
  is no progress, so "never split inside a range" fails for some documents. Over all policies, size 0 included,
  it holds exactly when every range with a token edge inside starts and ends on one: `NeverSplitsIff`. Over the
  policies of size 1 or more, a range may also start within a token, as long as it ends on an edge and no search
  falls back into its first token: `NeverSplitsFromSizeOneIff`. `AlignedEndIsNotEnough` is a document that fails.
- `lib/agent-chat-state.ts:376-402` does not flush results when a tool turn ends, so the transcript order
  depends on the stream rule stated at `lib/agent-chat-state.ts:17-27`: `ReachedToolUseDoneIsSafeIff` is the exact
  condition and `LateResultBreaksOrder` a transcript that breaks it.
- `lib/entries.ts:269-371` means to show each entry once, but its cursor passes through a JavaScript Date and
  loses the microseconds that `updated_at` has: every write stamps it with SQL `now()`
  (`drizzle/migrations/0000_baseline.sql:44`, `drizzle/migrations/0001_updated_at_triggers.sql:15-25`). Entries of one
  transaction share one `now()`: after a tag merge of 26 entries at a time off a whole millisecond, a page of 25 of
  them leaves the last one out for good (`SkippedForGood`, `SameInstantIsSkipped`). `NewestFirstShowsAllIff` is the
  exact condition. The comment at `lib/entries.ts:536-547` finds the stalest-first list safe, since the application
  writes `last_verified_at` in whole milliseconds; a row written otherwise comes back instead, and a walk may never
  end (`StalestFirstShowsAllIff`, `StalestFirstEndsIff`, `NeverRepeatsIff`).
- `lib/text-diff.ts:61-66` treats an empty side apart, and a pair beyond the size cap yields no chunks, so
  the script replays both texts exactly on `Diffable` pairs: `DiffLines`.

## Model

| member | source | states |
|---|---|---|
| `LineDiff.SplitLines` | lib/text-diff.ts:82-84 | splitting always yields at least one line |
| `LineDiff.JoinSplitRoundTrip` | lib/text-diff.ts:82-84 | joining the lines of a text without CRLF rebuilds the text |
| `LineDiff.LcsMatrix` | lib/text-diff.ts:86-105 | every cell of the flat table holds the LCS length of its two prefixes |
| `LineDiff.CommonSubsequenceAtMostLcs` | lib/text-diff.ts:86-105 | that number really is the maximum: no common subsequence of the prefixes is longer |
| `LineDiff.Backtrack` | lib/text-diff.ts:107-127 | the walk back from the last cell, reversed in place, is the recursively defined script |
| `LineDiff.PathReplays` | lib/text-diff.ts:107-127 | dropping additions replays the old lines, dropping removals the new ones, and the context lines number the LCS length |
| `LineDiff.PathListsRemovalsFirst` | lib/text-diff.ts:107-127 | within a change, removals precede additions |
| `LineDiff.ScriptKeepsAtMostLcs` | lib/text-diff.ts:107-127 | any script with the same two sides keeps at most that many lines |
| `LineDiff.PathIsShortest` | lib/text-diff.ts:107-127 | no script turning one text into the other has fewer edits |
| `LineDiff.ContextsAreLongestCommonSubsequence` | lib/text-diff.ts:107-127 | the kept lines are a common subsequence no other one exceeds |
| `LineDiff.DiffLines` | lib/text-diff.ts:50-74 | the result replays both texts if and only if they are within the cap and neither is the lone empty line (or they are equal), and then it is shortest; what the fast paths and the cap return |
| `SseParser.Parser.FlushEvent` | lib/sse-parse.ts:73-90 | closes the open event as an empty line of the standard does |
| `SseParser.Parser.Read` | lib/sse-parse.ts:93-129 | one chunk leaves exactly the state of consuming buffer plus chunk, with no complete line left behind |
| `SseParser.NextLineEnd` | lib/sse-parse.ts:146-152 | the first terminator at or after a position, or -1 |
| `SseParser.ScanFindsFirstLine` | lib/sse-parse.ts:93-129 | the scan with a held-back CR cuts the first line of the whole buffer and skips CR, LF or CRLF as one terminator |
| `SseParser.ConsumeInTwoParts` | lib/sse-parse.ts:66-139 | reading a text in two parts is reading it at once, up to the first error |
| `SseParser.IterateEvents` | lib/sse-parse.ts:66-139 | events and first error depend on the concatenated text only, however it was cut into chunks |
| `SseParser.PrintedFramesReadBack` | lib/sse-parse.ts:66-152 | printed data frames and comments, cut anywhere, read back as exactly their payloads in order |
| `SseParser.GoodPayloadsAllDelivered` | lib/sse-parse.ts:73-90 | when every payload parses, all events come back and nothing else |
| `PayloadScan.FindSensitivityKey` | lib/jobs.ts:51-72 | null if and only if no path in the graph ends in a sensitivity-shaped key; otherwise a real path to one; terminates on cycles |
| `PayloadScan.Scan.Find` | lib/jobs.ts:51-72 | the recursive search with its growing set of visited nodes: what it leaves behind is clear |
| `PayloadScan.ClearGraphHasNoOffence` | lib/jobs.ts:51-72 | once everything visited is clear, no path of any length offends |
| `JobQueue.StepKeepsInv` | api/jobs.py:96-400 | every transaction keeps: locked iff in progress, attempts within the budget, dead iff used up, failed and dead audit rows count the attempts |
| `JobQueue.RunKeepsInv` | api/jobs.py:96-400 | so does every interleaving of workers, producers, pruning and clock |
| `JobQueue.DispatchesAreConserved` | api/jobs.py:96-400 | on every run, dispatches not accounted for by an end or a running job are exactly the reclaims |
| `JobQueue.RunAccount` | api/jobs.py:96-400 | from the empty queue: dispatched = failed + dead + done + reclaims + running, and dispatches stay within budget plus reclaims |
| `JobQueue.DispatchEndsOnce` | api/jobs.py:96-400 | between a claim and the next claim of the same job, one audit row ends the dispatch once it no longer runs, and none while it does |
| `JobQueue.LeaseHolds` | api/jobs.py:96-117 | until its lock expires a worker that has not marked its job keeps the row unchanged |
| `JobQueue.StaleMarksDoNothing` | api/jobs.py:195-264 | after losing a job, no later mark by the old owner changes jobs or audit log |
| `JobQueue.TerminalRowsAreFinal` | api/jobs.py:319-382 | done and dead rows never change; only done rows ever go away |
| `JobQueue.PrunedStaysGone` | scripts/cleanup-jobs.mjs:30-42 | a pruned job never comes back |
| `JobQueue.ClaimableIff` | api/jobs.py:96-117 | a row is claimable exactly when it is not final, is due, and no live lock holds it |
| `JobQueue.NothingGetsStuck` | api/jobs.py:96-117 | any unfinished job becomes claimable once the clock passes its lock and schedule |
| `JobQueue.JobStore.ClaimOne` | api/jobs.py:120-192 | takes an earliest due claimable unlocked row, or nothing exactly when there is none |
| `JobQueue.JobStore.Done` | api/jobs.py:195-264 | the ownership-guarded transition with its audit row |
| `JobQueue.JobStore.Failed` | api/jobs.py:267-400 | attempt counting, requeue or dead-letter, one audit row, all guarded by ownership |
| `JobQueue.JobStore.Enqueue` | lib/jobs.ts:162-260 | amid concurrent transactions: refused iff the payload offends or else the key length is wrong; otherwise exactly one insert under a free key, or the row that holds the key; contention only when the key is free |
| `WorkerLoop.Worker.PollLoop` | api/worker.py:128-174 | whatever handlers do, the loop is a valid run of the queue, finalises no dispatch twice, never keeps a job current at its end, and its shutdown marks nothing |
| `WorkerLoop.Worker.Dispatch` | api/worker.py:177-221 | at most one mark of a dispatch takes effect; an unknown queue leaves the worker without the job |
| `WorkerLoop.Worker.HandleShutdown` | api/worker.py:70-102 | marks the current job failed if and only if there is one |
| `WorkerLoop.NoClaimNoOwnership` | api/jobs.py:96-117 | a worker that claims nothing never comes to own a job it does not own |
| `AgentChat.HarvestQueuesUses` | lib/agent-chat-state.ts:372-402 | the expected map queues each tool's use ids in block order |
| `AgentChat.StepKeepsGood` | lib/agent-chat-state.ts:111-473 | every user action and stream event keeps the transcript ordered and the pending results matched, unless a turn is promoted past pending results |
| `AgentChat.StepOnlyAppends` | lib/agent-chat-state.ts:111-473 | no step rewrites what is already on the wire |
| `AgentChat.RunStaysOrdered` | lib/agent-chat-state.ts:111-473 | so does every run that never promotes past pending results; per tool named by the result events, results answer its uses in the order asked |
| `AgentChat.ConversationStaysOrdered` | lib/agent-chat-state.ts:17-27 | the documented stream rule keeps every transcript of a fresh conversation well ordered |
| `AgentChat.ConversationAnswersInOrder` | lib/agent-chat-state.ts:17-27 | with fresh ids as well: no two results of the whole conversation answer the same use, and behind each assistant turn, for each tool its events name, first asked first answered |
| `AgentChat.ToolUseDoneIsSafeIff` | lib/agent-chat-state.ts:376-402 | a tool turn ending is harmless for the next turn exactly when not both buffers hold something |
| `AgentChat.ReachedToolUseDoneIsSafeIff` | lib/agent-chat-state.ts:376-402 | the same condition, for every state an ordered conversation with fresh ids reaches |
| `AgentChat.LateResultBreaksOrder` | lib/agent-chat-state.ts:376-402 | a concrete late result that lands behind the wrong turn |
| `AgentChat.ResultAnswersOldestOfItsTool` | lib/agent-chat-state.ts:324-370 | a result takes the id of the oldest unanswered use of its own tool |
| `AgentChat.AnsweredAtMostOnce` | lib/agent-chat-state.ts:324-370 | in an ordered transcript no use is answered twice |
| `AgentChat.StepShowsTheText` | lib/agent-chat-state.ts:268-302 | the display shows exactly the streamed text, in order |
| `StreamTranslator.HandleEvent` | lib/agents-anthropic.ts:154-248 | one raw event against the buffers: what is yielded, what is buffered, when it throws |
| `StreamTranslator.StreamFromAnthropic` | lib/agents-anthropic.ts:154-248 | the output is what the history of each index demands, up to the stop, the end of the stream or the first error |
| `StreamTranslator.ToolBlockYieldsItsInput` | lib/agents-anthropic.ts:154-248 | a closed tool block yields one event whose input is parsed from the concatenation of its own fragments |
| `StreamTranslator.InterleavingIsInvisible` | lib/agents-anthropic.ts:154-248 | events of other indices never change what a block has gathered |
| `StreamTranslator.ToolBlocksAreConserved` | lib/agents-anthropic.ts:154-248 | blocks started = tool events + blocks open + blocks replaced while open |
| `StreamTranslator.NothingTerminalBeforeStop` | lib/agents-anthropic.ts:154-248 | no done and no error before message_stop |
| `StreamTranslator.DoneComesLastOnce` | lib/agents-anthropic.ts:154-275 | one done, last, with the translated stop reason, preceded by an error iff some tool block is open |
| `Chunker.TokenIndexAtCharOffset` | lib/chunk.ts:81-94 | the binary search finds the last token beginning at or before the character |
| `Chunker.MergeRanges` | lib/chunk.ts:162-177 | sorted, non-overlapping ranges with the same union and the same places strictly inside; touching ranges stay apart |
| `Chunker.FindBoundary` | lib/chunk.ts:204-248 | the boundary search is the specification function |
| `Chunker.BestBreakIsBest` | lib/chunk.ts:204-248 | it takes the best-ranked legal break of the window, and of those the nearest to the target |
| `Chunker.BoundaryIsLegal` | lib/chunk.ts:204-248 | a boundary is never strictly inside a forbidden range |
| `Chunker.BoundaryPlace` | lib/chunk.ts:204-248 | it is the end of a range when the target is forbidden, else in the window |
| `Chunker.Chunk` | lib/chunk.ts:259-363 | the whole call returns the specified slices, numbered, for some merge of the found ranges |
| `Chunker.CutOne` | lib/chunk.ts:289-333 | one pass: slice, flooring, progress guard, and the overlap start |
| `Chunker.MergeTrailing` | lib/chunk.ts:335-352 | a short last chunk is folded into its predecessor, as specified |
| `Chunker.ChunksRebuildBody` | lib/chunk.ts:259-363 | for any offsets, size and overlap: non-empty chunks, strictly increasing starts from 0, no gaps, last end at the body's end, and stitching them gives the body |
| `Chunker.ChunksNeverSplitSafe` | lib/chunk.ts:306-325 | no chunk of a policy ends inside a range that ends on a token edge and starts on one, or whose first token no search of that size falls back into; flooring, guard and trailing merge included |
| `Chunker.ChunksNeverSplitAligned` | lib/chunk.ts:306-325 | no chunk of any policy ends inside a token-aligned range |
| `Chunker.RangeNeverSplitIff` | lib/chunk.ts:306-325 | for one range, over all policies from size 0 or from size 1 on: never split if and only if safe at every such size |
| `Chunker.NeverSplitsIff` | lib/chunk.ts:306-325 | no policy ever splits a range if and only if all ranges are token-aligned |
| `Chunker.NeverSplitsFromSizeOneIff` | lib/chunk.ts:306-325 | no policy of size 1 or more ever splits a range if and only if all ranges are safe at all those sizes |
| `Chunker.UnalignedEndIsSplit` | lib/chunk.ts:306-325 | a policy that splits a given range that ends within a token |
| `Chunker.UnalignedStartIsSplit` | lib/chunk.ts:306-325 | a policy of the given size that splits a range in whose first token a search of that size falls back |
| `Chunker.AlignedEndIsNotEnough` | lib/chunk.ts:306-325 | a document, a range ending on an edge, and a policy of positive size that splits it |
| `Chunker.ChunkCounts` | lib/chunk.ts:289-352 | token counts equal index differences and stay within the size (a merged tail within size + minTrailing - 1); neighbours share exactly the overlap when there is room |
| `Pagination.ClampLimit` | lib/entries.ts:269-371 | a page limit between 1 and the maximum, whatever the caller asked |
| `Pagination.ListEntriesForAdmin` | lib/entries.ts:269-371 | the page of the matching rows the role may see, newest first |
| `Pagination.ListStaleEntries` | lib/entries.ts:549-606 | the page of rows not verified lately, stalest first |
| `Pagination.ListPage` | lib/entries.ts:514-606 | one row of peek-ahead; the cursor is the key of the last row shown, its time cut to milliseconds |
| `Pagination.ListingIsUnique` | lib/entries.ts:269-371 | sort key and id admit only one order |
| `Pagination.PageSplitsRest` | lib/entries.ts:355-370 | a page and what lies behind its last row are together what lay past the cursor; the next cursor is that row's key, cut |
| `Pagination.WalkShowsAllIff` | lib/entries.ts:269-371 | page size by page size: following the cursors ends after each row once, in order, if and only if cutting the key leaves the same rows behind each row that ends a full page with more to come |
| `Pagination.ListingShowsAllIff` | lib/entries.ts:269-371 | for every page size at once: if and only if cutting does no harm at any row but the last |
| `Pagination.NewestFirstShowsAllIff` | lib/entries.ts:269-371 | newest first: if and only if every row behind another is also behind that one's cut key |
| `Pagination.StalestFirstShowsAllIff` | lib/entries.ts:549-606 | stalest first: if and only if each row with another behind it is on a whole millisecond |
| `Pagination.SkippedForGood` | lib/entries.ts:269-371 | newest first, a row behind the last one shown yet later than that one's cut time is on no later page |
| `Pagination.SameInstantIsSkipped` | drizzle/migrations/0001_updated_at_triggers.sql:15-25 | rows of one transaction, more than a page holds, off a whole millisecond: a list of them ends after showing one page, and the rest never |
| `Pagination.NewestFirstEnds` | lib/entries.ts:269-371 | newest first, following the cursors always ends |
| `Pagination.StalestFirstEndsIff` | lib/entries.ts:536-547 | stalest first in pages of one, it ends if and only if each row with another behind it is on a whole millisecond |
| `Pagination.StalestFirstNeverEnds` | lib/entries.ts:536-547 | such a row that is off a whole millisecond is never passed in pages of one |
| `Pagination.WalkShowsAll` | lib/entries.ts:269-371 | under the condition of `WalkShowsAllIff`: each row exactly once, in order, on full pages, and how many |
| `Pagination.WholeMsCutsCleanly` | lib/entries.ts:536-547 | that condition holds when all rows are on whole milliseconds |
| `Pagination.PageHolds` | lib/entries.ts:269-371 | a row is on a page iff it lies past the cursor and not behind the last row of a page with more to come |
| `Pagination.SteadyRowAccount` | lib/entries.ts:269-371 | with rows inserted, deleted and moved between pages: how often a row that keeps its key is shown, plus the cuts that skip it, is 1 if it lay past the first cursor (else 0) plus the cuts that readmit it |
| `Pagination.NewestFirstShowsUnlessSkipped` | lib/entries.ts:269-371 | newest first such a row is shown at most once, and once iff it lay past the first cursor and no cut skips it |
| `Pagination.StalestFirstShowsAgain` | lib/entries.ts:549-606 | stalest first it is never skipped, and shown again for each cut that readmits it |
| `Pagination.SteadyRowShownOnce` | lib/entries.ts:269-371 | a row whose key lies between no row's key and that row's cut key is shown exactly once |
| `Pagination.WholeMsNeverCross` | lib/entries.ts:536-547 | that is every row, when all rows are on whole milliseconds |
| `Pagination.LastRowComesBackIff` | lib/entries.ts:536-547 | the last row of a page is past the next cursor exactly stalest first and off a whole millisecond |
| `Pagination.NeverRepeatsIff` | lib/entries.ts:536-547 | in an unchanged table no page size shows a row twice, if and only if the list is newest first or each row with another behind it is on a whole millisecond |
| `Pagination.NoRowRepeats` | lib/entries.ts:549-606 | in a changing one, a row that never moves on in the listing is shown at most once, newest first always and stalest first when all rows are on whole milliseconds |
| `Pagination.NewestFirstNeverRepeats` | lib/entries.ts:269-371 | as update times only grow, the newest-first list repeats nothing |
| `RankFusion.AheadIsTotalOrder` | lib/retrieval.ts:484-494 | score, first lane and first rank make a strict total order |
| `RankFusion.RrfFuse` | lib/retrieval.ts:458-497 | range errors exactly outside [1, 1000]; otherwise the top of the lane union with the summed scores |
| `RankFusion.TopIsUnique` | lib/retrieval.ts:458-497 | there is only one such result |
| `RankFusion.LeaderComesFirst` | lib/retrieval.ts:458-497 | an id ranked ahead of another wherever the other appears is fused ahead of it |
| `RankFusion.AgreementComesFirst` | lib/retrieval.ts:458-497 | with two lanes shorter than k + 2, every id in both precedes every id in one |
| `RankFusion.AgreementLosesAtTheBound` | lib/retrieval.ts:458-497 | for every k: with lanes of length k + 2, a top hit of one lane ties with a last id of both and wins |
| `RankFusion.AgreementBoundIsSharp` | lib/retrieval.ts:458-497 | such lanes exist for every k, so the bound cannot be raised |
| `Citations.Normalize` | lib/retrieval-citations.ts:116-118 | no CR survives |
| `Citations.FirstMatchIsFirst` | lib/retrieval-citations.ts:131-149 | the Sources line that is read is a match, and no position before it matches; there is none only when no position matches |
| `Citations.ExtractInlineCitations` | lib/retrieval-citations.ts:166-178 | the bracketed ids outside every Sources line, in order |
| `Citations.ValidateCitations` | lib/retrieval-citations.ts:206-287 | the loops compute the first failing step, with its offending ids, or the accepted ids and body |
| `Citations.ValidIff` | lib/retrieval-citations.ts:206-287 | accepted if and only if there is one Sources line with only blanks behind it, and its ids are non-empty, distinct, v4 (RFC 4122 section 4.4), reranked, and exactly those the body cites |
| `Citations.PrintedAnswerReadsBack` | lib/retrieval-citations.ts:131-287 | a right-trimmed body without Sources line, printed with the ids it cites, is accepted and gives back those ids and that body |
| `Citations.AcceptedAnswerReprints` | lib/retrieval-citations.ts:206-287 | what was read off an accepted answer can be printed and accepted again unchanged |
| `Citations.JoinReadsBack` | lib/retrieval-citations.ts:131-149 | splitting at commas and trimming undoes joining with a comma and a space |
| `Pipeline.ReasonNamesTheRow` | lib/retrieval-pipeline.ts:260-277 | a degraded reason determines which providers were down, and there is none exactly when all were up |
| `Pipeline.OrderedRows` | lib/retrieval-pipeline.ts:477-482 | fused order kept, missing rows dropped, nothing else in |
| `Pipeline.Hydrate` | lib/retrieval-pipeline.ts:476-521 | the candidates with best chunk or representative text, or the read that failed |
| `Pipeline.JoinRerankedToSynthInput` | lib/retrieval-rerank-input.ts:189-236 | a RangeError exactly on a bad limit, index, repeat or score; otherwise the ranked boundaries in ranking order with their scores |
| `Pipeline.RerankedComesFromFused` | lib/retrieval-pipeline.ts:551-584 | whatever the reranker answers, at most five entries go on, all among the first five fused |
| `Pipeline.OutageKeepsFusedOrder` | lib/retrieval-pipeline.ts:565-583 | a reranker that is down passes on the same chunks as one that returned the fused order with score 0 |
| `Pipeline.Synthesize` | lib/retrieval-pipeline.ts:621-692 | first answer, check, one retry, check |
| `Pipeline.AuditKeepsTheFailure` | lib/retrieval-pipeline.ts:751-768 | the code and the detail on the audit row determine the whole failed verdict |
| `Pipeline.RetryOnlyAfterAFailedAnswer` | lib/retrieval-pipeline.ts:621-692 | the retry is consulted exactly after an answer that failed the check, and the flag says so |
| `Pipeline.RetrievePipeline` | lib/retrieval-pipeline.ts:314-745 | for all provider outcomes: the event grammar; the client ends with the audit row's degraded flag, reason and citations, and shows the body of an answer that passed the check with them; the retry hash is set iff retried; an error iff the status says so, naming the code of a failed check; citations within reranked within fused within the lanes; throws only after nothing or the candidates |
| `Pipeline.ToldIsConsistent` | lib/query-chat-state.ts:225-307 | the same agreement of stream, reducer and audit row, as a lemma about every run |
| `Pipeline.DegradedIff` | lib/retrieval-pipeline.ts:314-745 | the audit row says degraded exactly when embedder or reranker was down or synthesis never cited properly |
| `Pipeline.CitedComesFromReranked` | lib/retrieval-pipeline.ts:640-659 | accepted citations are among the reranked ids |
| `Pipeline.FusedIdsAreDistinct` | lib/retrieval-pipeline.ts:403-418 | fusion lists no entry twice |
| `Pipeline.RerankedIdsAreDistinct` | lib/retrieval-pipeline.ts:551-584 | no entry reaches the synthesizer or the audit row twice |
| `VersionedStore.Derive` | lib/ingest.ts:115-184 | empty body, embedder failure and vector count are refused before the transaction; a draft's slices are cut from its own canonical body |
| `VersionedStore.StepKeepsInv` | lib/ingest.ts:349-478 | every statement, commit and abort of every transaction keeps the invariant |
| `VersionedStore.EveryCommittedStateIsConsistent` | lib/ingest.ts:195-478 | under any interleaving, versions are exactly 1..n, the entry equals version n, and its chunks are the slices of its current body with its sensitivity |
| `VersionedStore.CommitAppends` | lib/ingest.ts:377-478 | a commit adds the next version, makes the draft current and replaces all chunks |
| `VersionedStore.HistoryGrowsByCommits` | lib/ingest.ts:349-478 | on every run old versions stay in place and versions and audit rows grow by exactly one per commit: no update is lost |
| `VersionedStore.HolderNeverBlocks` | lib/ingest.ts:378-404 | after its first statement a transaction neither waits nor meets a duplicate version number |
| `VersionedStore.HolderCanFinish` | lib/ingest.ts:377-478 | a transaction holding its row can always run to its commit |
| `VersionedStore.EntryStore.UpdateEntry` | lib/ingest.ts:349-478 | amid other clients and database errors: stored means one commit of the derived draft as the newest version; failed means none |
| `VersionedStore.EntryStore.CreateEntry` | lib/ingest.ts:195-292 | stored means a new entry with version 1 and its chunks; failed means nothing committed |
| `TagOps.NormalizeIsStable` | lib/tags.ts:119-124 | a normalised tag has single inner blanks, none at its ends, and normalising again changes nothing |
| `TagOps.TransformRemovesSources` | lib/tags.ts:301-306 | sources go, all other tags stay, the target is there, and the list really changes |
| `TagOps.MergeIsSequentialRenames` | lib/tags.ts:649-655 | an entry's tags after a merge are those after renaming the sources one by one |
| `TagOps.SweepAt` | lib/tags.ts:294-317 | with arbitrary concurrent edits elsewhere, an entry nobody else writes is changed exactly when reported, and all of them unless a failure stopped the loop |
| `TagOps.AttemptStaysOnCourse` | lib/tags.ts:234-348 | a failed rename or delete changed exactly a prefix of its candidates; a successful one reached the goal |
| `TagOps.RetriesReachTheGoal` | lib/tags.ts:234-348 | after any failed attempts, the one that succeeds reaches the uninterrupted result |
| `TagOps.GoalBumpsOnce` | lib/tags.ts:234-348 | in that result each tagged entry has one more version and no source tag, its other fields as before, and every other entry is as it was |
| `TagOps.MergeIsAllOrNothing` | lib/tags.ts:545-696 | a merge changes nothing, or leaves no source tag anywhere, touching candidates only |
| `TagOps.MergeLeavesReportedClean` | lib/tags.ts:732-816 | even with concurrent edits, what a committed merge reports carries no source tag |
| `TagOps.GatherAt` | lib/tags.ts:638-689 | an entry nobody else writes is as before after a roll-back, and after a commit changed exactly when reported |
| `TagOps.RollBackLeavesOthersWrites` | lib/tags.ts:679-689 | after a roll-back the whole table is what the other writers made of it, rows waiting for the merge's locks aside |
| `TagOps.Payload` | lib/tags.ts:446-462 | at most a thousand ids, a prefix, and the count left out |
| `TagOps.TagStore.RenameTag` | lib/tags.ts:234-348 | validation order, the no-op cases, the sweep, and exactly one audit row whatever fails |
| `TagOps.TagStore.DeleteTag` | lib/tags.ts:353-442 | the same for a delete |
| `TagOps.TagStore.MergeTags` | lib/tags.ts:545-696 | validation order, the one transaction, and one audit row that survives a roll-back |
| `TagOps.TagStore.ApplyTransform` | lib/tags.ts:732-816 | re-read, skip, fail or update one entry |
| `TagOps.FineSourcesAreDistinct` | lib/tags.ts:561-583 | the sources pass exactly when each passes the loose check and none repeats |

## Left out

- LineDiff.JoinSplitRoundTrip: not for texts with CRLF, which splitting drops for good.
- TagOps.MergeIsAllOrNothing: assumes nobody else writes meanwhile; with others writing, `GatherAt` and `MergeLeavesReportedClean` say what remains true.
- TagOps.RetriesReachTheGoal: assumes nobody else writes meanwhile; `SweepAt` is the statement with others writing.
- PayloadScan.FindSensitivityKey: which offending path comes first is not stated.
- RankFusion.RrfFuse: scores are reals; floating-point rounding is not modelled.
- Pipeline.RetrievePipeline: latencies, token counts and model attribution on the audit row; which of two failing lanes is reported.
- JobQueue.JobStore.ClaimOne: job payloads, log lines and the worker's sleep are not modelled; rows locked by other claims are a parameter.
- VersionedStore.EntryStore.UpdateEntry: captions, timestamps and the audit payload's attribution fields; `triggered_by_audit_id` links.
- WorkerLoop.Worker.Dispatch: a database error while a mark is being sent is not modelled; the next claim after the lock expires covers it.
- Negative chunk sizes and overlaps, for which the source defines nothing: size, overlap and minimum are naturals.
- Token encoding, UTF-8 decoding and the scanners for fences, backticks and tables: any offsets and any ranges.
- `lib/scrub.ts`: an arbitrary function on bodies.
- Text direction and the whole-conversation reset of the chat reducer: constant-time setters.
- A claim that every tool use is answered: cancelling, errors and new user messages drop pending results.
- SQL text building and the search-term parser.
- Pagination.ListPage: rows are the stored ones; the code also returns their times cut to milliseconds, as it does the cursor's.
- HNSW and full-text ranking, embedding, reranking and synthesis models: arbitrary outcomes.
- Unique-index waits between two uncommitted inserts of the same version number: the row lock rules them out first.
- Lone surrogates in JavaScript strings: text is Unicode scalar values.
- React pages, forms, authentication headers, configuration, metrics and log events.
