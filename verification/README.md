# Verification of the personal agent's memory, mail and run protocols

A Dafny 4.11 model of the hard parts of the repository, with proofs about every input, every run and
every reachable state. `dafny verify dfyconfig.toml` checks the whole project.

## What is modelled

**The markdown store, the index jobs and the vector index** (`RagStore`, `RagWorker`,
`RagPaths`, `RagInvariants`, `RagRuns`, `RagSingleWorker`, `RagAttempts`, `RagDrain`,
`RagCounterexamples`, `RagHistories`, `RagLimits`, `RagMoves`, `RagLaws`, `MarkdownStore`,
`RagIndexer`). Documents carry a version and a hash; each write queues a job; a
worker claims jobs, deletes old points, upserts batches and persists rows behind a version guard. The
protocol is a state machine whose events are the awaits of the code: store operations, the steps of
any number of workers, failures that took effect in part, and crashes interleave freely. The store
and the indexer are then written in place, with their loops, and shown to perform runs of it. What a
document, a row or a search result is at the end of a run is said of its text, its last write and its
path segments.

**The text algorithms.** The fence-aware heading parser and the section editors
(`MarkdownSections`, `SectionTheorems`, `SectionFences`, `SectionEdits`, `SectionNames`, `SectionIds`,
`SectionParser`), the chunker (`Chunking`, `ChunkingTheorems`, `ChunkingPacking`), the line diff (`MarkdownDiff`), and
the printer and parser of memory lists (`MemoryLists`, `MemoryListText`,
`MemoryListLines`, `MemoryListByHand`, `MemoryListTheorems`, `MemoryListRoundTrip`).
Sections, chunks and diffs work on UTF-16 code units; lists work on strings of characters. Regular
expressions are written out with the order in which a backtracking matcher tries alternatives. The
text of a document in the store is the text the chunker cuts, so the index theorems speak of the
real chunks.

**The IMAP poller** (`ImapProtocol`, `ImapTheorems`, `ImapPolls`, `ImapPoller`): cursor, failure
counter, quarantine, UIDVALIDITY reset, dates and back-off, with the mailbox changing and the poller dying between
any two steps.

**Agent runs, the owner handoff, the outbox and approvals** (`AgentRun`, `OwnerHandoff`, `Outbox`,
`OutboxLaws`, `OutboxWorker`, `Approvals`): the run loop against a model and tools that may do anything, and the
compare-and-set state machines around it.

`Lines`, `Utf16` and `Wrappers` hold splitting, joining, trimming and surrogates.

## Where the code does not keep an expected promise

The theorems say when each promise does hold; `RagCounterexamples`, `FirstPollSkips`,
`MoveIntoItself`, `CommentIsAddedAgain`, `IdsCanCollide` and `DecidedAfterSending` give the inputs and
runs on which it does not.

- A job is not claimed at most four times: a worker that dies holding it adds a claim each time. The
  number of claims is at most three plus the number of such crashes, and that number is reached; four
  claims are enough exactly when there is at most one crash.
- With two workers an old job can erase the points of a newer version, because the deletion is by
  document id. Index and text agree in all runs exactly when there is at most one worker.
- A move can lose documents: one for each write that finds its target held by another document, as
  when a folder is moved into itself. It keeps all of them exactly when no write does.
- A poll without a cursor can pass over messages its search did not list, and they are never handled
  after that. Once there is a cursor, or when searches list everything, nothing is passed over.
- Adding a list item twice is not always noticed: comments are removed from the stored text and not
  from the text that is compared. It is noticed exactly when escaping leaves the comparison as it was.
- Section ids can collide, so sections are identified by position. They are distinct exactly when no
  heading's base is another one's base followed by a number that base reaches.
- Editing a section can change others, when the new lines open a fence or hold a heading: it is local
  exactly when they are quiet.
- A sent message is not always final: a decision on an approval, or its expiry, rewrites its message
  whatever the status. A message stays sent and within its attempts exactly when no decision lands on
  it once it is sent, and none approves it when it has no attempt left.

## Model

| member | source | states |
|---|---|---|
| `RagSingleWorker.IndexAgreesWithText` | api/src/rag/indexer.ts:223-326 | With one worker, for every interleaving of writes, moves, deletes, retries and crashes at every await: an indexed live document whose index jobs for its version are all completed has exactly the point ids of its chunk rows, and both are those of chunking its current text |
| `RagSingleWorker.QuiescentIndexIsComplete` | api/src/rag/indexer.ts:352-462 | When all index jobs are completed, every live document is indexed, its rows are its chunks in order and hold all its characters other than white space, and the vector index has exactly one point of the current version for each of those chunks |
| `RagRuns.NoDocumentForgotten` | api/src/domain/store.ts:3418-3459 | Any number of workers, any interleaving: a live document that is not indexed always has a pending, claimed or dead-lettered job for exactly its version and hash |
| `RagRuns.IndexedRowsAreCurrent` | api/src/domain/store.ts:4304-4331 | Any number of workers: the stored chunk rows of an indexed document are those made from its current version, so a late guarded persist never leaves stale rows behind |
| `RagRuns.IndexedRowsHoldTheText` | api/src/rag/indexer.ts:194-326 | In every run, any number of workers: row i of an indexed document is chunk i of its current text, and the rows together hold every character of it that is not white space |
| `RagRuns.SearchIsSound` | api/src/domain/store.ts:4079-4113 | Any run, and arbitrary stale or invented vector hits: every search row is the numbered chunk of the current text of a live document of that user whose path has the segments of the prefix in front |
| `RagLaws.SearchIsComplete` | api/src/domain/store.ts:4079-4113 | Any run: every hit on a chunk of an indexed document of the user inside the prefix yields its row, with the score of the hit |
| `RagLaws.SearchKeepsRanking` | api/src/domain/store.ts:4079-4113 | Hits that come best first give rows that come best first, at most one for each |
| `RagPaths.TreeIsSegments` | api/src/domain/store.ts:3460-3463 | A path is under a prefix exactly when it starts with all of its segments: /workshop is not under /work |
| `RagHistories.LastWriteIsRead` | api/src/domain/store.ts:3418-3459 | Over every run, whatever the workers do: the text, hash and version read at a path are those of the last accepted write there, as long as no other write, removal or move touches the path; the id of an existing document stays |
| `RagHistories.NoLostUpdate` | api/src/domain/store.ts:3427-3432 | Of two writes that expect the same version of a document only one is accepted, whatever else is written in between; the other changes nothing at all |
| `RagHistories.WriteRefusedIff` | api/src/domain/store.ts:3427-3432 | A write changes nothing exactly when it expects another version than the one stored, 0 if there is none |
| `RagHistories.RemovalRefusedIff` | api/src/domain/store.ts:3952-3967 | A removal changes nothing exactly when there is no document or another version than the expected one |
| `RagHistories.RemovedIsGone` | api/src/domain/store.ts:3952-3967 | A removed path stays empty until something else touches it |
| `RagHistories.EventStays` | api/src/domain/store.ts:3968-3999 | An event that does not touch a path, in terms of path segments for moves, leaves the document there with its id, text, hash and version |
| `RagLimits.IndexedDocumentsAreSmall` | api/src/rag/indexer.ts:194-220 | In every run no document of more than 250000 units, 400 sections or 256 chunks is ever indexed |
| `RagLimits.SmallDocumentsGoOn` | api/src/rag/indexer.ts:194-236 | A worker goes on to delete the old points and upsert the chunks of a document exactly when it is within the three limits |
| `RagLimits.UpsertsByEight` | api/src/rag/indexer.ts:255-309 | In every run each upsert is of the next eight chunks of the document, or of those that are left; one that fails or dies may have stored any part of them |
| `RagLimits.ClaimHandsOutTheFirstDue` | api/src/domain/store.ts:4211-4228 | An idle worker gets exactly the first limit rows that are pending and due or were claimed more than five minutes ago, oldest first, each with one more attempt; no other row changes |
| `RagLimits.RetryRequeuesIff` | api/src/domain/store.ts:4238-4278 | A manual retry requeues a failed or dead row with a clean count exactly when no other row asks for the same work and is pending or claimed, and else changes nothing |
| `RagLimits.FailureRequeuesOrBuries` | api/src/rag/indexer.ts:436-460 | A turn that throws leaves its row pending at the retry time on the first and second attempt, and dead on the third or when a retry is pointless; no other row changes |
| `RagRuns.RunIsUnambiguous` | api/src/domain/store.ts:3418-3459 | In every reachable state no two live documents share an id and no two chunk rows share a point id |
| `RagRuns.StepKeeps` | api/src/rag/indexer.ts:352-462 | Each event of the protocol, of any worker, keeps the store and worker invariant |
| `RagRuns.PersistStore` | api/src/domain/store.ts:4304-4331 | The guarded write either changes nothing or stores rows for the live version and marks that document indexed; afterwards no live document the job asked for is unindexed |
| `RagAttempts.BoundedAttempts` | api/src/rag/indexer.ts:364-461 | With one worker, since the last manual retry: a job is processed at most 3 times, each claim but the one at work has had exactly one outcome or crash, and claims number at most 3 plus the crashes |
| `RagDrain.EffectiveStepGoesDown` | api/src/rag/indexer.ts:364-461 | Every effective step of a worker, success, failure or dead-letter, lowers a number that says how much is left to do |
| `RagDrain.NotStuck` | api/src/rag/indexer.ts:364-461 | While a job is neither completed nor dead, the single worker always has an effective next step once the job is due, for every positive batch size |
| `RagDrain.Drain` | api/src/rag/indexer.ts:352-462 | From every run, crashes included, and for every positive batch size, worker steps alone can bring every job to completed or dead |
| `RagDrain.StepsArePaid` | api/src/rag/indexer.ts:352-462 | Over every run of worker steps and crashes, the effective steps number at most what that number was at the start, less what it is at the end, plus 262 for each row and crash: failures and crashes cannot keep a worker busy for ever |
| `RagDrain.StepsAreBounded` | api/src/rag/indexer.ts:352-462 | From an idle worker on, a run with c crashes has at most 262 (8 + c) effective steps for each job row |
| `RagCounterexamples.ClaimsReachTheBound` | api/src/domain/store.ts:4211-4228 | That bound is reached for every number of crashes: two failures to be retried, then c claims each ended by a crash, then one more claim make 3 + c claims |
| `RagCounterexamples.FourClaimsIff` | api/src/domain/store.ts:4211-4228 | At most four claims is true of all one-worker runs with at most c crashes of the job if and only if c is at most 1 |
| `RagCounterexamples.AgreementIff` | api/src/rag/indexer.ts:223-326 | Points and text agree for every indexed document with its jobs completed, in all runs with at most n workers, if and only if n is at most 1 |
| `RagCounterexamples.TwoWorkersCanEraseTheIndex` | api/src/rag/indexer.ts:229 | The run behind it: an old job that read before a newer version deletes by document id the points of that version, and no job is left to bring them back; OneLetterWillDo names a text for it |
| `RagCounterexamples.OneWorkerIndexes` | api/src/rag/indexer.ts:352-462 | A run of one worker that gets there: the document is indexed, its job completed, and the index holds exactly its one point |
| `MarkdownStore.MarkdownStore.WriteMarkdownDocument` | api/src/domain/store.ts:3418-3459 | In place: the new state is the specified write (conflict on a wrong expected version, next version and an index job otherwise) |
| `MarkdownStore.MarkdownStore.DeleteMarkdownPath` | api/src/domain/store.ts:3952-3967 | In place: the document is gone and a delete job is queued, or a conflict or nothing is reported with the state unchanged |
| `MarkdownStore.MarkdownStore.MoveMarkdownPath` | api/src/domain/store.ts:3968-3999 | The loop over the subtree performs the moves one after the other in the given order, each with its index job; a stale expected version stops it before anything changes |
| `RagMoves.MoveBySegments` | api/src/domain/store.ts:3968-3999 | In every reachable state, on path segments: a document outside the moved folder keeps its key, text and version unless a moved one is written there; each moved one is found under the exchanged segments, a version later with its text and id, unless a later move takes its place; nothing else is stored |
| `RagMoves.MoveQueues` | api/src/domain/store.ts:3976-3995 | Every moved document gets one pending index job for its new version and hash, in order, after the jobs that were there |
| `RagMoves.SomeOrder` | api/src/domain/store.ts:3968-3999 | In every reachable state the documents a move or a reindex concerns can be listed, each once: neither is ever without an order to go by |
| `RagMoves.MoveKeepsAllIff` | api/src/domain/store.ts:3968-3999 | In every reachable state a move keeps every document if and only if none of its writes finds its target held by another document, and each write that does costs exactly one document |
| `RagMoves.MoveIntoItself` | api/src/domain/store.ts:3968-3999 | Moving a folder with a document on top into its own child loses the document on top |
| `MarkdownStore.MarkdownStore.ReindexMarkdownPath` | api/src/domain/store.ts:4189-4197 | The loop queues one index job for each live document of the user under the prefix and nothing else |
| `RagLaws.ReindexBySegments` | api/src/domain/store.ts:4189-4197 | In every run: reindexing changes no document, queues one pending job for the current version of each document of the user inside the prefix, by path segments, and none for any other |
| `MarkdownStore.MarkdownStore.ClaimRagIndexJobs` | api/src/domain/store.ts:4211-4228 | The loop claims the first due or expired jobs up to the limit, each with one more attempt, and returns copies of exactly those |
| `MarkdownStore.MarkdownStore.RetryRagIndexJob` | api/src/domain/store.ts:4238-4278 | A failed or dead job goes back to pending with no attempts, unless an active twin exists |
| `MarkdownStore.MarkdownStore.FailRagIndexJob` | api/src/domain/store.ts:4279-4303 | A failure with a retry time makes the job pending at that time, and one without makes it failed |
| `MarkdownStore.MarkdownStore.ReplaceDocumentChunks` | api/src/domain/store.ts:4304-4331 | The rows are replaced and the document marked indexed exactly when the version and hash guard holds |
| `MarkdownStore.MarkdownStore.SearchMarkdownSemantic` | api/src/domain/store.ts:4079-4113 | The loop over the hits yields a result allowed by the search relation, cut to the limit: 10 when absent, at least 1 and at most 25 |
| `RagIndexer.PrepareChunks` | api/src/rag/indexer.ts:194-220 | The size limits are detected through the chunker as it is called, which stops one chunk past its limit; otherwise the chunks are all those of the text |
| `RagIndexer.UpsertEmbeddingBatch` | api/src/rag/indexer.ts:286-309 | The inner batch loop upserts exactly the points of the batch, eight at a time, and stops at the first call that throws |
| `RagIndexer.IndexMarkdownDocument` | api/src/rag/indexer.ts:169-350 | The nested batch loops are a continuation of a run of the protocol: points deleted, all batches upserted, rows persisted behind the guard, or stopped at the call that throws |
| `RagIndexer.WorkOnJob` | api/src/rag/indexer.ts:392-435 | The try block is a continuation of a run: delete, stale skip or indexing, up to completion |
| `RagIndexer.ProcessJob` | api/src/rag/indexer.ts:364-461 | One turn of the job loop, with its catch block, is a continuation of a run and settles its counts |
| `RagIndexer.ProcessRagIndexJobs` | api/src/rag/indexer.ts:352-462 | A whole pass is a continuation of a run; every claimed job has one outcome, its row shows that outcome at the end, and each count is the number of outcomes of its kind, stale skips being counted by none |
| `SectionTheorems.HierarchiesAgree` | api/src/memory/markdownFilesystem.ts:97-136 | The defined entries of a heading path are the headings along the parent chain followed by the heading itself, where each parent is the nearest earlier heading of smaller level, also when levels are skipped |
| `SectionTheorems.SectionsTile` | api/src/memory/markdownFilesystem.ts:107-147 | The sections cover the document line by line, in order, with no gap and no overlap |
| `SectionTheorems.SectionsReassemble` | api/src/memory/markdownFilesystem.ts:107-154 | Putting the sections back together gives the document |
| `SectionEdits.EditIsLocal` | api/src/memory/markdownFilesystem.ts:156-176 | New lines below a heading leave every other section, id, parent, path and hash as they were, shifted by the line delta, if and only if they hold no heading that is seen and leave no fence open before a following section |
| `SectionEdits.ReplaceIsLocal` | api/src/memory/markdownFilesystem.ts:156-165 | Replacing a section with its heading line kept is local exactly when the rest of the replacement is quiet |
| `SectionEdits.AppendIsLocalIff` | api/src/memory/markdownFilesystem.ts:167-176 | Appending to a section is local if and only if its lines with the new ones after them are quiet |
| `SectionEdits.AppendIsLocal` | api/src/memory/markdownFilesystem.ts:167-176 | So appending text without heading or fence lines is always local, even in a section that ends inside a fence |
| `SectionEdits.OldBodyIsQuiet` | api/src/memory/markdownFilesystem.ts:66-105 | The lines a section already holds are quiet, so putting them back is local |
| `SectionEdits.ReplaceReads` | api/src/memory/markdownFilesystem.ts:152-165 | What replaces a section is read back from its lines, and replacing a section by what is read from it gives the same document |
| `SectionTheorems.MarkAt` | api/src/memory/markdownFilesystem.ts:72-105 | A heading is seen only outside fences, and the lines above and below it are scanned as if alone |
| `SectionFences.OpensIff` | api/src/memory/markdownFilesystem.ts:73-88 | Outside a fence a line opens one exactly when it has three backticks or three tildes after at most three spaces |
| `SectionFences.ClosesIff` | api/src/memory/markdownFilesystem.ts:74-80 | Inside a fence of n markers a line closes it exactly when it has n or more of the same marker after at most three spaces; a shorter run or the other marker does not |
| `SectionFences.BlockIsSilent` | api/src/memory/markdownFilesystem.ts:73-88 | A line with n markers, lines none of which has as many of them, and a line that has: no heading is read from the block and the line after it is outside |
| `SectionFences.UnclosedIsSilent` | api/src/memory/markdownFilesystem.ts:73-88 | Without the closing line nothing below the opening one is a heading |
| `SectionFences.BlockIsSkipped` | api/src/memory/markdownFilesystem.ts:66-105 | A fenced block between plain text and anything hides itself and nothing else: the headings of the document are those above it and those below it |
| `SectionFences.HeadingIff` | api/src/memory/markdownFilesystem.ts:89-95 | A line is a heading of level n exactly when it has n of one to six hashes, a space or tab, and at least one more unit, none of these a line terminator |
| `SectionFences.HeadingReadsAs` | api/src/memory/markdownFilesystem.ts:89-96 | A heading reads as the trimmed text after the blanks up to the first place from which only closing hashes and blanks follow |
| `SectionFences.SectionSays` | api/src/memory/markdownFilesystem.ts:107-147 | Every section has the hash of its own lines, starts with its heading line, and names the nearest section above with a smaller level as its parent, or none; only a preamble, on top, has no heading |
| `SectionFences.CommentInCode` | api/src/memory/markdownFilesystem.ts:73-88 | A document of three lines, a comment between two code fences, is one section, its preamble |
| `SectionParser.ParseHeadings` | api/src/memory/markdownFilesystem.ts:68-105 | The first loop, with its fence and its stack, finds exactly the headings of the document and their paths |
| `SectionParser.PopIsNearest` | api/src/memory/markdownFilesystem.ts:126-134 | What the parent stack leaves on top after popping is the nearest earlier heading of smaller level |
| `SectionParser.PopParents` | api/src/memory/markdownFilesystem.ts:129-131 | The while loop pops exactly the headings of the same or a deeper level |
| `SectionParser.SectionFor` | api/src/memory/markdownFilesystem.ts:127-146 | One turn of the second loop builds the section with its parent, its id counted per base, and its range |
| `SectionParser.ParseMarkdownSections` | api/src/memory/markdownFilesystem.ts:66-150 | The two loops compute the specified sections for every document |
| `SectionIds.IdsDistinctIff` | api/src/memory/markdownFilesystem.ts:60-64 | The ids of any headings are all distinct if and only if no base is another base, used at least k times, followed by -k with k at least 2 |
| `SectionIds.DocumentIdsDistinctIff` | api/src/memory/markdownFilesystem.ts:106-147 | The same for the sections of every document as they are parsed, the preamble included |
| `SectionIds.IdsCanCollide` | api/src/memory/markdownFilesystem.ts:60-64 | The document with the headings a, a and a-2 has two sections with one id: ids do not identify sections |
| `SectionIds.IdIsNumbered` | api/src/memory/markdownFilesystem.ts:60-64 | The id of a heading is its base if no earlier heading has that base, and otherwise the base, a dash, and one more than the number of earlier headings with that base |
| `SectionIds.BaseSplits` | api/src/memory/markdownFilesystem.ts:122-133 | The base of an id is the slugs of the heading path with slashes between them, from which it can be split back, a skipped level being an empty part |
| `SectionNames.HeadingReads` | api/src/memory/markdownFilesystem.ts:89-96 | A line of one to six hashes, a space and a trimmed text reads back as that level and text exactly when the text has no closing hashes of its own |
| `SectionNames.SlugIsClean` | api/src/memory/markdownFilesystem.ts:51-58 | A slug is never empty, starts and ends with a letter or digit, and has no two dashes in a row |
| `SectionNames.SlugKeepsLetters` | api/src/memory/markdownFilesystem.ts:51-58 | A slug has the letters and digits of its text in order and no others; a text without any gets the slug section |
| `SectionNames.SlugFixed` | api/src/memory/markdownFilesystem.ts:51-58 | A clean slug is its own slug |
| `SectionNames.SlugIgnoresCase` | api/src/memory/markdownFilesystem.ts:51-58 | Texts that differ only in case have one slug |
| `SectionNames.BackticksVanish` | api/src/memory/markdownFilesystem.ts:51-58 | Backticks vanish from a slug |
| `SectionNames.OtherUnitsSeparate` | api/src/memory/markdownFilesystem.ts:51-58 | Any other unit that is no letter or digit separates the parts of a slug as a dash does |
| `SectionIds.CollisionsNeedDifferentBases` | api/src/memory/markdownFilesystem.ts:60-64 | Sections with the same base never share an id: ids collide only across different bases |
| `ChunkingTheorems.ChunkingIsLossless` | api/src/rag/chunking.ts:63-142 | The characters other than white space of all chunks, in order, are those of the whole document after the repair of lone surrogates |
| `ChunkingPacking.PiecesNameTheirSections` | api/src/rag/chunking.ts:109-143 | The chunks of a document fall into consecutive runs, one for each section in order; those of a run name the id and heading path of the section and together hold the characters of its lines, white space apart |
| `ChunkingPacking.SectionIsPacked` | api/src/rag/chunking.ts:63-107 | A section of at most 1400 units is one chunk; a longer one is its paragraphs in order, packed with an empty line between them into chunks of at most 1400 units that end only before a paragraph that does not fit; that paragraph stands alone, cut every 1400 units, or 1399 where a surrogate pair would be parted |
| `ChunkingTheorems.SectionKeepsInk` | api/src/rag/chunking.ts:63-107 | The same for the chunks of one section: no section text leaks into another |
| `ChunkingTheorems.PiecesAreChunks` | api/src/rag/chunking.ts:63-142 | Every chunk of every document has 1 to 1400 units, cuts no surrogate pair, and is numbered by its position |
| `ChunkingTheorems.SectionMakesChunks` | api/src/rag/chunking.ts:63-107 | The same for one section, after the repair of lone surrogates |
| `ChunkingTheorems.ShortParagraphsStayWhole` | api/src/rag/chunking.ts:73-102 | A paragraph of at most 1400 units is never cut: one chunk contains all of it |
| `ChunkingTheorems.ParagraphsShape` | api/src/rag/chunking.ts:73 | The paragraphs are the text up to the first run of two or more newlines and the paragraphs of what follows the run |
| `ChunkingTheorems.RepairTrimmed` | api/src/rag/chunking.ts:12-17 | Repairing lone surrogates and trimming commute, white space apart |
| `Utf16.RepairIsMinimal` | api/src/rag/chunking.ts:12-17 | Exactly the surrogates without their other half are replaced, by U+FFFD |
| `Chunking.CutAt` | api/src/rag/chunking.ts:83-95 | A slice is never empty, has at most 1400 units, and ends between whole characters |
| `Chunking.SlicesOf` | api/src/rag/chunking.ts:83-101 | The slice loop computes the specified slices |
| `Chunking.PackParagraphs` | api/src/rag/chunking.ts:71-106 | The packing loop, one paragraph at a time, computes the specified packing |
| `Chunking.SplitIntoChunks` | api/src/rag/chunking.ts:63-107 | The whole function on a section computes its specified chunks |
| `Chunking.ChunkMarkdownDocumentWithStats` | api/src/rag/chunking.ts:109-143 | The chunks are numbered by position and are all the pieces of the document, or none past the section limit, or the first limit plus one past the chunk limit |
| `MarkdownDiff.ScriptReplays` | api/src/memory/markdownDiff.ts:58-94 | The script replays before into after, and added plus removed lines number n + m - 2 LCS |
| `MarkdownDiff.ScriptIsShortest` | api/src/memory/markdownDiff.ts:75-94 | No insert and delete script between the two documents keeps more lines or adds or removes fewer |
| `MarkdownDiff.KeptIsLongest` | api/src/memory/markdownDiff.ts:58-94 | The kept lines are a common subsequence of the documents and no common subsequence is longer |
| `MarkdownDiff.LcsBounds` | api/src/memory/markdownDiff.ts:63-73 | The number in a table cell bounds every common subsequence of the remaining lines |
| `MarkdownDiff.WalkReplays` | api/src/memory/markdownDiff.ts:75-94 | From every cell the greedy walk replays the remaining lines and keeps as many as the cell says |
| `MarkdownDiff.NoChangesMeansEqual` | api/src/memory/markdownDiff.ts:75-102 | The counts are both zero exactly when the documents are equal |
| `MarkdownDiff.DiffContainsBoth` | api/src/memory/markdownDiff.ts:96-102 | From a diff that is not truncated both documents can be read back |
| `MarkdownDiff.DiffHolds` | api/src/memory/markdownDiff.ts:42-103 | For at most 250000 table cells a diff has the first 220 rows of the script and says whether any are missing; beyond that it is a preview of removed and then added lines, cut at 220; the counts are those of the script, or of all lines |
| `MarkdownDiff.FillTable` | api/src/memory/markdownDiff.ts:58-73 | The nested loops fill the table with the subsequence lengths |
| `MarkdownDiff.WalkTable` | api/src/memory/markdownDiff.ts:75-94 | The while loop emits the rows of the script and counts its additions and removals |
| `MarkdownDiff.BuildUnifiedMarkdownDiff` | api/src/memory/markdownDiff.ts:42-103 | The whole function, with the cell limit, the preview and the truncation at 220 rows |
| `MemoryListRoundTrip.RoundTrip` | api/src/memory/memoryLists.ts:128-188 | Parsing a printed list gives the list back, for every list with a trimmed title, clean nonblank items, well-formed ids, trimmed or absent metadata, and an archive date only on archived items |
| `MemoryListRoundTrip.RemovingArchives` | api/src/memory/memoryLists.ts:464-517 | After a removal, by id or by text, all items are still there in order; only the selected one changed: it is archived, keeps its id, text, date, source and notes, has the given date unless it was archived before, and the escaped reason if one is given; without a match nothing is written |
| `MemoryListRoundTrip.FindMutableItem` | api/src/memory/memoryLists.ts:385-394 | The item selected is the first with the id when one is given, and otherwise the first whose text compares equal |
| `MemoryListRoundTrip.AddingAppends` | api/src/memory/memoryLists.ts:216-286 | An add to a printable list reports a duplicate exactly when an item compares equal, and then changes nothing; otherwise the stored list reads back as it was with one active item at its end, whose id, escaped text, date, source and notes are those of the addition |
| `MemoryListText.PhraseIsFixed` | api/src/memory/memoryLists.ts:80-87 | Words of small letters and digits with single spaces compare as they are |
| `MemoryListText.CaseIsIgnored` | api/src/memory/memoryLists.ts:80-87 | Case does not matter to a comparison |
| `MemoryListText.AmpersandIsAnd` | api/src/memory/memoryLists.ts:80-87 | An ampersand compares as the word and |
| `MemoryListText.OtherCharactersSeparate` | api/src/memory/memoryLists.ts:80-87 | Any other character that is no letter or digit compares as a space |
| `MemoryListText.ComparableIsPhrase` | api/src/memory/memoryLists.ts:80-87 | What is compared are words of small letters and digits with single spaces, so these laws decide every comparison |
| `MemoryListTheorems.AddTwice` | api/src/memory/memoryLists.ts:216-286 | After an add that was no duplicate, adding any comparably equal item reports a duplicate and leaves the document and its version alone, if and only if escaping did not change how the added text compares; for any stored markdown |
| `MemoryListTheorems.AddTwiceWithoutComments` | api/src/memory/memoryLists.ts:216-286 | Text without comment markers is enough for that, blank text included |
| `MemoryListTheorems.TextsSurvive` | api/src/memory/memoryLists.ts:93-188 | The item texts of a stored list are the escaped ones, in order, even when titles or metadata do not survive |
| `MemoryListTheorems.ParseIsSound` | api/src/memory/memoryLists.ts:146-188 | Whatever the markdown, the parsed items have escaped texts, well-formed ids and one-line metadata |
| `MemoryListTheorems.FileSplits` | api/src/memory/memoryLists.ts:128-139 | The printed file is its lines, each ended by a line break |
| `MemoryListText.EscapeFixed` | api/src/memory/memoryLists.ts:93-100 | Escaping changes nothing exactly when the text has no comment marker, only single spaces and no blank ends; escaping is idempotent |
| `MemoryListText.EscapedIsClean` | api/src/memory/memoryLists.ts:93-100 | No comment marker survives escaping, not even one put together by removing another |
| `MemoryListText.EscapedCompares` | api/src/memory/memoryLists.ts:80-100 | Text without comment markers compares as its escaped form does |
| `MemoryListRoundTrip.CommentIsNoDuplicate` | api/src/memory/memoryLists.ts:216-240 | An item that is a whole comment is stored as nothing and compares differently, so it is added again each time |
| `MemoryListRoundTrip.CommentIsAddedAgain` | api/src/memory/memoryLists.ts:216-286 | A list to which the same comment text is added twice: the second add is no duplicate and writes version 2 |
| `MemoryListLines.ItemLineMatches` | api/src/memory/memoryLists.ts:154 | A printed item line reads back as its mark, its text and its id: the lazy text stops at the comment and not before |
| `MemoryListLines.NoTextMatches` | api/src/memory/memoryLists.ts:154 | With empty text the lazy match takes the comment for the text and loses the id |
| `MemoryListLines.MetaLineMatches` | api/src/memory/memoryLists.ts:141-144 | A printed metadata line is no item line and reads back as its key and value |
| `MemoryListByHand.ItemIsRead` | api/src/memory/memoryLists.ts:153-172 | A checkbox line written by hand, without an id comment, adds an item: active exactly if the box is blank, with an id made from the list and the text |
| `MemoryListByHand.OtherMark` | api/src/memory/memoryLists.ts:154 | A box with any mark but a blank, x or X makes the line no item |
| `MemoryListByHand.CompactId` | api/src/memory/memoryLists.ts:154 | The id comment needs no white space inside: the id is what stands before the closing dashes, and nothing but white space may follow the comment |
| `MemoryListByHand.OneDashIsOpen` | api/src/memory/memoryLists.ts:154 | One dash does not close the id comment |
| `MemoryListByHand.TitleIsFirst` | api/src/memory/memoryLists.ts:149 | The title comes from the first line that starts with a hash, white space and something behind it; without one there is only the fallback |
| `MemoryListText.CommentIsDropped` | api/src/memory/memoryLists.ts:96 | A comment on one line becomes a space, up to its first end |
| `MemoryListRoundTrip.TitleOfPrintable` | api/src/memory/memoryLists.ts:149 | The title reads back from the printed file |
| `MemoryLists.RenderMemoryList` | api/src/memory/memoryLists.ts:128-139 | The loop prints the items in order under the header |
| `MemoryLists.ParseMemoryListMarkdown` | api/src/memory/memoryLists.ts:146-188 | The loop over the lines computes the specified list |
| `MemoryLists.FindComparable` | api/src/memory/memoryLists.ts:227-228 | The first item that compares equal, or none compares equal |
| `ImapTheorems.CursorSafety` | api/src/connectors/imapPoller.ts:799-974 | From any idle state with a cursor, as long as UIDVALIDITY stays: the cursor never falls, and every UID it passes was ingested and committed, quarantined after at least three deterministic failures, or expunged |
| `ImapTheorems.EveryUidIsAccountedFor` | api/src/connectors/imapPoller.ts:849-974 | In every reachable state every UID at or below the cursor is committed, quarantined, expunged, or was passed over by a search without a cursor |
| `ImapTheorems.HandledUnlessSkipped` | api/src/connectors/imapPoller.ts:849-974 | In every reachable state a message still present at or below the cursor was committed or quarantined if and only if it is not one passed over by a search without a cursor |
| `ImapTheorems.SkippedIsNeverHandled` | api/src/connectors/imapPoller.ts:799-974 | A UID left out by a search without a cursor and below a UID passed since is committed or quarantined neither now nor in any continuation with the same UIDVALIDITY |
| `ImapTheorems.FullSearchesSkipNone` | api/src/connectors/imapPoller.ts:281-291 | A poller whose searches list every UID present skips none, cursor or not |
| `ImapTheorems.FirstPollSkips` | api/src/connectors/imapPoller.ts:281-291 | Three messages of which the first search, without a cursor, lists the first and the third: the second is passed over and no continuation with the same UIDVALIDITY handles it |
| `ImapTheorems.CursorHasReason` | api/src/connectors/imapPoller.ts:391-456 | In every reachable state the cursor was put where it is by an event of the run that committed just that UID after its ingestion, or quarantined it after three deterministic failures |
| `ImapTheorems.FailuresKeepCursor` | api/src/connectors/imapPoller.ts:391-456 | Over every run without a commit, a deterministic failure or a new UIDVALIDITY, however often polls fail transiently, are aborted or crash, cursor and failure counter stay as they are |
| `ImapTheorems.PollGoesDown` | api/src/connectors/imapPoller.ts:799-996 | An undisturbed poll without transient failure on a backlog moves the cursor up or adds one try, of at most three, to the UID it stops at |
| `ImapTheorems.RunKeeps` | api/src/connectors/imapPoller.ts:505-629 | Every run, with arrivals, expunges, renumbering and crashes at every await, keeps the cursor invariant |
| `ImapTheorems.EligibleAreSmallest` | api/src/connectors/imapPoller.ts:316-322 | The chosen UIDs ascend, are distinct and above the cursor, and every eligible UID left out is larger than all of them |
| `ImapTheorems.BacklogIsFound` | api/src/connectors/imapPoller.ts:849-850 | With a cursor and a message above it, the search gives the poll something to do |
| `ImapTheorems.BackoffIsExponential` | api/src/connectors/imapPoller.ts:307-314 | The wait after n failures is the interval, at least a minute, times 2 to the n - 1, and at most an hour: the bound on the exponent is never felt |
| `ImapPolls.NextPollIsDue` | api/src/connectors/imapPoller.ts:553-588 | In every run the next poll is due, after the last poll that ended, the interval later if it went through, and otherwise the interval, at least a minute, doubled for each failed poll but one since a poll last went through, at most an hour; nothing else moves it |
| `ImapPolls.DateIsNewest` | api/src/connectors/imapPoller.ts:590-629 | As long as the mailbox keeps its UIDVALIDITY the remembered date is at least as new as that of every message committed since |
| `ImapPolls.DateHasReason` | api/src/connectors/imapPoller.ts:590-629 | The remembered date is that of a message committed in the run, or of the import that seeded it |
| `ImapPolls.FailuresAreCounted` | api/src/connectors/imapPoller.ts:391-456 | The failures of a message in the history, three of which quarantine it, are the events of the run at which just this message failed deterministically |
| `ImapPolls.CounterStays` | api/src/connectors/imapPoller.ts:391-456 | The counter of a message changes only when that message is dealt with, which clears it, a message fails deterministically, or the mailbox has a new UIDVALIDITY |
| `ImapPoller.ConnectorRow.SynchronizeImapUidValidity` | api/src/connectors/imapPoller.ts:505-551 | In place: a changed UIDVALIDITY clears cursor, date and failure counter, a first one only is noted |
| `ImapPoller.ConnectorRow.UpdateImapProgress` | api/src/connectors/imapPoller.ts:590-629 | In place: the cursor never goes back, and the counter is cleared if it was for this UID |
| `ImapPoller.ConnectorRow.ResolveImapUidFailure` | api/src/connectors/imapPoller.ts:391-456 | In place: a transient failure changes nothing; a deterministic one is counted, and the third moves the cursor past the message |
| `ImapPoller.ConnectorRow.UpdateImapPollState` | api/src/connectors/imapPoller.ts:553-588 | In place: success resets the failures, failure adds one and backs off |
| `ImapPoller.ProcessImapUidBatch` | api/src/connectors/imapPoller.ts:328-358 | The batch loop handles messages in ascending order up to the first failure that stops it, and performs a continuation of a run |
| `ImapPoller.ProcessImapInbox` | api/src/connectors/imapPoller.ts:799-996 | A whole poll is seed, synchronize, search, outcomes and close of the protocol, with no transient event unless the server or the store failed |
| `AgentRun.RunAgentTask` | api/src/agent/runAgentTask.ts:54-478 | For every behaviour of model and tools: a created run is finished exactly once with the status returned. With i the first turn after which the run does not go on, every turn before i left its call, and the run answers if turn i is an answer, breaks if something throws or the turns run out, is refused on a rejected or failed call, and completes with the research or the written answer on a call that worked. Executions number at most the budget, are of allowed tools only, with external evidence and no mutation command of read tools only, and match the recorded calls |
| `AgentRun.StopsOnce` | api/src/agent/runAgentTask.ts:136-457 | For every list of turns, tools and budget there is exactly one turn at which the run stops |
| `AgentRun.CompletesIff` | api/src/agent/runAgentTask.ts:144-457 | A run completes exactly when its last turn is an answer, accepted web research, or an accepted call after which the model does not go on and, for a read tool, an answer can be written; its response is that answer, the research or what was written, and a run that fails has none |
| `AgentRun.FailuresTell` | api/src/agent/runAgentTask.ts:168-457 | A run that fails names the tool that was rejected or failed, and no tool if something threw or the turns ran out; unless something threw it says whether any call was repaired |
| `AgentRun.CallsTell` | api/src/agent/runAgentTask.ts:197-420 | Call k is that of turn k: accepted exactly when the tool was allowed, the budget not used up and the tool worked, failed exactly when it was executed and threw; and accepted web research comes last |
| `AgentRun.BudgetIsExact` | api/src/agent/runAgentTask.ts:261-297 | A model that never stops calling gets exactly as many executed calls as the budget allows; one more is recorded as rejected and the run fails |
| `AgentRun.FailuresAreRecoverable` | api/src/agent/runAgentTask.ts:197-234 | After a failed validation or a failed call the model may go on, and the run completes with its next answer |
| `AgentRun.AllowedToolsAre` | api/src/agent/externalResearchPolicy.ts:24-38 | A tool may be used exactly when it is offered and, on external evidence without a command to change something, only reads; no tool is listed twice |
| `AgentRun.CompletedWithoutToolExecutedNone` | api/src/agent/runAgentTask.ts:136-156 | A run that completed and reports no tool has executed none; one that reports an accepted tool executed that tool last |
| `AgentRun.RunStore.CountToolCallsForRun` | api/src/agent/runAgentTask.ts:261-262 | The loop counts the recorded calls of the run |
| `AgentRun.CallsSince` | api/src/agent/runAgentTask.ts:261-262 | The calls counted for a new run are those recorded since it began |
| `AgentRun.ValidTurn` | api/src/agent/runAgentTask.ts:236-318 | A call outside the allow-list or over the budget is recorded as rejected, executes nothing and fails the run; any other is executed exactly once and recorded, except one whose recording threw, which fails the run |
| `AgentRun.InvalidTurn` | api/src/agent/runAgentTask.ts:197-234 | An invalid proposal adds exactly one rejected call, which counts towards the budget, executes nothing, and the loop goes on if and only if the model continues |
| `AgentRun.ExecuteTurn` | api/src/agent/runAgentTask.ts:300-457 | Exactly one execution is added, and exactly one call, accepted or failed as the tool behaved; accepted web research completes the run |
| `OwnerHandoff.RunOwnerTaskWithTrustedContextHandoff` | api/src/agent/inboundMessageAgent.ts:720-836 | Over the up to three runs of an owner command at most one executes any tool, it is the one whose result is returned, and its executions fit the budget. A second run, on trusted context, is made exactly when the first completed without a tool although the owner started an action and asked for the development agent or was refused; a third, with only the delegation tool, exactly when the second completed without a tool and the owner asked for the development agent |
| `Outbox.ExactlyTheHarmless` | api/src/security/approvalPolicy.ts:141-180 | For every history from a sound state: sent messages stay as they are and no attempt, the next one included, is one too many, at every event, if and only if every event is harmless, that is, no approval decision and no writing-off lands on a sent message, and none approves a message without an attempt left |
| `Outbox.DecidedAfterSending` | api/src/security/approvalPolicy.ts:172-176 | A proposed message released by its owner with the approval undecided and then sent: approving it afterwards has it sent a second time, an expiry turns it from sent to cancelled |
| `Outbox.UnlockedIsHarmless` | api/src/http/app.ts:2326-2349 | A decision on a message that is not locked is harmless, and so is every change of status by the owner |
| `Outbox.OutboxIsSafe` | api/src/connectors/smtpSender.ts:252-284 | Over every history of harmless events: one message per user and dedupe key, claims equal attempts, at most 5 with a key and 1 without, and deliveries equal one if sent plus those whose attempt threw or crashed afterwards |
| `Outbox.SentIsFinal` | api/src/domain/store.ts:4666-4792 | A sent message and its record are never changed by any later history of harmless events |
| `OutboxLaws.NothingIsSentUnapproved` | api/src/domain/store.ts:4669-4792 | Over every history, harmless or not: a message queued for approval is never claimed or delivered, nor may it be, unless its approval was given, its owner released or approved it, or another message was queued under its key |
| `OutboxLaws.QueueStores` | api/src/domain/store.ts:4666-4726 | A message with a new key, or none, is stored with the status it was queued with, and may be sent at once exactly if that is pending or approved; with a known key it replaces the text of a failed message with attempts left, which becomes pending, and is dropped otherwise |
| `OutboxLaws.KeyIsTrimmed` | api/src/domain/store.ts:4668 | A key is the text without white space at its ends, and blank text is no key |
| `OutboxLaws.AttemptEnds` | api/src/connectors/smtpSender.ts:207-285 | An attempt that may send adds one attempt and one claim and ends sent, stuck in sending, or failed; a daily check-in that fails on attempt n below 5 is pending again after one minute times 2 to the n - 1; no other message changes |
| `OutboxLaws.DecidedOnce` | api/src/security/approvalPolicy.ts:141-180 | An approval is decided at most once: decided or absent approvals stay as they are over every history |
| `OutboxWorker.OutboxStore.QueueOutboundMessage` | api/src/domain/store.ts:4666-4726 | In place: a key in use is not queued twice; a failed message with attempts left is queued again under its key |
| `OutboxWorker.OutboxStore.FindByKey` | api/src/domain/store.ts:4669-4673 | The loop finds the message with this user and key |
| `OutboxWorker.OutboxStore.ClaimOutboundMessageForSending` | api/src/domain/store.ts:4770-4792 | Granted exactly when the message is pending or approved, with one more attempt |
| `OutboxWorker.OutboxStore.ListDue` | api/src/connectors/smtpSender.ts:296-298 | The due messages of the user in order, up to the limit, none skipped |
| `OutboxWorker.SendOutboundMessage` | api/src/connectors/smtpSender.ts:207-285 | In place, for a record that may be stale: written off first when delivery is off, returned unchanged when it was not to be sent, written off without a claim, refused if it can no longer be claimed, or claimed and then sent, put back for a later attempt, failed, or left in sending by a crash |
| `OutboxWorker.ProcessOutboundQueue` | api/src/connectors/smtpSender.ts:287-317 | The messages attempted are the first due ones up to the limit, each once and in order; unless the worker dies at one of them all are attempted, sent is the number of them that are sent now, and the counts add up |
| `Approvals.ClaimedAtMostOnce` | api/src/domain/store.ts:4832-4931 | Over every history with arbitrary status updates: a claim is granted at most once per approval, an execution ends at most once and only after its claim, and the execution status tells which have happened |
| `Approvals.ExecutionNeverGoesBack` | api/src/domain/store.ts:4832-4931 | Over every history the execution status of an approval moves forward or not at all, and only for a cross-app write, and an outcome is never overwritten |
| `Approvals.StatusIsTheLastSet` | api/src/domain/store.ts:4832-4853 | Over every history the status of an approval is the one set last by its user, with the last decider, and it is pending and untouched before that |
| `Approvals.GrantedIff` | api/src/domain/store.ts:4854-4876 | Over every history a claim is granted exactly to the user of a cross-app write that is approved now and was never claimed |
| `Approvals.EndedIff` | api/src/domain/store.ts:4877-4931 | An outcome is recorded exactly for the user of a cross-app write that is approved now, was claimed, and has no outcome yet |
| `Approvals.OutcomeIsKept` | api/src/domain/store.ts:4877-4931 | The outcome and result recorded are what is read ever after |
| `Approvals.ApprovalStore.ClaimApprovalExecution` | api/src/domain/store.ts:4854-4876 | In place: granted exactly when the execution was waiting on an approved cross-app write of the user |
| `Approvals.ApprovalStore.UpdateApprovalStatus` | api/src/domain/store.ts:4832-4853 | In place: approving makes the execution available the first time only |

## Left out

- Permissions, audit entries, safety policies' limits other than the tool budget, provenance and dashboards: they do not change the modelled state.
- HTTP routes other than the change of an outbox message's status, OAuth, sockets, the SMTP, IMAP, Qdrant and OpenAI clients: each call is one atomic step with an arbitrary outcome; a failed provider call of the indexer may have taken effect in part.
- Hashes, ids and times: a document hash is an arbitrary value passed with the write, a point id is the tuple it is hashed from, times are integers, and one call reads the clock once.
- Postgres: only atomic calls, the version guard and the uniqueness of active jobs are taken from it; writes follow the memory store, where a deleted path gets a fresh id.
- `enqueueRagJob`: delete jobs come only from a deletion of the path.
- The order of a move or a reindex, which depends on collation: it is a parameter, and any order of the documents is allowed.
- The job deadline inside the indexer is one more way for a call to throw.
- `updateRagIndexHealth` and progress events: telemetry.
- Full CommonMark: the model has the code's own heading and fence line tests, which differ from sections 4.2 and 4.5 of CommonMark 0.31.2.
- `toLowerCase` beyond the letters it can turn into a to z: no other character reaches a slug or a comparison.
- Chunk metadata made from the path and the title.
- The excerpt that a search result shows of its chunk, and the date a failed index job is retried at, which is a parameter of the failure.
- Redaction of snapshots before a diff.
- Validation of list paths, the names of the known lists, search over lists and the update of an item; an addition that conflicts with a concurrent write.
- A list item on a string with lone surrogates: strings here are sequences of characters.
- A server that reports no UIDVALIDITY, and a mailbox renumbered while it is open.
- The date in `last_received_at` is an integer or absent; invalid date strings are not modelled.
- Parsing of messages, sender classification and attachments: a message is handled, fails in its source, or fails otherwise.
- Prompt building, the repair of tool arguments and the synthesis of answers: each may succeed, fail or throw. `finishAgentRun` and the recording of a rejected or failed call are taken not to throw.
- The wording tests for mutation commands, delegation and refusals: arbitrary predicates.
- Outbound messages queued as already sent or sending; and what happens to a message while the provider is being called, which is one step: a decision that lands then is overwritten by the outcome.
- The text of an approval: editing one rejects its message and queues a new one, which is how the model has it.
- RagAttempts.BoundedAttempts: for a single worker, as the service runs it; with several workers a lease can expire while its holder lives.
