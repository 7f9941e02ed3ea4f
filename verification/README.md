# Verified model of the document platform's stateful algorithms

This Dafny project models the algorithms below the API of the document platform (upload, ingestion,
retrieval, rate limiting, connectors, sessions) and proves what they keep over every input, every
interleaving and every run. `dafny verify dfyconfig.toml` checks the whole project.

## What is modelled

**Ingestion pipeline.** `Pipeline` describes one attempt as steps over committed database states:
document, job, chunk and dead-letter rows, and the vectors, which live outside the database and are
never rolled back. A worker edits mapped rows in a session; a commit issues an update only for a row
that changed, so a deleted document shows up as a stale update, as an integrity error on an insert, or not
at all; and it refuses values no column can hold: a NUL character, a section reference of over 255
characters. `PipelineRuns` puts attempts under the Celery queue: ticks, deletion between any two
commits, reprocessing, killed workers and repeated deliveries, in any order. `PipelineWorker` is the
imperative code, from the commits up to the deliveries of a task, proved to be a run of the protocol.
`PipelineOutcomes` reads off the surroundings how an attempt ends and what it leaves; `PipelineTheorems`,
`PipelineRetries` and `PipelineCompleted` hold the promises over whole runs, `Uploads` ties them to the
parser and the chunker. How the queue reports exhausted retries is a parameter (`Exhaustion`): the Celery
task waits for one exception, while a retry with an explicit cause is documented to raise that cause.

**Rate limiters.** `SlidingWindow` models the sorted-set log as events: the atomic transaction, the
separate removal of a rejected member, lost replies, lost removals, an unreachable server and the expiry
of the key, in any interleaving. `TokenBucket` models the in-process bucket in real arithmetic, as written
and in the variant that stamps its refill time after the sleep.

**Parsing and chunking.** `Text`, `Parsing`, `Windows` and `Chunking` model plain-text and Markdown
sections, greedy packing, overlapping windows, trimming and the tail merge, with an abstract token
counter; bounds in tokens use the fallback counter `max(1, len / 4)`.

**Retrieval.** `Retrieval` models both searches as filtered top-k over one total order, the merge
and the stable sort; `Context` the greedy packing under the token budget.

**Embedding.** `Embedding` models batches, retries and usage records against a provider that may
answer each call differently.

**State over requests.** `Storage` (multipart assembly on two stores), `Graph` (MERGE statements and
restarts), `Connector` (sync), `Auth` (refresh-token rotation under commit and rollback).

## Where the code and its descriptions differ

- A retry does not resume. The module text of the worker (backend/ingestion/worker_flow.py:3-8) and
  docs/ingestion-pipeline.md:3 say that finished steps are skipped; the code only skips tags that
  are set, and redoes everything else with new chunk ids. `RetryTransparency` and `CompletedIsClean` show
  that the rows read the same all the same; `Good` states exactly which vectors remain.
- A task may end without a final status. `TerminalIff` gives the exact conditions: the queue raises the
  exception the Celery task waits for, the database can store what the file brings, and no tags are
  asked for whose answer it may refuse. `NulUpload` is an upload that never gets one: PostgreSQL refuses
  the NUL character, and the handler for other exceptions commits in the failed session
  (backend/ingestion/worker_flow.py:252-256).
- 1024 tokens are not a hard cap for chunks (docs/ingestion-pipeline.md:45). `CapIffAny` gives the exact
  condition for any counter, `CapIff` with the fallback counter, `CapExceeded` a chunk of 1042 tokens
  with the fallback counter.
- The assembled context may pass its budget (specs/007-chat-and-retrieval.md:31). With the fallback
  counter `BudgetKeptIff` gives the exact condition, `BudgetPassed` an instance.
- The token bucket grants twice its rate to back-to-back callers (`GrantBound`, `BoundIsTight`); it keeps
  the intended rate exactly for callers that pause for a full refill interval (`IntendedRateIff`), and in
  a single run as its ledger says (`RateLedger`).
- The source filter of a query does not reach the graph augmentation (`ExtrasIgnoreSources`,
  `FilterIsPassed`); no caller passes a filter today (backend/app/api/search.py:81,
  backend/app/services/chat_service.py:245 and 294).
- The graph can lower the confidence of an answer if only one or two base chunks fit its context, and
  lift it from zero if none does (`AnswerConfidence`, `GraphLowersConfidence`).
- The sliding window holds for its full minute only if no transaction lags behind its stamp
  (`FullWindowIff`). Calls are stamped by the client before the transaction runs, and the key expires by
  the server's clock (backend/app/core/rate_limit.py:36-46): with a lag of up to L exactly the windows of
  up to 60 - L seconds are kept (`WindowIff`). Clocks that run back break the full window even without
  the expiry (`UnexpiredWindowIff`).
- A negative embedding batch size reports success without embedding anything (`CompleteIff`,
  `NegativeBatch`).
- With a part missing, the file store leaves a truncated object and the bucket store the old one
  (`StoresAgreeIff`, `GapSeparates`).

## Model

| member | source | states |
|---|---|---|
| PipelineRuns.StepIsGood | backend/ingestion/worker_flow.py:132-258 | every stretch between two commits, whichever branch or exception it takes and whether or not the document is still there, keeps rows, session and vectors in agreement |
| PipelineRuns.UpsertedFrom | backend/ingestion/worker_flow.py:191-208 | zipping rows with vectors writes exactly the ids of the shorter list, each with its row's text and position, and leaves other points alone |
| PipelineRuns.NextKeepsGood | backend/ingestion/worker.py:15-24 | every event (step, delivery, retry, deletion, reprocessing, a worker lost between two commits or between upsert and commit, repeated delivery) keeps the invariant; vector ids are exactly the disjoint union of the ids sent by the attempts that reached the store |
| PipelineRuns.ReachableAgreement | backend/ingestion/worker_flow.py:161-240 | in every reachable state a completed document has completed embeddings, a chunk count equal to its rows, positions 0..n-1, the pieces of the file, and every row indexed under its own id and text exactly if the last embedding answer was not short |
| PipelineRuns.NoDocumentNoWrite | backend/ingestion/worker_flow.py:246-258 | no step writes a row once the document is gone |
| PipelineRuns.DeletedStaysDeleted | backend/app/services/document_service.py:188-191 | after a deletion no run brings back document, job, chunk or dead-letter rows |
| PipelineTheorems.OrphansAtMostOnce | backend/ingestion/worker_flow.py:187-208 | after a deletion at most one more upload of vectors happens, and only if the running attempt had not uploaded yet |
| PipelineRuns.AdvanceFits | backend/ingestion/worker_flow.py:242-258 | each way an attempt can end says what the rows hold: completed, gone, failed with one new dead letter, unfinished without one, or left where a value was refused that the file or a tag answer can bring |
| PipelineOutcomes.AttemptEndsAs | backend/ingestion/worker_flow.py:130-258 | from every state an attempt whose document stays ends as the first thing that fails or is refused says, named by step and fault, and leaves exactly the status, step, progress, embedding status, error and dead letters of that end: a crash while embedding leaves the embedding failed, any other crash as it was, a parse error one dead letter with the parser's step and message; a success has sent each vector that came back with position, text and tags |
| PipelineOutcomes.GoneStops | backend/ingestion/worker_flow.py:242-258 | a worker whose document was deleted ends quietly at the next update, by an uncaught error at an insert or at a write from an exception clause, and goes on where there is nothing to write |
| PipelineOutcomes.FailureIsRetried | backend/ingestion/tasks.py:43-48 | a transient failure is retried after 30, 60 and 120 seconds; the fourth marks document and job failed with one dead letter that names step and fault, and touches nothing else |
| PipelineOutcomes.ColumnsTake | backend/ingestion/worker_flow.py:161-180 | refused are exactly texts, tags and references with a NUL character and references of over 255 characters |
| PipelineRuns.RunKeepsAccounted | backend/ingestion/tasks.py:37-48 | at any point of any run the attempts are those of this delivery's retries plus the deliveries the broker repeated, and waits and dead letters match the progress of its task |
| PipelineTheorems.EveryTaskEnds | backend/ingestion/tasks.py:37-48 | under any deletions a task ends after one to four attempts with waits that are a prefix of 30, 60, 120, and its end is recorded as the outcome says |
| PipelineTheorems.TerminalIff | backend/ingestion/tasks.py:37-48 | a final status is guaranteed over all runs if and only if exhausted retries raise the exception the Celery task catches, the pieces or the parser's message can be stored, and no tags are asked for; if tag answers can be stored, the first two conditions are exact |
| PipelineTheorems.StuckRun | backend/ingestion/tasks.py:43-48 | for any file, stored or not, there is a run that uses up the retries and leaves the document unfinished when the cause is raised again |
| PipelineTheorems.RefusedRun | backend/ingestion/worker_flow.py:161-180 | a value the database refuses (parser message, tags, rows) leaves the document in mid-pipeline on the first attempt, without retry or dead letter, under either queue |
| Uploads.NulReachesRows | backend/app/services/parsing.py:44-49 | a NUL character in a text of short words survives parsing and chunking and reaches a row |
| Uploads.NulUpload | backend/ingestion/worker_flow.py:156-180 | such an upload is never finished, whatever the queue does |
| Uploads.NulExample | backend/app/services/parsing.py:44-49 | three characters are enough |
| PipelineRetries.AttemptView | backend/ingestion/worker_flow.py:105-258 | an undisturbed attempt succeeds if and only if nothing fails and nothing it brings to the database is refused, and then leaves the view that file, tags and entity count determine |
| PipelineRetries.RetryTransparency | backend/ingestion/worker_flow.py:105-258 | any number of transient failures at any steps and then a success leave the same status, tags (first useful answer), texts, positions, counts, hash and metadata as one clean attempt, and neither touches the job's error or the dead letters |
| PipelineCompleted.CompletedIsClean | backend/ingestion/worker_flow.py:105-258 | in every state that any retries, lost workers, repeated deliveries and reprocessings lead to, a completed document reads exactly as the new document does after one clean attempt with the tags it has: the pieces, pages and hash of the stored bytes, or nothing and no hash if there are none |
| PipelineCompleted.AdvanceFitsRows | backend/ingestion/worker_flow.py:132-240 | no stretch of the worker changes tags that are set, stores rows the database would refuse, or says completed before steps, page count and job are final |
| PipelineTheorems.DriveIsRun | backend/ingestion/worker_flow.py:105-258 | one attempt, deletions included, is a run of the protocol's events |
| PipelineWorker.Worker.ReadBytes | backend/ingestion/worker_flow.py:135-139 | a file that cannot be read raises before anything is written; otherwise the parse status is committed, and the rest of the attempt is what the protocol leads to |
| PipelineWorker.Worker.ParseBytes | backend/ingestion/worker_flow.py:140-148 | an unparsable file raises the parse error, empty bytes skip the parser, otherwise the tagging status is committed |
| PipelineWorker.Worker.TagDocument | backend/ingestion/worker_flow.py:149-151 | tags that are set are kept; a blank text is not asked about; an answer is committed, or refused with nothing written |
| PipelineWorker.Worker.PersistChunks | backend/ingestion/worker_flow.py:156-180 | hash, replaced rows and count are committed together, or refused together, and the attempt goes on or ends as the protocol says |
| PipelineWorker.Worker.EmbedAndUpsert | backend/ingestion/worker_flow.py:187-210 | vectors and embedding status end as the protocol's embedding step says, on every answer of provider and store |
| PipelineWorker.Worker.StampJob | backend/ingestion/worker_flow.py:238-239 | the completion time is committed, and the attempt ends with the protocol's outcome |
| PipelineWorker.Worker.Run | backend/ingestion/worker_flow.py:105-258 | the imperative attempt, exception clauses included, ends in the state and with the outcome of the protocol; a value the database refuses passes both clauses and escapes |
| PipelineWorker.Worker.IngestDocument | backend/ingestion/tasks.py:37-48 | one delivery is a run of the protocol's events that keeps its invariant and its accounting; it ends the task or schedules the retry with the countdown the run records |
| PipelineWorker.Worker.RunTask | backend/ingestion/tasks.py:37-48 | delivered until it finishes, the task makes one to four attempts with waits that are a prefix of 30, 60, 120, and its end is recorded in the rows as the outcome says |
| SlidingWindow.NextKeepsGood | backend/app/core/rate_limit.py:39-54 | every event in any interleaving keeps the link between the set's members and the verdicts given: an admitted call is in the set, purged by a later one, or gone with the key, and no admitted call saw more than the limit |
| SlidingWindow.WindowSafety | backend/app/core/rate_limit.py:33-54 | under every interleaving, expiries of the key included, with timestamps at most `skew` out of order and at least 60 s less `skew` apart over an expiry, a window shortened by `skew` holds at most max(1, limit) admitted calls, and beyond those only calls that failed open |
| SlidingWindow.WindowIff | backend/app/core/rate_limit.py:33-50 | for every limit and lag, all runs whose transactions come at most `lag` after their stamps and whose key expires no sooner than 60 s after its last transaction keep the windows of a given width if and only if the width is at most 60 s less `lag`, or not positive |
| SlidingWindow.FullWindowIff | backend/app/core/rate_limit.py:33-50 | for every limit, all such runs keep the full window if and only if `lag` is zero |
| SlidingWindow.UnexpiredWindowIff | backend/app/core/rate_limit.py:36-50 | among runs in which the key never expires, all with clocks that run back by at most `skew` keep the full window if and only if `skew` is zero |
| SlidingWindow.BackwardsClockBreaksWindow | backend/app/core/rate_limit.py:36-50 | for every limit and every positive skew some run without expiry admits more calls than the limit in a full window |
| SlidingWindow.OverIffHeld | backend/app/core/rate_limit.py:41-50 | a call is counted over the limit if and only if `limit` slots of its window are held by admitted, failed-open or not yet removed calls |
| SlidingWindow.SerialExactness | backend/app/core/rate_limit.py:41-50 | one at a time, a call is rejected if and only if `limit` calls were admitted in the last minute |
| SlidingWindow.SerialRun | backend/app/core/rate_limit.py:33-54 | serial use stays in the states where the set is exactly the calls admitted in the last minute |
| SlidingWindow.ExpiryHiddenIff | backend/app/core/rate_limit.py:36-46 | for every limit, in all runs with this lag every call gets the verdict it would get if the key never expired, if and only if the lag is zero |
| SlidingWindow.KeyLimiter.EnforceNow | backend/app/core/rate_limit.py:33-54 | the in-place code has the effect of the protocol's events; it turns a call down if and only if server, reply and removal work and at least max(1, limit) members are younger than the window, and leaves the young members and, unless the call was turned down or its member removed, its own; without a server the set stays as it was |
| TokenBucket.AcquirePays | backend/app/services/llm_gateway.py:70-82 | each call pays one token out of what the bucket holds and what the elapsed time earns |
| TokenBucket.GrantBound | backend/app/services/llm_gateway.py:62-82 | over any serial run tokens stay in [0, capacity] and grants are at most capacity + 2·r·T as written, capacity + r·T if stamped after the sleep |
| TokenBucket.BoundIsTight | backend/app/services/llm_gateway.py:76-80 | back-to-back callers on a full bucket get exactly capacity + 2·m grants in m refill intervals |
| TokenBucket.IntendedRateIff | backend/app/services/llm_gateway.py:70-82 | for every capacity, all runs whose calls arrive at least `gap` intervals after the grant before them keep capacity + r·T if and only if `gap` is at least one interval |
| TokenBucket.RateLedger | backend/app/services/llm_gateway.py:70-82 | a run keeps capacity + r·T if and only if the sleeps asked for are covered by what overflowed, what was missing at first and what is left at last |
| TokenBucket.SleepsAreTheExcess | backend/app/services/llm_gateway.py:76-80 | grants exceed capacity + r·T by at most the sleeps of the calls before the last, so not at all if none of them sleeps |
| TokenBucket.Pacer.AcquireOne | backend/app/services/llm_gateway.py:70-82 | the in-place code, in seconds, takes the bucket to the state and the grant to the time of the specification; an empty bucket makes a call wait 60 / capacity seconds |
| Parsing.TxtKeepsWords | backend/app/services/parsing.py:44-49 | there is at least one section, and the sections hold the words of the text, all of them, in order |
| Parsing.TxtSections | backend/app/services/parsing.py:44-49 | the sections are untitled paragraphs without a blank line or blanks at the ends, or the whole of a blank text |
| Parsing.SectionsFromMarkdown | backend/app/services/parsing.py:66-83 | each section carries the nearest non-empty heading at or before its block and the block's body; a text without any gives one untitled section |
| Parsing.SectionHeading | backend/app/services/parsing.py:71-83 | a titled section is the body of a block under the last title set at or before it |
| Parsing.HeadingIff | backend/app/services/parsing.py:75-76 | a block is a heading if and only if the first character of its first line that is no blank is a number sign |
| Parsing.TitleIs | backend/app/services/parsing.py:77 | a title is its heading line without the marks in front and the blanks around it, and all of them are gone |
| Parsing.FirstLineIs | backend/app/services/parsing.py:75 | a line reaches up to the first line-end character, whichever of the ten it is |
| Parsing.MarkdownKeepsBodyWords | backend/app/services/parsing.py:71-82 | the sections hold the words of the blocks' bodies, all of them, in order |
| Parsing.BlockWords | backend/app/services/parsing.py:75-81 | a block loses the words of its heading line and no others |
| Parsing.MarkdownKeepsWords | backend/app/services/parsing.py:66-83 | the words of a document are those of its heading lines and bodies, block by block, and its sections hold those of all bodies in order, or the whole text if there is no body |
| Windows.SplitTokens | backend/app/services/chunking.py:55-73 | the loop gives the trimmed windows at every 336th word |
| Windows.PiecesAreWindows | backend/app/services/chunking.py:55-73 | there is one piece for every 336 words begun, the longest start of the 384 words from there within 1024 tokens, or one word |
| Windows.Trimmed | backend/app/services/chunking.py:67-70 | cutting the text at its last space leaves the join of the words that `Kept` counts, whole words only |
| Windows.KeptIsLongest | backend/app/services/chunking.py:67-71 | a piece is the longest prefix of its window within 1024 tokens, or a single word, for any counter |
| Windows.HeadsRebuild | backend/app/services/chunking.py:55-73 | the first 336 words of all pieces give the text back if and only if no window is trimmed below the step |
| Windows.SurvivesIff | backend/app/services/chunking.py:66-72 | with any counter a word is kept if and only if its own window or the one before reaches it |
| Windows.LostAreTrimmedGaps | backend/app/services/chunking.py:66-72 | with a monotone counter the words lost are exactly those between the end of a trimmed piece and the next window |
| Windows.ShortWordsAllSurvive | backend/app/services/chunking.py:48-73 | with the fallback counter nothing is trimmed below the step if every word has at most 11 characters |
| Windows.TwelveCharactersLose | backend/app/services/chunking.py:48-73 | words of 12 characters that fill a step lose the last word before the next window |
| Chunking.Chunker.Emit | backend/app/services/chunking.py:85-94 | every piece becomes a chunk with the next number, its own count and the reference |
| Chunking.Chunker.Flush | backend/app/services/chunking.py:82-95 | a flush appends the numbered pieces of the buffer, none for a blank one, and empties it |
| Chunking.Chunker.AddSection | backend/app/services/chunking.py:98-103 | a section either joins the run under construction or closes it and starts the next, by the token target |
| Chunking.Chunker.ChunkText | backend/app/services/chunking.py:76-112 | the loop over sections with its flushes and the merge gives the chunks of the packed runs, the tail merged |
| Chunking.Chunker.MergeTail | backend/app/services/chunking.py:106-111 | a short last chunk joins its predecessor, which is counted again; everything else stays |
| ChunkingTheorems.PackPartitions | backend/app/services/chunking.py:97-104 | packing cuts the sections into consecutive runs, none dropped, repeated or moved |
| ChunkingTheorems.PackIsGreedy | backend/app/services/chunking.py:98-103 | no run is cut early, and each but the last is closed because with the next section it would count over 512 tokens |
| ChunkingTheorems.BufferKeepsWords | backend/app/services/chunking.py:102 | a buffer holds the words of its sections, in order |
| ChunkingTheorems.TxtWordsReachRuns | backend/app/services/chunking.py:97-104 | the runs of a text document hold exactly the words of the text |
| ChunkingTheorems.MarkdownWordsReachRuns | backend/app/services/chunking.py:97-104 | the runs of a Markdown document hold exactly the words of its bodies |
| ChunkingTheorems.TxtRoundTrip | backend/app/services/chunking.py:55-104 | with words of at most 11 characters, reading the text of every chunk up to the next window gives back the document word for word |
| ChunkingTheorems.MarkdownRoundTrip | backend/app/services/chunking.py:55-104 | the same for the bodies of a Markdown document |
| ChunkingTheorems.MergeKeepsWords | backend/app/services/chunking.py:106-111 | the tail merge adds no word, drops none and moves none |
| ChunkingTheorems.ChunkOfRun | backend/app/services/chunking.py:82-104 | before the merge every chunk holds consecutive words of one run and carries the first non-empty reference of that run's sections, or none if they have none |
| ChunkingTheorems.ChunkRefs | backend/app/services/chunking.py:76-112 | so does every chunk of a document; a merged chunk keeps the reference of its first part |
| ChunkingTheorems.MarkdownChunkHeading | backend/app/services/chunking.py:97-104 | for a Markdown document that reference is the nearest title at or before the first titled text of the run |
| ChunkingTheorems.RunRefIsFirst | backend/app/services/chunking.py:99-104 | a run under construction is labelled with the first non-empty reference in it |
| ChunkingTheorems.MultiSectionBound | backend/app/services/chunking.py:99-103 | with the fallback counter a buffer of several sections has at most 513 tokens |
| ChunkingTheorems.TextChunksConsistent | backend/app/services/chunking.py:76-112 | after the merge positions are 0..n-1 and every count is the count of its text |
| ChunkingTheorems.ChunksFit | backend/app/services/chunking.py:66-71 | before the merge every chunk is within 1024 tokens or a single word |
| ChunkingTheorems.CapIffAny | backend/app/services/chunking.py:66-112 | with any counter all chunks keep the cap if and only if, without a tail merge, every window has a fitting start, and with one, the chunks before it and the joined text fit; if every window has a fitting start the merge alone decides |
| ChunkingTheorems.MergedSize | backend/app/services/chunking.py:106-111 | a merged chunk has at most 1075 tokens, and passes 1024 if and only if the joined texts reach 4100 characters |
| ChunkingTheorems.StartsFitIff | backend/app/services/chunking.py:65-72 | the words that windows start with are those at multiples of 336 |
| ChunkingTheorems.CapIff | backend/app/services/chunking.py:76-112 | with the fallback counter all chunks of a document keep the cap if and only if no window starts with a word of over 4099 characters and no tail merge joins texts that reach 4100 |
| ChunkingTheorems.CapExceeded | backend/app/services/chunking.py:106-111 | a document whose only chunk has 1042 tokens |
| Retrieval.SortIsStable | backend/app/services/retrieval_service.py:97 | the sort orders by falling score, keeps every chunk, and keeps ties in their order |
| Retrieval.Merge | backend/app/services/retrieval_service.py:76-98 | the loop and the sort give the sorted union of the base and the unseen extras; a graph failure leaves the base |
| Retrieval.ExtraIsBelow | backend/app/services/retrieval_service.py:82-93 | an extra hit exists only behind a full base, and scores no higher than any base hit |
| Retrieval.AugmentationAppends | backend/app/services/retrieval_service.py:73-98 | with exact search and no source filter the answer is the base followed by the extras and the sort is the identity |
| Retrieval.ConfidenceUnchanged | backend/app/services/retrieval_service.py:101-104 | for three hits or more augmentation does not change the mean of the first three retrieved chunks |
| Context.ExtrasComeLast | backend/app/services/retrieval_service.py:107-130 | packing the base with extras behind it uses the same base chunks as packing the base alone |
| Context.AnswerConfidence | backend/app/services/chat_service.py:245-250 | if a base chunk fits the context the graph can only lower the confidence an answer reports, and leaves it alone if and only if three base chunks fit, no extra does, or the first three used tie; if none fits it lifts it from zero to at least the threshold |
| Context.GraphLowersConfidence | backend/app/services/chat_service.py:245-250 | five base hits at a budget of 8000, three of them too long, and one extra that scores lower: the confidence falls |
| Retrieval.ExtrasIgnoreSources | backend/app/services/retrieval_service.py:84-90 | with a source filter a chunk of another source is in the answer if and only if the second search finds it |
| Retrieval.FilterIsPassed | backend/app/services/retrieval_service.py:84-90 | two chunks and a filter that the second one passes by way of the graph |
| Retrieval.ApproximateStillSound | backend/app/services/retrieval_service.py:73-98 | whatever an approximate search returns, the answer is sorted, distinct, above the threshold, at most five longer than asked for, and keeps the base |
| Context.AssembleContext | backend/app/services/retrieval_service.py:107-130 | the loop keeps the chunks that still fit when offered in rank order, reports their cost, and is truncated if and only if one was dropped; the string shows exactly the used chunks in order, a blank line between two, each with its document name, its reference if any, and its whole text |
| Context.TakenIsMaximal | backend/app/services/retrieval_service.py:117-129 | the packing is an increasing selection within the budget, and no dropped chunk would fit into what remains |
| Context.SumIsTotal | backend/app/services/retrieval_service.py:123-129 | the reported total is the cost of the chunks that were used |
| Context.JoinedTokens | backend/app/services/retrieval_service.py:123-130 | with the fallback counter the string counts exactly the total plus a quarter of leftovers and newlines, at most (5n - 2) / 4 more |
| Context.BudgetKeptIff | backend/app/services/retrieval_service.py:123-130 | the string keeps the budget if and only if leftovers and newlines fit into what the packing left |
| Context.BudgetPassed | backend/app/services/retrieval_service.py:123-130 | two distinct chunks of 515 characters fill the smallest budget of 256 and count 258 when joined |
| Embedding.SettlesIff | backend/app/services/llm_gateway.py:45-56 | a batch is answered if and only if a good answer comes within three calls with only transient failures before it |
| Embedding.ThirdCallAnswers | backend/app/services/llm_gateway.py:45-56 | two transient failures and an answer: three calls with sleeps of 2 and 4 |
| Embedding.ThirdFailureEnds | backend/app/services/llm_gateway.py:45-56 | three transient failures end the batch after the same sleeps |
| Embedding.PermanentFailureEnds | backend/app/services/llm_gateway.py:45-56 | any other failure ends it after one call |
| Embedding.AnswerIsRecorded | backend/app/services/llm_gateway.py:205-214 | a batch returns the vectors of its last call and records the usage of that call |
| Embedding.BatchesAreCeiling | backend/app/services/llm_gateway.py:197-198 | stepping through n texts makes ceil(n / batch) batches |
| Embedding.EveryTextMatched | backend/app/services/llm_gateway.py:182-215 | whatever relation every answer keeps between its texts and vectors, the whole output keeps position by position |
| Embedding.RefinesMap | backend/app/services/llm_gateway.py:182-215 | output i is the embedding of text i for every length, batch size and pattern of retries |
| Embedding.CompleteIff | backend/app/services/llm_gateway.py:190-197 | a successful call embeds every text if and only if the batch size is positive or there is none |
| Embedding.NegativeBatch | backend/app/services/llm_gateway.py:190-197 | one text at batch size -1: success without a vector or a call |
| Embedding.ZeroBatch | backend/app/services/llm_gateway.py:190-197 | a batch size of zero raises, unless there is nothing to embed |
| Embedding.Accounting | backend/app/services/llm_gateway.py:197-214 | success means ceil(n / batch) acquisitions and usage records; a failure stops at the first unanswered batch; at most three provider calls for one acquisition, one sleep for each repeated call |
| Embedding.AlwaysSucceeds | backend/app/services/llm_gateway.py:45-56 | a provider that recovers within three calls never fails an embedding |
| Embedding.Gateway.WithRetry | backend/app/services/llm_gateway.py:45-56 | the retry loop gives the settled answer and makes the calls and sleeps (2, 4) the specification says |
| Embedding.Gateway.OneBatch | backend/app/services/llm_gateway.py:198-214 | a batch takes one acquisition and, if answered, adds one usage record |
| Embedding.Gateway.Embed | backend/app/services/llm_gateway.py:182-215 | the loop over batches gives the result and the trace of the specification, for every batch size |
| Storage.PartPathIsInjective | backend/app/stores/storage.py:57-64 | different parts have different paths, whatever the upload is called |
| Storage.BuiltPathIsNoPart | backend/app/stores/storage.py:20-21 | documents and parts do not share paths |
| Storage.BuildPathIsInjective | backend/app/stores/storage.py:20-21 | different documents have different paths, whatever their files are called |
| Storage.PathsAre | backend/app/stores/storage.py:57-64 | a part and a document, by their paths |
| Storage.RoundTrip | backend/app/stores/storage.py:57-113 | bytes cut into parts and saved in any order, with overwrites and among other uploads, are assembled by both stores to the original, and no other path changes |
| Storage.StoresAgreeIff | backend/app/stores/storage.py:60-66 | the stores end alike if and only if no part is missing or the object already held the parts up to the gap |
| Storage.GapSeparates | backend/app/stores/storage.py:60-66 | an object that exists and its only part missing: the file store leaves it empty, the bucket as it was |
| Storage.LatestIsStored | backend/app/stores/storage.py:57-58 | after any saves a part's path holds the data last saved under that upload and number |
| Storage.LocalStorage.CompleteMultipart | backend/app/stores/storage.py:60-66 | the append loop leaves the parts up to the first gap, and succeeds if and only if there is none |
| Storage.S3Storage.CompleteMultipart | backend/app/stores/storage.py:105-110 | the buffer loop writes all parts or, at a gap, nothing |
| Storage.LocalStorage.FinishUpload | backend/app/api/ingest.py:57-62 | the last part is saved under the number given or else the last one, the object assembled, and its size reported if and only if no part is missing; with no number given the object ends with the data uploaded |
| Storage.S3Storage.FinishUpload | backend/app/api/ingest.py:57-62 | the same on the bucket, which a missing part leaves alone |
| Graph.NodesAfter | backend/app/stores/graph_store.py:79-114 | an upsert adds exactly the extracted entities; the relation loop creates no node |
| Graph.EdgesAfter | backend/app/stores/graph_store.py:79-114 | mentions carry this chunk and the confidence they had, or 1.0; an edge named here belongs to this document with the confidence named last, any other is as it was |
| Graph.RelationGivesEdge | backend/app/stores/graph_store.py:93-114 | a relation whose ends were extracted gives an edge from its source to its target, each with the type last extracted for its name |
| Graph.EdgeComesFromRelation | backend/app/stores/graph_store.py:93-114 | and every new or changed edge comes from such a relation |
| Graph.OnlyStaleDiffers | backend/app/stores/graph_store.py:63-114 | an upsert after anything differs from the upsert alone only at keys that were written before and are not written again |
| Graph.RestartConverges | backend/app/stores/graph_store.py:63-114 | after attempts with the same findings, each broken off anywhere and with its own chunk and tags, one complete upsert leaves the graph of a single clean one |
| Graph.StaleNodesStay | backend/app/stores/graph_store.py:79-90 | with other findings a restart keeps the old nodes, and converges on nodes if and only if they were all there or found again |
| Graph.StaleEdgesStay | backend/app/stores/graph_store.py:79-114 | and keeps every old mention and relation, converging on edges if and only if they were all there or found again |
| Graph.GraphStore.UpsertGraph | backend/app/stores/graph_store.py:51-116 | the two loops issue the statements of the extraction, up to the one that fails |
| Connector.SyncConserves | backend/app/services/connector_service.py:190-256 | created, skipped and failed add up to the ids requested; the workspace gains exactly as many documents and external ids as were created; ids stay unique, repeated ids included |
| Connector.BrokenStays | backend/app/services/connector_service.py:193-238 | once the database fails, every later file of the sync fails and nothing is written |
| Connector.SkippedWhilePresent | backend/app/services/connector_service.py:195-197 | an id whose document exists is skipped at every position it stands at |
| Connector.SyncedExactly | backend/app/services/connector_service.py:193-231 | after a sync the workspace has exactly the external ids it had and those the drive gave before the session broke, if it did |
| Connector.CreatedExactly | backend/app/services/connector_service.py:193-231 | a sync creates exactly the files that the drive gives before the session breaks and the workspace does not have |
| Connector.CountsAre | backend/app/services/connector_service.py:193-238 | while the session holds exactly the known, oversized and unsupported files are skipped, and exactly the new ones without metadata or that do not arrive fail; from where it breaks all fail |
| Connector.RepeatCreatesNothing | backend/app/services/connector_service.py:166-256 | a sync after another, whatever drive and database answer either time, creates nothing and changes no row if and only if the drive gives nothing that the workspace did not have and the first sync did not get |
| Connector.SameSyncAgain | backend/app/services/connector_service.py:166-256 | repeating a sync whose session held, against a drive that answers as before, changes no row |
| Connector.RunKeepsUnique | backend/app/services/connector_service.py:166-256 | over any syncs, deletions and uploads external ids stay unique and a document stays until it is deleted |
| Connector.Service.Sync | backend/app/services/connector_service.py:177-256 | the loop ends in the state of the specification and reports its counters, or raises at the final commit if the session broke |
| Auth.RefreshIff | backend/app/services/auth_service.py:163-179 | a refresh succeeds if and only if the token is known, unrevoked and unexpired and its user active and placed; it trades the token for a fresh one of the same user, good for thirty days, and touches no other; a refusal says why |
| Auth.LoginIff | backend/app/services/auth_service.py:134-160 | a login succeeds if and only if the checks pass and a user of that address is active and placed; it adds one fresh token of that user, good for thirty days; a refusal changes nothing and does not tell a wrong password from an unknown address |
| Auth.RegisterIff | backend/app/services/auth_service.py:72-112 | a registration succeeds if and only if no user has the address; it adds the user and one token; a refusal changes nothing |
| Auth.LogoutIff | backend/app/services/auth_service.py:182-193 | a logout always succeeds and revokes the token at hand, if it is unrevoked, and no other |
| Auth.NextKeepsGood | backend/app/services/auth_service.py:72-191 | every request, committed or rolled back, keeps the unrevoked tokens equal to the current tokens of the open sessions |
| Auth.OneTokenPerSession | backend/app/services/auth_service.py:163-191 | at any point of any run a session has exactly one unrevoked token until an effective logout, and none after |
| Auth.ConsumedOnce | backend/app/services/auth_service.py:163-179 | a token is consumed by at most one successful refresh, and by none after its revocation |
| Auth.TokensBalance | backend/app/services/auth_service.py:59-191 | unrevoked tokens number the registrations and logins less the effective logouts |
| Auth.TokensFromStart | backend/app/services/auth_service.py:59-191 | counted from an empty database |
| Auth.RollbackKeepsToken | backend/app/core/database.py:60-69 | a refresh that raises after revoking leaves the token usable, because the request rolls back |
| Auth.Service.LogIn | backend/app/services/auth_service.py:134-160 | every refusal leaves the session alone; otherwise one token is added for the one user of that address |
| Auth.Service.RefreshToken | backend/app/services/auth_service.py:163-179 | the in-place code leaves the session state and the result of the specification, the early revocation included |
| Auth.Service.ServeRequest | backend/app/core/database.py:60-69 | a request that returns commits its work, one that raises or fails to commit leaves the database as it was |

## Left out

Assumptions of the models:

- One task per document runs at a time, and nobody edits tags or other columns of the document while it runs; two workers on one document are not modelled, as no lock orders them.
- Refreshes, syncs and registrations run one after the other; concurrent requests could break the uniqueness the services check without locks.
- Chunk, document and token ids are drawn once (counters stand for random ids); hashes are injective; e-mail addresses are in lower case.
- A vector upsert takes effect as a whole or not at all, before or after an error is raised; the vector, graph and object stores themselves are not part of this model.
- A message is repeated only after its worker is lost, and no retry was published before that.
- A database error while syncing is not followed by a successful statement in the same session.
- A sleep lasts at least as long as asked for; floating point is modelled as real arithmetic, and the rounding of the confidence to four digits is left out.
- Text is a sequence of code points already decoded from UTF-8; stored files are decoded elsewhere. Lone surrogates, which a tag answer may hold and the database refuses like NUL, are no characters here.
- MERGE finds or creates by its keys, so a key names one node or edge; writes by other documents between the statements of an upsert are not modelled.

Weaker than the source:

- PipelineTheorems.EveryTaskEnds: is about runs without killed workers and repeated deliveries, which `PipelineRuns.RunKeepsAccounted` counts. An outage of the database leaves the rows a killed worker leaves, and may end a task without a final status, as may a lost message.
- PipelineTheorems.TerminalIff: is about the same runs.
- PipelineRetries.RetryTransparency: is about attempts without a deletion, since those leave no document to compare.
- Connector.SameSyncAgain: is about a drive that answers the same for the same id and a first session that held; `Connector.RepeatCreatesNothing` is about any two syncs.
- Graph.RestartConverges: holds for the same findings; extraction is an outside model and may differ between attempts, which `Graph.StaleNodesStay` and `Graph.StaleEdgesStay` cover.
- Storage.LocalStorage.CompleteMultipart: is stated for an object that is none of the parts it is assembled from, as no path of `build_path` is: such a part would be emptied first and then read while writes to it are buffered. Directory traversal in names is not modelled.

Not modelled:

- CSV and spreadsheet chunking, which batches rows by fifty, and the Docling conversion that yields the Markdown.
- The tiktoken counter: statements about any counter or any monotone counter cover it only as far as they go.
- The texts of outside exceptions other than the parser's, which are taken to be storable, exception names, and log lines.
- Limits of other columns: counts fit their integers, and pieces stay below the size limit of a text.
- The time limits of the queue, which stop a task at any point.
- Usage rows are counted when they are handed over; their best-effort writing may drop one.
- Tagging, entity extraction and the graph update inside the pipeline are answers from outside; their usage rows are not followed.
- Login lockout and password checks enter as one yes-or-no answer, since their counters are rolled back with the failed request.
- Chat history, dashboards, settings, API-key management, list filters and the routers: they hold no algorithm of this kind.
- Deleting a document leaves its stored file and its graph nodes; only its rows and vectors are followed.
