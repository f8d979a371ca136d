# littup, modelled and proved in Dafny

littup turns scanned documents into text blocks and chunks, retrieves chunks, drafts sections with
citations through language models, and validates them. This project models the algorithms and protocols
it rests on, and proves what they promise for every input, every run and every reachable state.

`dafny verify dfyconfig.toml` checks all of it.

| files | what they hold |
|---|---|
| `edit_distance.dfy` | the two-row edit distance, against shortest chains of edits |
| `chunker.dfy` | sentence splitting and the overlapping paragraph splitter, with the exact condition under which it ends |
| `job_queue.dfy`, `job_runs.dfy` | the job table, and runs of workers over it with leases, crashes and reclaims |
| `budget.dfy`, `router.dfy` | the sliding-window budget and the failover router that spends from it |
| `citations.dfy`, `claims.dfy`, `validator.dfy`, `generator.dfy` | citation tags: scanning, stripping, claims, validation, truncation |
| `events.dfy`, `sse.dfy`, `stream.dfy` | the event log under row locks, event-stream framing, and the stream from commit to client |
| `ordering.dfy`, `grouping.dfy`, `layout.dfy`, `layout_blocks.dfy`, `orphans.dfy` | from OCR spans to text blocks |
| `fusion.dfy`, `retriever.dfy` | rank fusion, bonus and cap |
| `registry.dfy` | versioned templates and their cache |
| `block_edits.dfy`, `reembed_runs.dfy` | the cascade of a block edit, the re-embedding of its chunks, and runs that interleave the two |
| `text.dfy` | Python's white space, `split`, `strip` and `join` on character sequences |
| `common.dfy` | options and sequence prefixes, shared by the other files |

Functions that answer for a language model, an embedder, a tokenizer, a clock, a hash or a JSON encoder are
parameters, and every statement holds for all of them. Objects whose methods change fields in the code are
classes here; their methods are tied to functions of the old state, and the lemmas are about those functions.

Some promises turn out to hold only under a condition. Those are stated exactly:

* The paragraph splitter does not end on every input (`Chunker.TerminatesIff`, `Chunker.StuckExample`). Its own
  description promises chunks of at most the maximum; a single sentence above it is a chunk all the same.
* `complete` and `fail` look at neither owner nor status, so exclusivity needs the lease at each reclaim
  (`JobRuns.ReclaimSafeIff`); waiting for a permit is enough to lose it (`JobRuns.WaitingLosesTheLease`).
* `attempts` can reach one even if `max_attempts` is below one, because a claim does not look at the maximum
  (the allowance in `JobRuns.AttemptsCountClaims`).
* Replacing a reservation takes out the newest event of equal value, so short calls can end above the cap
  (`Budget.ShortCallsExceedCap`); `Budget.ReplaceWithinCapIff` says exactly when the call leaves it.
* Removing a tag can spell a new one (`Citations.StripExact`, `Citations.StrippingCanMakeATag`), and then a
  second strip may change the text again (`Citations.StripTwice`).
* A frame is heard as sent only for one-line names and data without other line breaks (`Sse.RoundTripIff`).
* By section 9.2.6 of the HTML Living Standard a blank line sets the last event id to a buffer that is empty
  at first, so a connection that carried keepalives only makes a client forget its id and start over, unless
  the client fills that buffer with the id it has (`Stream.ConnectionHears`).
* A merged block's box may miss the top of what it absorbed (`Orphans.MergedBoxCoversIff`), and if blank
  blocks were not dropped first, orphans could remain (`Orphans.MergingSettlesIff` says when).
* `fetch_k` is looked at after a candidate is taken, so at least one is returned (`Retriever.CapHolds`).
* The template cache is filled before the caller commits (`Registry.RollbackFitsIff`).
* A re-embed job that reads before an edit and writes after it can leave a stale vector with no job left
  (`ReembedRuns.LateWriteIsStale`); a check of the text at each write is exactly what is missing
  (`ReembedRuns.AlwaysCurrentIff`).

## Model

| member | source | states |
|---|---|---|
| EditDistance.Levenshtein | eval/run_edit_improvement.py:29-46 | For all strings the two-row loop, with its argument swap and row swap, returns the length of a shortest chain of single-character insertions, deletions and substitutions from one to the other |
| EditDistance.DistIsEditDistance | eval/run_edit_improvement.py:36-45 | The recurrence the table follows is attained by a chain of edits, and no chain is shorter |
| EditDistance.DiagonalIsOptimal | eval/run_edit_improvement.py:39-43 | The shortcut on equal characters loses nothing: the cell is the least over all three neighbours even then |
| EditDistance.PathAtLeastDist | eval/run_edit_improvement.py:29-46 | No chain of edits, through whatever intermediate strings, beats the recurrence |
| EditDistance.EditDistanceMetric | eval/run_edit_improvement.py:29-46 | Edit distance is symmetric, zero exactly on equal strings, and obeys the triangle inequality |
| Chunker.SplitAtSentences | app/ingest/chunker.py:86-100 | Cutting at white space after sentence ends before capitals gives the trimmed non-blank pieces, in order |
| Chunker.CutIff | app/ingest/chunker.py:90-93 | A cut is where a capital letter follows white space that follows a full stop |
| Chunker.CutsAreAll | app/ingest/chunker.py:88-93 | The positions the text is cut at are its start, every cut, and its end |
| Chunker.SentencesArePieces | app/ingest/chunker.py:94-100 | The sentences are the trimmed pieces between neighbouring positions, without the blank ones |
| Chunker.SentencesConserveWords | app/ingest/chunker.py:86-100 | Sentence splitting loses and invents no word, and gives no sentence exactly for blank text |
| Chunker.SplitParagraphWithOverlap | app/ingest/chunker.py:103-154 | Where the loop ends at all, each chunk is the joined text of one span of the unique cover: within the maximum or a single oversized sentence, maximal, starting with the longest tail that fits the overlap budget; text without sentences comes back whole |
| Chunker.PackSentences | app/ingest/chunker.py:111-154 | The loop with its lists and counters follows the abstract passes state by state, and renders the spans they emit |
| Chunker.TerminatesIff | app/ingest/chunker.py:114-152 | The loop ends if and only if at every later sentence the kept tail is empty or has room for that sentence |
| Chunker.StuckState | app/ingest/chunker.py:128-143 | Without that room a pass emits the same chunk again and leaves every other part of the state as it was |
| Chunker.EnoughToAdvance | app/ingest/chunker.py:103-154 | It is enough that each earlier sentence exceeds the overlap budget or the next fits in maximum minus overlap |
| Chunker.StuckExample | app/ingest/chunker.py:103-154 | With a maximum of 800 and an overlap of 50, sentences of 40 and 790 tokens make the loop run forever |
| Chunker.CoverUnique | app/ingest/chunker.py:103-154 | The conditions on the spans determine them: there is one cover |
| Chunker.SharedWithinBudget | app/ingest/chunker.py:128-143 | Each chunk adds a new sentence, and what it shares with the chunk before is within the overlap budget |
| Chunker.ChunksConserveText | app/ingest/chunker.py:103-154 | Dropping what is shared and concatenating gives back the sentence list, hence every word of the text |
| JobQueue.Queue.Enqueue | app/jobs/queue.py:24-62 | A pending, unclaimed job with the given fields is inserted unless a job with its dedup key exists, which is then returned |
| JobQueue.Queue.ClaimOne | app/jobs/queue.py:64-96 | Takes the oldest unlocked claimable job of an allowed kind, and nothing only if there is none; one attempt is added |
| JobQueue.Queue.Heartbeat | app/jobs/queue.py:98-109 | Touches the row only while it is running for that worker |
| JobQueue.Queue.Complete | app/jobs/queue.py:120-135 | Sets completed whatever owner and status are, with a history entry |
| JobQueue.Queue.Fail | app/jobs/queue.py:137-163 | The row, and no other, is pending if the failure is retryable and attempts are left, and failed otherwise, with a history entry; neither owner nor status is looked at |
| JobQueue.Queue.RequestCancelForDocument | app/jobs/queue.py:165-188 | Flags exactly the pending and running jobs of the document |
| JobQueue.Queue.RequestCancelForDraft | app/jobs/queue.py:190-234 | Cancels the pending generation jobs of the draft, flags the running ones, and writes one history entry per cancelled job |
| JobQueue.Queue.Cancel | app/jobs/queue.py:245-259 | A pending or running row is cancelled, with a history entry; any other is left alone |
| JobQueue.Queue.ReclaimStuck | app/jobs/queue.py:261-279 | Requeues exactly the running jobs whose last heartbeat is older than the timeout |
| JobRuns.ExclusiveInEveryState | app/jobs/worker.py:68-151 | In every state of every run in which reclaims respect the lease, a job has at most one live executor, its row is running, and the executor is the row's worker |
| JobRuns.ReclaimSafeIff | app/jobs/queue.py:261-279 | A reclaim keeps exclusivity if and only if every live executor has beaten within the timeout |
| JobRuns.TerminalNeverLeft | app/jobs/queue.py:120-163 | Under the lease, completed, failed and cancelled are never left |
| JobRuns.AttemptsCountClaims | app/jobs/queue.py:64-96 | In every run attempts is the number of claims, at most the allowance (the maximum, or one if that is less) plus the number of reclaims |
| JobRuns.CancelFreezes | app/jobs/queue.py:165-188 | Once flagged, a job is never claimed again, attempts stands still, and it never enters running anew, even after reclaims and retryable failures |
| JobRuns.CancelledPendingIsStranded | app/jobs/queue.py:165-188 | A pending job flagged through its document, of a kind other than draft generation, stays pending in every run that keeps the lease: no step of the queue or the workers moves it on |
| JobRuns.TableInvariants | app/jobs/worker.py:52-65 | No kind has more handlers on a worker than its permits, four for embedding and few-shot indexing and two otherwise; dedup keys are unique; finished rows have an entry in the history that agrees with them |
| JobRuns.WaitingLosesTheLease | app/jobs/worker.py:82-90 | A run from the empty table in which a job waits for its permit, sends no heartbeat meanwhile, is reclaimed and is claimed again: two live executors of one row, though both handlers beat in time |
| JobRuns.CrowdedIsReached | app/jobs/worker.py:52-66 | Eight steps from the empty table lead to a worker with both permits taken and a third claimed job waiting |
| JobRuns.CompletedIsLeft | app/jobs/queue.py:120-163 | The run goes on: both executors start, one completes the job, and the late failure of the other takes it back to pending |
| JobRuns.FailureIff | app/jobs/queue.py:137-163 | In every run a failure leaves the job pending if and only if it is retryable and the job was claimed less often than its maximum, and failed otherwise; the history says which |
| JobRuns.FailedForGood | app/jobs/queue.py:150-159 | On runs that keep the lease, a job that failed with an error not retryable, or in its last attempt, is failed in every later state and never claimed again |
| JobRuns.TerminalIsLeftBy | app/jobs/queue.py:98-163 | Whatever the leases, only a second executor of the job that finishes or fails changes a terminal row: no beat, cancellation, reclaim or claim does |
| JobRuns.EndsAs | app/jobs/queue.py:120-259 | A finished handler leaves its job completed; one that saw a cancellation leaves it cancelled unless it had ended |
| JobRuns.HeartbeatIs | app/jobs/queue.py:98-109 | A heartbeat is set by a claim and by the beat of the worker that the running row names, cleared by a reclaim, and otherwise stands |
| JobRuns.DocumentIsCancelled | app/jobs/queue.py:165-188 | After a cancellation of a document no job of it is ever claimed again, and jobs of other documents are untouched |
| JobRuns.DraftIsCancelled | app/jobs/queue.py:190-234 | After a cancellation of a draft none of its generation jobs is pending or ever claimed again, and other jobs are untouched |
| JobRuns.CrashedComesBackIff | app/jobs/queue.py:261-279 | A job whose worker died is open again after a reclaim if and only if its last beat is more than 120 seconds old, with the attempts it had and without owner or beat |
| JobRuns.LostLeaseLeavesCompleted | app/jobs/queue.py:120-163 | With any two handlers on one row and attempts left, completing and then failing ends in pending |
| Budget.BudgetTracker.Prune | app/llm/budget.py:22-25 | Drops stale events from the front until the first fresh one |
| Budget.BudgetTracker.CurrentSpend | app/llm/budget.py:27-30 | The total after pruning |
| Budget.BudgetTracker.CheckAndReserve | app/llm/budget.py:32-41 | Reserves if and only if total and estimate are within the cap |
| Budget.BudgetTracker.ReplaceReservation | app/llm/budget.py:43-52 | Takes out the newest event of that value, if any, and puts in the actual cost |
| Budget.BudgetTracker.Add | app/llm/budget.py:54-57 | Appends without looking at the cap |
| Budget.RunWithinCap | app/llm/budget.py:22-57 | In any interleaving of reservations and replacements, each replacement finding its value and costing no more, the recorded total never exceeds the cap |
| Budget.ReplacedTotal | app/llm/budget.py:43-52 | What a replacement leaves recorded on a deque with its stale events first: the window, less the estimate if the event taken out was still fresh, plus the actual cost if the new event counts |
| Budget.ReplaceWithinCapIff | app/llm/budget.py:43-52 | So exactly when the recorded total is within the cap afterwards |
| Budget.RunStaysOrdered | app/llm/budget.py:32-52 | If no event is stamped earlier than one before, every deque of a run is in time order, so that condition is met at every replacement; the pruning may read the clock later |
| Budget.PruneKeepsWindow | app/llm/budget.py:22-25 | Pruning never drops an event of the last hour, whatever the order; it gives exactly the window if and only if the stale events come first |
| Budget.PruneExactIffOrdered | app/llm/budget.py:22-25 | Pruning is exact at every time if and only if the deque is in time order |
| Budget.EstimatesPresent | app/llm/budget.py:43-52 | While nothing expires every call in flight finds an event of its value: only expiry can lose one |
| Budget.ShortCallsExceedCap | app/llm/budget.py:43-52 | Two calls with equal estimates, both shorter than an hour and cheaper than estimated, end above the cap |
| Router.LLMRouter.Generate | app/llm/router.py:70-283 | Unknown tier, empty tier and unknown first provider make no call; a cache entry not yet expired is answered without calls; otherwise the provider loop over the override or the providers of the tier, told by its calls and by the recorded total, and a success is cached for the time to live |
| Router.LLMRouter.TryProviders | app/llm/router.py:115-283 | The nested failover and retry loops follow the abstract route; the calls made, the answer, and the growth of the recorded total by the cost that answer gives, or its estimate if it gives none, are stated on what is returned; a tier that bypasses the budget leaves it alone |
| Router.LLMRouter.Ask | app/llm/router.py:145-280 | A second attempt only after a schema violation, if the tier allows it |
| Router.RouteEnds | app/llm/router.py:115-283 | The loop ends at one position before which all failed; the recorded total grows by exactly the estimates of the reserved failures and, at a reserved winner, by the cost of the returned response, or the estimate if that is zero; a refusal means the next reservation would pass the cap |
| Router.FirstSuccessWins | app/llm/router.py:115-283 | With w the first provider in tier order that succeeds: its answer if and only if every reservation up to its own fits the cap, counting the estimates of the reserved failures before; otherwise the budget refuses |
| Router.NoSuccessAtAll | app/llm/router.py:115-283 | With none that succeeds: all failed if and only if every reservation fits, otherwise the budget refuses |
| Router.CallsBounded | app/llm/router.py:115-283 | No provider is called more than twice, and none after the one that succeeded |
| Router.RouteTells | app/llm/router.py:115-283 | Exactly the known providers up to the end are called, in order, each once more after a schema violation if there may be a retry; no call but the last was answered, and the result is its answer, marked as not from the cache |
| Router.BypassIsFree | app/llm/router.py:115-145 | A tier that bypasses the budget records nothing |
| Router.OwnReservationReplaced | app/llm/budget.py:43-52 | At a frozen clock a call replaces its own reservation |
| Citations.TagsDisjoint | app/draft/citations.py:7-9 | Two places where a tag matches are at least 44 characters apart |
| Citations.TagIff | app/draft/citations.py:7-9 | A tag is "[chunk:", a UUID and "]" |
| Citations.UuidIff | app/draft/citations.py:7-9 | A UUID is five groups of 8, 4, 4, 4 and 12 lower-case hexadecimal digits, with dashes between them |
| Citations.ParseFindsEveryTag | app/draft/citations.py:30-32 | The left-to-right scan reports every position of a tag, and only those, in order |
| Citations.RenderTokens | app/draft/citations.py:30-32 | Reading text as characters and tags and rendering it again changes nothing |
| Citations.ScanRendered | app/draft/citations.py:104-127 | Rendered tokens are read back as they were, unless plain characters spell a tag, and then more tags are read |
| Citations.ScanNeverSpells | app/draft/citations.py:30-32 | What a scan leaves as plain characters never spells a tag |
| Citations.StripDangling | app/draft/citations.py:104-127 | The cleaned text is the text without the tags that are not allowed; the dangling list is their ids in order |
| Citations.StripKeepsTheRest | app/draft/citations.py:104-127 | What a strip leaves is exactly the characters that stand in no tag outside the allowlist, in order |
| Citations.DanglingIsListed | app/draft/citations.py:109-114 | The dangling ids are those of the tags outside the allowlist at their positions, repeats included, in order |
| Citations.StripExact | app/draft/citations.py:104-127 | Parsing the stripped text gives exactly the allowed tags if and only if the remaining characters spell no tag |
| Citations.ScanFinds | app/draft/citations.py:104-127 | In rendered tokens a scan finds their own tags and those that plain characters spell, and no others |
| Citations.StripLeavesIff | app/draft/citations.py:104-127 | A strip leaves a text alone if and only if nothing in it dangles |
| Citations.StripTwice | app/draft/citations.py:104-127 | Nothing dangles after a strip, and a second one changes nothing, if and only if every tag spelled by the remaining characters is an allowed one |
| Citations.NothingSpelled | app/draft/citations.py:104-127 | For that it is enough that none is spelled |
| Citations.NoBracketStripsExactly | app/draft/citations.py:104-127 | It is enough that no literal piece holds an opening bracket |
| Citations.StrippingCanMakeATag | app/draft/citations.py:104-127 | Removing a tag can glue its neighbours into a new tag; unless that is allowed, a second strip takes the new tag away too |
| Claims.SegmentClaims | app/draft/citations.py:35-101 | Nothing for an empty text, one claim for a text without tags, otherwise one cited claim per tag and then the substantial sentences after the last tag, standing in order and disjoint |
| Claims.CitedClaimsTile | app/draft/citations.py:55-80 | Cited claims carry one tag each, their spans tile the text up to the last tag, and the claim's text is the last sentence before its tag |
| Claims.SentenceClaims | app/draft/citations.py:82-99 | The forward search places every trailing sentence, without overlap |
| Claims.TrailingIff | app/draft/citations.py:82-87 | There are uncited claims behind the last tag if and only if a character there is neither white space nor punctuation |
| Claims.ClaimTextsAre | app/draft/citations.py:87-99 | Exactly the sentences with such a character become claims, trimmed |
| Text.SentencePartsAreCut | app/draft/citations.py:13-14 | Sentences are cut exactly at the white space behind a full stop, an exclamation mark or a question mark |
| Claims.FoundInTime | app/draft/citations.py:88-99 | A trailing sentence is always found, no later than where it stands, so the fallback offsets are never taken |
| Validator.MergeIsWorst | app/draft/validator.py:98-108 | The merge is the maximum in severity order; an unknown word weighs as supported |
| Validator.ScreenClaim | app/draft/validator.py:142-164 | What is decided before the model is asked, and which pairs are left |
| Validator.CallLlmBatch | app/draft/validator.py:210-275 | Every pair of a batch adds one verdict to its claim: status and reason of the last entry with its index, or unsupported if there is none or the call failed, whatever entries have other indices |
| Validator.RunSemanticPass | app/draft/validator.py:197-208 | Batches of ten leave every claim as if its pairs were judged one by one in order |
| Validator.ValidateSection | app/draft/validator.py:119-195 | One report entry per claim, in order, concluded from what the replies say about its own pairs, entry by entry |
| Validator.OneStatusPerPair | app/draft/validator.py:119-275 | A claim ends with one status and one reason per cited source, or a single one if it cites none |
| Validator.SaysIff | app/draft/validator.py:256-275 | A pair has the verdict of the last entry with its index, and the unsupported one exactly if no entry has it or the call failed |
| Validator.StateTells | app/draft/validator.py:142-275 | Sources not retrieved count as unsupported; behind them stands, pair by pair, what was said about the claim; a substring match means that some retrieved source contains a term |
| Validator.AskedAboutRetrieved | app/draft/validator.py:142-164 | The model is asked about exactly the retrieved sources of each claim, in the order it cites them |
| Validator.BatchingIsPairwise | app/draft/validator.py:197-275 | Replies in batches and one reply per pair that say the same give the same states |
| Validator.ConcludedIsWorst | app/draft/validator.py:172-193 | A report entry carries exactly the worst of the claim's verdicts, never another word, and the first reason given with that status, or the very first one |
| Validator.ApplyReportToCitations | app/draft/validator.py:292-312 | Every citation takes status and reason of the first claim citing its chunk, or is unsupported |
| Generator.TruncateAtSentence | app/draft/generator.py:229-244 | The words are a prefix within the limit: the longest fitting run of leading sentences, or a cut after so many words if the first sentence does not fit |
| Generator.LongestFitUnique | app/draft/generator.py:229-244 | The number of sentences kept is determined by the limit |
| Generator.PrefixOfWordsIsPrefixOfTags | app/draft/generator.py:229-244 | A prefix in words is a prefix in tags: no tag is split, lost in between or made |
| Generator.FinishSection | app/draft/generator.py:184-226 | Strip, truncate above one and a half times the limit, parse: the stored citations are those of the stored text and a prefix of those of the stripped text |
| Generator.StoredCitationsAreAllowed | app/draft/generator.py:184-226 | Unless stripping spells a tag, stored citations are allowed ones, in the order of the raw text |
| Events.SequencesAreContiguous | app/ingest/events.py:27-64 | In every reachable state of any interleaving of transactions committed numbers are exactly 1..last_event_seq, and an insert never meets a number taken |
| Events.CommitAppends | app/ingest/events.py:27-64 | A commit appends what its transaction emitted, in order; no other step changes what readers see |
| Events.EmitAppends | app/ingest/events.py:27-64 | An emit returns the next number and adds exactly its event to what its transaction will commit, for its document only |
| Events.LogsGrow | app/ingest/events.py:27-64 | What is visible at one time is a prefix of what is visible later: nobody sees n+1 before n |
| Events.ReplayIsTheQuery | app/ingest/events.py:66-88 | On such tables the filtered, ordered, limited query has exactly one answer, the next slice of the log |
| Stream.StreamDocumentEvents | app/api/sse.py:83-118 | Keepalives aside, the frames are exactly the final log from the client's last id to the cursor, each event once, through failed polls and page limits, while transactions go on committing |
| Stream.CatchesUp | app/api/sse.py:83-118 | Each successful read works off a page of 1000 of any backlog |
| Stream.ConnectionHears | app/api/sse.py:40-118 | A client cut off after any number of characters heard exactly the log from its id up to some event, and its id then leads the server on behind that event if and only if it heard an event, or no frame, or was opened with the id in its buffer, or had none; otherwise the server starts from 0 |
| Stream.ResumeLeavesNoGap | app/api/sse.py:55-118 | Over any number of connections, each a stream from the id the client then has and cut anywhere: all that the client was told is the log up to its id, each event once and in order, if and only if the id survived each of them |
| Sse.Format | app/api/sse.py:40-52 | The fields are written line by line into the text of the frame |
| Sse.KeepaliveIff | app/api/sse.py:40-44 | Only a frame with neither id, name nor data is written as a keepalive |
| Sse.OneBreakTwoLines | app/api/sse.py:48-49 | Data is split at each of the line breaks of splitlines, a carriage return with its newline being one |
| Sse.HearsWholeFrames | app/api/sse.py:40-52 | With one-line event names a client hears exactly the frames that are whole, wherever the stream is cut, inside a frame too |
| Sse.EveryFrameArrives | app/api/sse.py:40-52 | Uncut, it hears every frame in order for any data, as its split lines joined by newlines; the last event id is the last one sent |
| Sse.HeardAsSentIff | app/api/sse.py:48-49 | Data is heard as sent if and only if newlines are its only line breaks and it does not end in one |
| Sse.RoundTripIff | app/api/sse.py:40-52 | Concatenated frames, read by sections 9.2.5 and 9.2.6 of the HTML Living Standard, give back id, name and data, keepalives aside, if and only if every name is a non-empty line and all data is of that kind |
| Sse.LastEventIdRoundTrip | app/api/sse.py:30-37 | The id of a frame comes back as the number it was made of |
| Sse.LastEventIdSigned | app/api/sse.py:30-37 | A plus is ignored; a negative number, text without a last digit, and no value at all mean 0 |
| Grouping.GroupedIff | app/ingest/layout.py:560-600 | The one-pass grouping is the only one that cuts the sequence into pieces where every element joins what precedes it there and every piece starts with one that would not |
| Layout.GroupIntoLines | app/ingest/layout.py:560-574 | The loop with its running mean is that grouping |
| Layout.LinesAreTight | app/ingest/layout.py:560-574 | Of spans that come top down, each top is within the tolerance below the mean of those before it in its line, and the next line starts below the mean by more |
| LayoutBlocks.PageLinesAreTight | app/ingest/layout.py:495-522 | That holds with a tolerance of 4 in every line of every page, whatever the input order |
| Layout.GroupLinesIntoBlocks | app/ingest/layout.py:577-600 | A line stays in the block of the line before unless the column changes or the gap is wide |
| Layout.SameBlockIff | app/ingest/layout.py:583-600 | A line stays in the block if and only if it is in the same column and some span of it starts no further than the threshold below some span of the line before |
| Layout.MedianHalves | app/ingest/layout.py:499-501 | At least half of the heights are at most the median, and at least half at least it |
| LayoutBlocks.MedianHeightHalves | app/ingest/layout.py:499-501 | The median height of a page is 12 without spans taller than 1, and otherwise halves those |
| LayoutBlocks.GroupsKnowTheirPage | app/ingest/layout.py:499-538 | Every text group is judged by the median height of its own page |
| Layout.DetectColumnSplit | app/ingest/layout.py:603-620 | The first qualifying gap of the sorted midpoints, or none |
| Layout.SplitSeparates | app/ingest/layout.py:603-620 | A split has a midpoint on either side and none within a tenth of the width |
| Layout.SplitIff | app/ingest/layout.py:603-620 | Of at least ten spans, the split is in the middle of the first gap between midpoints that is wider than a fifth of their range and has more than a tenth of it on either side |
| Layout.PageConserves | app/ingest/layout.py:495-528 | Lines, columns and blocks of a page hold its spans, each once |
| LayoutBlocks.GroupSpansIntoBlocks | app/ingest/layout.py:481-557 | The loops over pages and groups describe every group with text, page by page, numbered on |
| LayoutBlocks.EverySpanOnce | app/ingest/layout.py:481-557 | All groups of a document together are a permutation of its spans |
| LayoutBlocks.SpansKeptOrBlank | app/ingest/layout.py:527-531 | Each span is in exactly one block or in exactly one dropped group, which has no words |
| LayoutBlocks.BlocksAreTheGroups | app/ingest/layout.py:527-555 | The blocks are the groups with text, one each, in order, numbered from 0 |
| LayoutBlocks.BlockWords | app/ingest/layout.py:528-529 | A block has the words of its spans in order, their ids in order, and their page |
| LayoutBlocks.HeaderIff | app/ingest/layout.py:538-541 | A block is a header if and only if it has at most twelve words and its spans are on average taller than 1.35 median heights |
| LayoutBlocks.PageComesTopDown | app/ingest/layout.py:495 | The spans of a page come top down, and from left to right at one height |
| LayoutBlocks.ColumnsInOrder | app/ingest/layout.py:520-522 | Lines are ordered by column number, then from top to bottom |
| LayoutBlocks.LeftIsReadFirst | app/ingest/layout.py:503-522 | With a split, every line whose mean midpoint is left of it comes before every other line, and the lines of a side come from top to bottom; without one all lines do |
| LayoutBlocks.BlockOnOneSide | app/ingest/layout.py:511-524 | No block holds lines of both sides of the split, and in a block each line follows closely on the one before |
| LayoutBlocks.BlocksPart | app/ingest/layout.py:577-600 | A block ends where the next line does not follow closely |
| LayoutBlocks.BlockInOneColumn | app/ingest/layout.py:586-591 | The lines of a block are of one column |
| LayoutBlocks.BoxIsHull | app/ingest/layout.py:533-536 | The box contains every span and each side is attained by one |
| LayoutBlocks.BlocksInReadingOrder | app/ingest/layout.py:491-555 | Reading order is 0..n-1, pages ascend, and every group holds spans of its own page only |
| Orphans.MergeOrphanSingles | app/ingest/layout.py:635-657 | The in-place loop over the block objects computes the merge on their values, and returns blocks of the list |
| Orphans.PostProcess | app/ingest/layout.py:625-632 | Dropping, merging and renumbering in place |
| Orphans.MergingKeepsWordsAndSpans | app/ingest/layout.py:635-657 | The word sequence and the span-id sequence of the whole list stay the same |
| Orphans.AbsorbedMeans | app/ingest/layout.py:645-657 | The merged text is the text before without its trailing white space, a blank, and the orphan; kind, first page and place stay, and the last page is the later one |
| Orphans.MergingSettlesIff | app/ingest/layout.py:635-657 | No single-word paragraph is left after a paragraph or header, and merging again changes nothing, if and only if no blank paragraph behind a paragraph or header is followed by exactly one single-word paragraph |
| Orphans.MergingSettles | app/ingest/layout.py:635-657 | It is enough that all blocks have words |
| Orphans.BlankBlockBecomesOrphan | app/ingest/layout.py:635-657 | A list of three on which both fail: a paragraph, a blank one, one word |
| Orphans.PostProcessingSettles | app/ingest/layout.py:625-657 | After the blank ones are dropped they hold for any list, the order is 0..n-1, and a second pass changes nothing |
| Orphans.MergedBoxCoversIff | app/ingest/layout.py:651-656 | A merged box covers the orphan if and only if that starts no higher than the block: the top is not updated |
| Fusion.RrfFuse | app/retrieval/fusion.py:4-20 | Each id of the lists once, with the sum of weight over k plus rank, best first, ties as first seen; the default weights of three lists are 1, 1 and a half, and lists beyond the weights are ignored |
| Fusion.ScoresAreBounded | app/retrieval/fusion.py:14-18 | No score exceeds total weight over k + 1, attained by an id first everywhere |
| Fusion.DominanceIsKept | app/retrieval/fusion.py:14-20 | An id ahead of another in every list that has the other is ahead of it in the result |
| Fusion.TiesKeepTheirOrder | app/retrieval/fusion.py:20 | Equal scores stay in the order they were first seen |
| Fusion.SeenInOrder | app/retrieval/fusion.py:12-20 | Before they are sorted the ids stand in the order in which they are first seen, list after list |
| Fusion.EntityOverlapBonus | app/retrieval/fusion.py:23-34 | A chunk has a bonus if and only if an entity of it is one of the query in lower case, one share per match |
| Retriever.RankAndCap | app/retrieval/retriever.py:120-140 | Bonus, stable second sort and cap loop give the capped list |
| Retriever.CapPerDocument | app/retrieval/retriever.py:128-140 | The loop with its counters returns the eligible candidates up to the limit |
| Retriever.ReturnedIff | app/retrieval/retriever.py:128-140 | A candidate is returned if and only if its chunk was fetched, fewer than the cap of its document are better, and a place is left |
| Retriever.CapHolds | app/retrieval/retriever.py:128-140 | At most the cap per document, and at most fetch_k in all, or one if that is not positive |
| Retriever.EligibleOfDoc | app/retrieval/retriever.py:128-140 | Before the limit every document has as many places as it has candidates, up to the cap |
| Retriever.RankedIsDistinct | app/retrieval/retriever.py:126-130 | The second sort of a fused list has distinct ids, best first, so the statements on the cap apply to it |
| Retriever.ResultInOrder | app/retrieval/retriever.py:128-140 | The result keeps the order of the sorted list |
| Registry.AddedRow | app/draft/templates/registry.py:88-110 | A row under the next version parses to the template that goes into the cache, and keeps rows, versions and cache fitting |
| Registry.ParsedMeans | app/draft/templates/registry.py:145-206 | The prompt and rule columns override the stored body where they say something, and everything else is as the body has it |
| Registry.TemplateRegistry.SyncToDb | app/draft/templates/registry.py:56-120 | Every template of the registry is then the latest version of its id and cached; only templates that differ add a version, the next one; a second sync adds none |
| Registry.TemplateRegistry.GetLatest | app/draft/templates/registry.py:145-175 | The latest version, cached or parsed, with the fingerprint of its row; not found only if there is no row |
| Registry.TemplateRegistry.GetByVersion | app/draft/templates/registry.py:177-206 | The version asked for, with the fingerprint of its row |
| Registry.TemplateRegistry.AppendRules | app/draft/templates/registry.py:208-259 | One version more with the rules not known yet, or none; what is returned and cached is what the new row parses to, and the fingerprints agree |
| Registry.AppendingTwice | app/draft/templates/registry.py:224-230 | Appending the same rules again adds nothing |
| Registry.DedupedMeans | app/draft/templates/registry.py:224-228 | New are exactly the given rules whose trimmed text is not among the current ones |
| Registry.RulesArePrefixes | app/draft/templates/registry.py:208-259 | Between syncs, whichever processes append, the normalised rules of a version are a prefix of those of every later one, for any normalisation the fingerprint sees through |
| Registry.CacheOutlivesAppends | app/draft/templates/registry.py:208-259 | A cache that fits the table fits it at every later time of a run of appends, whichever processes append |
| Registry.RollbackFitsIff | app/draft/templates/registry.py:236-259 | After a rollback the cache fits the table if and only if nothing had been added |
| BlockEdits.Store.EditBlockText | app/ingest/block_edits.py:30-173 | Every refusal leaves the tables alone; an accepted edit rebuilds exactly the document's chunks that hold the block, clears their embeddings, marks their citations and enqueues one job for all of them |
| BlockEdits.EditedIff | app/ingest/block_edits.py:30-82 | An edit is made if and only if the text has words, the document is ready, the block is its own and says something else; it reports the number of chunks it touched |
| BlockEdits.AfterEditMeans | app/ingest/block_edits.py:76-173 | After an edit the block has the new text, and the chunks of the document that hold it have the words of all their blocks, line by line, and no embedding; their citations are stale, the new job names exactly them, and all else is as it was |
| BlockEdits.RebuiltReads | app/ingest/block_edits.py:107-128 | A rebuilt chunk has the words of all its blocks in declared order, a missing block none; neighbouring texts are separated by a line break, and the whole is trimmed |
| BlockEdits.Store.HandleReembedChunks | app/jobs/handlers/reembed_chunks.py:23-88 | Batches of 32, each kept when a later one fails; it succeeds if and only if every batch is answered with as many vectors as it has chunks, and then every named chunk that exists was written, from the text read |
| BlockEdits.Store.RunReembedJob | app/jobs/handlers/reembed_chunks.py:23-88 | The job goes only if nothing failed |
| BlockEdits.CascadeHolds | app/ingest/block_edits.py:83-146 | In every state of every run from a fully embedded one: an embedding present is that of the current text, an absent one is named by a job not completed, a touched chunk reads line by line as all its blocks do now, and its citations are stale |
| BlockEdits.QuietIsFullyEmbedded | app/jobs/handlers/reembed_chunks.py:31-61 | With no job left every chunk is embedded by its current text |
| ReembedRuns.RunIsSound | app/ingest/block_edits.py:83-146 | In any interleaving of edits and executions of jobs that read first and write later: an absent embedding is named by a job not completed, a touched chunk reads line by line as all its blocks do now, and its citations are stale |
| ReembedRuns.EndsCurrentIff | app/jobs/handlers/reembed_chunks.py:31-61 | An embedding is that of the current text if the last write of the chunk was not late, that is, still found the text its execution had read; and only then, as far as the embedder tells texts apart |
| ReembedRuns.AlwaysCurrentIff | app/jobs/handlers/reembed_chunks.py:31-61 | Embeddings are current in every state of a run if and only if no write in it is late |
| ReembedRuns.LateMeansEdited | app/jobs/handlers/reembed_chunks.py:31-61 | A write is late exactly if the chunk has another text than at the read of that execution, which takes an edit of the chunk between the two |
| ReembedRuns.QuietIsCurrent | app/jobs/handlers/reembed_chunks.py:31-61 | With no job left every chunk has an embedding, current unless such an edit came before its last write |
| ReembedRuns.LateWriteIsStale | app/jobs/handlers/reembed_chunks.py:31-61 | A run from any fully embedded state: job 1 reads, a second edit comes, job 2 is done, job 1 writes and is done; no job is left and the vector is that of the old text |
| BlockEdits.SplitChunksCollapse | app/ingest/block_edits.py:107-128 | Chunks cut from one long block all become the whole block when it is edited |

## Left out

- Chunker.SplitParagraphWithOverlap: is stated for inputs on which the loop ends, because on the others the code never returns; `Chunker.TerminatesIff` says which those are, and `Chunker.StuckState` what happens there.
- Chunker.PackSentences: needs the same condition, and the statement that the pieces are joined as the spans say is in `Renders`.
- Registry.RulesArePrefixes: is about normalised rules, because a template of a sync may stand in the cache for a row with the same fingerprint; it takes the hash as telling apart rules that differ after normalising.
- Budget.ReplaceWithinCapIff: is about deques with their stale events first; an event stamped earlier than one before it can break that, and then pruning may leave stale events behind fresh ones.
- ReembedRuns.AlwaysCurrentIff: takes the embedder as telling texts apart; one that gives two texts the same vector makes a late write harmless. Deleting chunks is left out.
- Orphans.BlankBlockBecomesOrphan: is not an input of the program, which drops blank blocks first.
- Registry.TemplateRegistry.AppendRules: is one step; two processes appending at once collide on the primary key, and one of them fails.
- LayoutBlocks.GroupSpansIntoBlocks: returns block values without their random ids; the in-place merge is on block objects in `Orphans`. The `_col` mark on spans is a field of the line.
- Fusion.EntityOverlapBonus: takes lower-casing as a parameter.
- BlockEdits.Store.EditBlockText: names the affected chunks of a job as a set, not in id order; the event it emits is left to `Events`.
- BlockEdits.Store.HandleReembedChunks: assumes a payload with a document id, for which a failed batch commits the rows written before the failure; the failure event is left out.
- Stream.StreamDocumentEvents: takes the times a keepalive is due, the failing polls and the end of the stream as given; a failing first replay ends the stream with nothing sent.
- Sse.Format: stays on characters; UTF-8 encoding of the text is left out.
- Sse.LastEventIdRoundTrip: reads ASCII digits; other Unicode digits and the length limit of Python's integers are left out.
- Router.LLMRouter.Generate: takes storing in the cache and logging as never failing; in the code such a failure after a success counts as a failure of the provider.
- JobQueue.Queue.Enqueue: leaves out payload, result, error text and the rows' update times.
- JobRuns.CancelledPendingIsStranded: is about the queue and the workers; when a document is deleted its job rows are deleted with it, outside both (`app/ingest/service.py:1165`), which is not modelled.
- Validator.CallLlmBatch: takes what a call answers as given; prompts, token and cost counts are left out.
- Floating point: money, scores and coordinates are reals.
- The tokenizer is any function from text to a count; only the sum over sentences is compared with the maximum, as in the code.
- Unicode: characters are Dafny characters; strings are not normalised.
- SQL, sessions and pooling: a statement or transaction is one step, `FOR UPDATE` and an update hold their rows until commit or rollback; deleting documents and savepoints are left out.
- Priming the budget from the call log, and the router's message dumps.
- `chunk_blocks`, section paths and entity extraction: assembly of chunks from blocks, with regular expressions.
- OCR, PDF, docling and embedding models, routes, settings, migrations and the user interface.
- Liveness of the pipeline: a document left in `layout_running` is not claimed again.
- Rule extraction, few-shot retrieval, field differences and template validators.
