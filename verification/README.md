# Verification of inkentry's algorithms and protocols

A Dafny model of the parts of inkentry where correctness rests on more than one
function: symbol ranking, chunking and snippet ranking in the index; the
server's note store, delta pull, batch push, vector repair and rate limiter; the
embedder's worker pool; event-stream parsing; and the per-organization session
cache. `dafny verify dfyconfig.toml` checks everything.

Reals stand for `f32`, whole ticks of a clock that never goes back for
`Instant`, sequences of characters for text, maps keyed by row id for tables.
Loops and objects that the program updates in place are methods and classes
here, each proved against a specification function; the main results are lemmas
about those functions and about whole runs.

| file | models |
|---|---|
| Sums, Iteration, PageRank | the power iteration over the symbol graph |
| RateLimiter | the fixed-window limiter with sweeping and eviction |
| Text, Sse | the two event-stream loops |
| SlidingWindow | token-aware windows with overlap |
| Mmr | cosine similarity and greedy maximal-marginal-relevance ranking |
| Lex, UuidV7 | ids whose text order is time order |
| Sets, Pages, NoteStore | the note and embedding tables and their cursor queries |
| CursorPull | the client's walk over the id feed while the store changes |
| BatchPush | the batch route |
| WriteBack, Repair, RepairProgress, RepairScript, RepairRefusals, RepairWorker | the repair sweep: a step system, its progress, a sweep under a script, what a refused text costs, and the worker that follows it |
| EmbedWorker, EmbedPool, EmbedService, EmbedAdmission | a warm context, the pool of workers, both together, admission |
| OrgTokens, OrgRaces | the session cache, one call at a time and with calls overlapping |

Requests and the repair worker interleave at every await. `Repair` makes each
stretch between two awaits one step: a request under the store's lock, a raise,
a page read, an embed answer, a write-back. `RepairScript` says where a sweep
ends when other tasks do what a script says at each of its awaits, and
`RepairWorker` has the sweep's own loops over the live store, ending exactly
there. A sweep that ends has met finitely many actions of others, so every one
follows some script. In the same way a job handed to an embedder worker carries
what each look at its cancel flag will see, and every such sequence is allowed.

Where the code and its comments differ, the model follows the code:

- A batch that fails part-way (batch.rs:274-284 returns through `?`) never
  raises for the vectorless rows it already stored, although repair.rs:9-13 says
  every such write does. `Repair.WhatGoesUnannounced` says exactly when;
  `RepairProgress.CutShortIsReached` reaches it. `BatchPush.PushStrandsIff` tells
  it from the store and the batch.
- `delete_note` removes the vector before the row, outside a transaction, so a
  note that another was superseded by keeps its row and loses its vector
  (db.rs:1080-1087). `NoteStore.WhoLosesVectors` says exactly when and
  `RepairProgress.StrippedIsReached` reaches it. The next wake-up, whatever it
  was for, comes within reach of both kinds of row.
- db.rs:564-567 promises that pushing an archived entry again creates a fresh
  row; the unique index covers archived rows, so the insert fails
  (`BatchPush.RepushAfterArchiveFails`).
- Ids sort by creation time only while milliseconds fit 48 bits
  (`UuidV7.OrderIsStampOrder`, `UuidV7.WrappedTimeSortsEarly`).
- A slug shared by two organizations names the first in key order, so after its
  logout the slug still resolves, to the other (`OrgTokens.LogoutForgets`,
  `OrgTokens.SharedSlugOutlivesLogout`).
- org_tokens.rs:20-24 promises that one org's session is never disturbed by a
  switch to another elsewhere on the machine. Every call reads the whole cache
  and writes it back with no lock, so a switch that began before a login or a
  refresh of another org and ends after it undoes it (`OrgRaces.SwitchLosesLogin`,
  `OrgRaces.SwitchLosesRefresh`). `OrgRaces.SurvivesIff` says exactly when a
  session survives. `OrgTokens` is about calls that nothing comes between, which
  is what `OrgRaces.UndisturbedIsAtomic` makes of them.

Assumed of what is not modelled: the embedder returns one vector per text,
storage calls fail only in the ways written out, a cache that was serialised
parses back to itself, a square root is one, and the UUID parser takes the four
spellings in `UuidV7.Spells`.

## Model

| member | source | states |
|---|---|---|
| `PageRank.NodesAreEndpoints` | crates/inkentry-index/src/pagerank.rs:14-26 | the node list holds every symbol an edge names, exactly once |
| `PageRank.InListsTransposeOutLists` | crates/inkentry-index/src/pagerank.rs:36-43 | as multisets the in-lists are the transpose of the out-lists: u's entries in v's in-list, v's in u's out-list and the (u, v) links are equally many |
| `PageRank.GraphCountsEdges` | crates/inkentry-index/src/pagerank.rs:36-43 | the links are the edge list's: each edge between two different symbols as often as it is listed, and no self-edge |
| `PageRank.ListsCountEdges` | crates/inkentry-index/src/pagerank.rs:33-43 | both lists count each edge from u to v as often as the edge list does, and a self-edge never |
| `PageRank.ArrivalsEqualDepartures` | crates/inkentry-index/src/pagerank.rs:36-62 | summed over all nodes, what in-lists deliver is what out-lists send |
| `PageRank.SpreadKeepsMass` | crates/inkentry-index/src/pagerank.rs:52-62 | one round of sharing out (dangling nodes included) keeps the total of any vector |
| `PageRank.ScoresSumToOne` | crates/inkentry-index/src/pagerank.rs:45-65 | after any number of iterations on any edge list, for any damping, the scores sum to exactly 1 |
| `PageRank.ScoresBoundedBelow` | crates/inkentry-index/src/pagerank.rs:45-65 | for damping in [0,1] no score is ever below (1 - damping)/n |
| `PageRank.StepContracts` | crates/inkentry-index/src/pagerank.rs:51-65 | one iteration shrinks the L1 distance of any two score vectors to at most damping times it |
| `PageRank.IterationsContract` | crates/inkentry-index/src/pagerank.rs:51-65 | k iterations shrink it to at most damping^k times it |
| `PageRank.ChangesDecay` | crates/inkentry-index/src/pagerank.rs:51-65 | successive iterates differ by at most damping^k times the first change |
| `PageRank.TruncationError` | crates/inkentry-index/src/pagerank.rs:51-65 | stopping after k iterations is within a geometric tail of every later iterate |
| `PageRank.ScoresAreDistribution` | crates/inkentry-index/src/pagerank.rs:5-72 | what the whole computation returns is a probability distribution with that floor |
| `PageRank.ScoresAreRun` | crates/inkentry-index/src/pagerank.rs:45-65 | the scores after any number of iterations are those of such a run |
| `PageRank.RankRunUnique` | crates/inkentry-index/src/pagerank.rs:45-65 | the edges, the damping and the number of steps leave one run only |
| `PageRank.IndexNodes` | crates/inkentry-index/src/pagerank.rs:14-26 | the indexing loop builds the node list and its inverse map |
| `PageRank.BuildAdjacency` | crates/inkentry-index/src/pagerank.rs:33-43 | the arrays hold exactly the out- and in-lists, in edge order, self-edges dropped |
| `PageRank.NextScores` | crates/inkentry-index/src/pagerank.rs:52-62 | the accumulation in place computes one iteration |
| `PageRank.IterateScores` | crates/inkentry-index/src/pagerank.rs:45-65 | the array loop computes the iterated vector from the uniform start |
| `PageRank.ComputePagerank` | crates/inkentry-index/src/pagerank.rs:5-72 | the map has exactly the symbols the edges name and is the last of a run of exactly `iterations` steps from equal scores, each step told from the edge list: the teleport share, the stuck scores handed out evenly, and for each edge its source's score over its out-degree; it is empty for no edges |
| `Iteration.RunsApproach` | crates/inkentry-index/src/pagerank.rs:51-65 | any step that contracts brings two runs together geometrically; the argument the PageRank bounds are instances of |
| `Iteration.StoppingError` | crates/inkentry-index/src/pagerank.rs:51-65 | the geometric tail bound for any contracting step |
| `RateLimiter.RateLimiter.SweepExpired` | crates/inkentry-server/src/rate_limiter.rs:122-127 | the sweep keeps exactly the unexpired buckets and notes the time |
| `RateLimiter.RateLimiter.Evict` | crates/inkentry-server/src/rate_limiter.rs:86-96 | the eviction loop ends one below the cap, having removed only buckets at least as old as any it kept |
| `RateLimiter.RateLimiter.Check` | crates/inkentry-server/src/rate_limiter.rs:73-117 | a call's effect on the buckets and its answer, whatever key the map happens to evict among equals |
| `RateLimiter.CheckStaysBounded` | crates/inkentry-server/src/rate_limiter.rs:73-117 | after every call at most max_buckets buckets, each younger than two windows and within its count; an untracked key is admitted when the limit is at least 1 |
| `RateLimiter.RunStaysBounded` | crates/inkentry-server/src/rate_limiter.rs:73-117 | the same bound in every state of every run |
| `RateLimiter.EvictsOneLiveBucket` | crates/inkentry-server/src/rate_limiter.rs:81-97 | a call evicts at most one bucket, live, not the caller's, and with no kept one older |
| `RateLimiter.SweepingIsInvisible` | crates/inkentry-server/src/rate_limiter.rs:73-127 | over every run with non-decreasing time a key never evicted gets exactly the answers of an unbounded, never-swept limiter |
| `RateLimiter.WindowBound` | crates/inkentry-server/src/rate_limiter.rs:107-116 | in a key's current window exactly `count` requests were admitted, at most the limit, for any answers that agree with the unbounded limiter's |
| `RateLimiter.RunWindowBound` | crates/inkentry-server/src/rate_limiter.rs:107-116 | the same of the limiter's own bucket in any run, for a key never evicted |
| `RateLimiter.FewCallersAreExact` | crates/inkentry-server/src/rate_limiter.rs:81-97 | with no more distinct callers than buckets nobody is ever evicted, so all of this holds of every caller |
| `RateLimiter.RunIntervalBound` | crates/inkentry-server/src/rate_limiter.rs:99-116 | in any half-open interval one window long a key never evicted gets fewer than twice its limit |
| `RateLimiter.IntervalBoundIsTight` | crates/inkentry-server/src/rate_limiter.rs:99-116 | 2 * limit - 1 is reached by a run of the limiter with one caller and no eviction, for every limit and cap of at least 1 and every window of at least two ticks |
| `RateLimiter.EvictionForgives` | crates/inkentry-server/src/rate_limiter.rs:81-97 | an evicted key starts over: the exception to the bounds is real |
| `Sse.CuttingIsInvisible` | crates/inkentry-cli/src/server_client.rs:403-414 | however a text is cut at character boundaries, the events and the kept buffer are the whole text's, and the kept buffer never holds a separator |
| `Sse.DrainEarly` | crates/inkentry-cli/src/server_client.rs:409-414 | draining before the next chunk arrives loses and invents nothing |
| `Sse.EventsReassemble` | crates/inkentry-cli/src/server_client.rs:411-413 | events, separators and rest put together are the text |
| `Sse.EventsHaveNoBreak` | crates/inkentry-cli/src/server_client.rs:411-413 | each event ends at its first blank line |
| `Sse.FramingRoundTrip` | crates/inkentry-cli/src/server_client.rs:411-413 | any separator-free events survive framing and parsing |
| `Sse.LaterTextIgnored` | crates/inkentry-cli/src/server_client.rs:432-438 | after done or error, later text changes nothing |
| `Sse.FramedPayloadsArrive` | crates/inkentry-cli/src/server_client.rs:411-442 | framed one-line payloads reach the consumer whole, in order, once each |
| `Sse.LlmComplete` | crates/inkentry-cli/src/server_client.rs:403-446 | the client's outcome (text, error message, or transport error) is a function of the concatenated text alone, the one the three lemmas below describe |
| `Sse.TokensAreOutput` | crates/inkentry-cli/src/server_client.rs:415-431 | token events give their contents in order; what does not parse, has no content or is of another kind adds nothing; a transport error then fails the call |
| `Sse.DoneEndsOutput` | crates/inkentry-cli/src/server_client.rs:432 | the first done event returns the contents so far, whatever follows |
| `Sse.ErrorFailsCall` | crates/inkentry-cli/src/server_client.rs:433-439 | the first error event fails the call with its message, or with `unknown error` |
| `Sse.Generate` | crates/inkentry-server/src/server_llm.rs:164-222 | the tokens forwarded and how the stream ended are a function of the concatenated text alone; the reasoning-only warning fires exactly when some reasoning and no content came |
| `Sse.ContentsAreForwarded` | crates/inkentry-server/src/server_llm.rs:171-207 | every non-empty content is forwarded in order, as many as the receiver takes, and content and reasoning are noticed exactly when seen |
| `Sse.MarkerEndsForwarding` | crates/inkentry-server/src/server_llm.rs:177-181 | the end marker stops the stream where it stands: nothing after it is forwarded |
| `Text.LinesMakeText` | crates/inkentry-cli/src/server_client.rs:415 | lines and what ended them are the text: each at a newline with or without a carriage return, neither kept, no empty last line |
| `SlidingWindow.SlidingWindow` | crates/inkentry-index/src/chunker.rs:143-215 | each chunk carries the node's own names and exactly the lines its numbers say; the chunks show a greedy windowing: each chunk's text is within the budget or one line and has no room for the next line, neighbours share at most an eighth of the budget, and dropping overlaps rebuilds the lines |
| `SlidingWindow.FindEnd` | crates/inkentry-index/src/chunker.rs:170-179 | each window fits the budget or is one line, and its next line would not have fitted |
| `SlidingWindow.FindNextStart` | crates/inkentry-index/src/chunker.rs:201-210 | the next window opens past this one's start and shares at most the overlap budget, line breaks counted, and as much as that allows |
| `SlidingWindow.EndNeverGoesBack` | crates/inkentry-index/src/chunker.rs:167-212 | the overlap always fits the next window, so ends never go back |
| `SlidingWindow.WindowsAdvance` | crates/inkentry-index/src/chunker.rs:167-212 | starts strictly increase, ends never decrease, no line is skipped |
| `SlidingWindow.NoMoreWindowsThanLines` | crates/inkentry-index/src/chunker.rs:167-212 | at most as many windows as lines, for every budget including 0 |
| `SlidingWindow.WindowingUnique` | crates/inkentry-index/src/chunker.rs:167-212 | the conditions allow one windowing only |
| `SlidingWindow.ChunksRebuildLines` | crates/inkentry-index/src/chunker.rs:181-193 | from the chunks' text and line numbers alone, dropping overlaps gives back exactly the source's lines |
| `Mmr.CauchySchwarz` | crates/inkentry-index/src/mmr.rs:130-146 | the dot product is bounded by the norms, for any square root |
| `Mmr.CosineBounded` | crates/inkentry-index/src/mmr.rs:130-146 | every similarity is in [-1, 1] and symmetric, zero vectors and length mismatch included |
| `Mmr.CosineWithSelf` | crates/inkentry-index/src/mmr.rs:130-146 | a nonzero vector has similarity 1 with itself |
| `Mmr.CosineMeans` | crates/inkentry-index/src/mmr.rs:130-146 | a similarity times the two lengths is the sum of the products of the coordinates |
| `Mmr.ComputeCosine` | crates/inkentry-index/src/mmr.rs:130-146 | the accumulating loop computes what, times the two lengths, is the inner product, and 0 for a zero vector or a length mismatch |
| `Mmr.MmrRank` | crates/inkentry-index/src/mmr.rs:100-126 | each pick is the lowest-index maximiser among what remains of lambda times its cosine to the centroid less (1 - lambda) times its largest cosine to a picked unit, or 0 if none is above it, until nothing remains |
| `Mmr.RedundancyIsMax` | crates/inkentry-index/src/mmr.rs:112-116 | the redundancy is the largest similarity to a picked unit, never below 0 |
| `Mmr.PickIsBest` | crates/inkentry-index/src/mmr.rs:110-123 | a pick beats or ties every unit left, and the units before it strictly, relevance and redundancy written out |
| `Mmr.RankingIsPermutation` | crates/inkentry-index/src/mmr.rs:104-125 | every unit is ranked exactly once |
| `Mmr.RankingUnique` | crates/inkentry-index/src/mmr.rs:110-123 | the same units and lambda always give the same ranking |
| `Mmr.PickedScoresDescend` | crates/inkentry-index/src/mmr.rs:107-124 | the picked scores never increase along the ranking for lambda at most 1 |
| `Mmr.LambdaOneSortsByRelevance` | crates/inkentry-index/src/mmr.rs:107-124 | at lambda 1 it is the stable descending sort by relevance |
| `UuidV7.OrderIsStampOrder` | crates/inkentry-server/src/uuid_v7.rs:16-27 | one id's text sorts before another's whatever the random bits exactly when its 48-bit stamp is smaller |
| `UuidV7.EarlierSortsFirst` | crates/inkentry-server/src/uuid_v7.rs:16-27 | an earlier creation time sorts strictly first, for times from 1970 whose milliseconds fit 48 bits |
| `UuidV7.WrappedTimeSortsEarly` | crates/inkentry-server/src/uuid_v7.rs:16-27 | past 48 bits the stamp wraps and order is lost |
| `UuidV7.LayoutReadsBack` | crates/inkentry-server/src/uuid_v7.rs:16-27 | the milliseconds (clamped, saturated, 48 bits kept), version, variant and each kept random bit can be read back from the bytes |
| `UuidV7.TextShape` | crates/inkentry-server/src/uuid_v7.rs:18-21 | the text is the bytes' lower-case hex digits in order, in groups of 4, 2, 2, 2 and 6 bytes with hyphens between |
| `UuidV7.SameInstantDistinct` | crates/inkentry-server/src/uuid_v7.rs:18-23 | ids for one instant are equal only if the 74 random bits taken from the entropy agree |
| `UuidV7.AcceptedPastNil` | crates/inkentry-server/src/handlers/mod.rs:137-154 | every id taken from a client, upper case, without hyphens, in braces or as a URN, sorts after the nil cursor |
| `UuidV7.MintedIsAccepted` | crates/inkentry-server/src/handlers/mod.rs:137-154 | a minted id is one the server would take back |
| `UuidV7.NilSortsFirst` | crates/inkentry-server/src/uuid_v7.rs:16-27 | the nil id sorts before every id of this shape |
| `NoteStore.ServerDb.AddNoteWithSyncId` | crates/inkentry-server/src/db.rs:468-515 | inserts the row and its vector, or fails on either unique index changing nothing |
| `NoteStore.ServerDb.ArchiveNote` | crates/inkentry-server/src/db.rs:957-964 | archives the named row if active, and says whether it did |
| `NoteStore.ServerDb.SupersedeNote` | crates/inkentry-server/src/db.rs:1006-1016 | archives the old note and links it to its successor and changes nothing else; nothing happens when the successor does not resolve |
| `NoteStore.ServerDb.DeleteNote` | crates/inkentry-server/src/db.rs:1074-1089 | the vector goes first, and stays gone when a foreign key then keeps the row |
| `NoteStore.SupersededMeans` | crates/inkentry-server/src/db.rs:1006-1016 | which rows a supersede changes and to what, for every row |
| `NoteStore.DeletedMeans` | crates/inkentry-server/src/db.rs:1074-1089 | what a delete leaves of rows and vectors, and what it answers, in each of its three cases |
| `NoteStore.ServerDb.InsertEmbeddingIfMissing` | crates/inkentry-server/src/db.rs:661-691 | writes exactly when the row is active and has no vector |
| `NoteStore.ServerDb.NotesMissingEmbeddings` | crates/inkentry-server/src/db.rs:630-651 | the page of active vectorless rows past the cursor, ascending |
| `NoteStore.ServerDb.NotesSinceId` | crates/inkentry-server/src/db.rs:1050-1072 | the page of a project's active ids past the cursor, ascending, the limit held to 1..500 |
| `NoteStore.ServerDb.ActiveNoteCount` | crates/inkentry-server/src/db.rs:1097-1103 | the number of a project's active rows |
| `NoteStore.ServerDb.BackfillMissingSyncIds` | crates/inkentry-server/src/db.rs:276-292 | every row without an id gets one from its own creation time and no other row changes; a taken id ends the pass with an error |
| `NoteStore.AppliedConsistent` | crates/inkentry-server/src/db.rs:417-1089 | whatever is called, vectors belong to notes, ids and external ids stay unique, references stay intact |
| `NoteStore.AppliedExtends` | crates/inkentry-server/src/db.rs:417-1089 | a row's text, project and ids never change, ids are not reused, no vector is ever replaced |
| `NoteStore.WhoLosesVectors` | crates/inkentry-server/src/db.rs:1074-1089 | the one call that leaves an active row without its vector is deleting a row another was superseded by |
| `NoteStore.BackfillOrder` | crates/inkentry-server/src/db.rs:276-292 | backfilled ids sort in creation order, whatever order rows were stored in |
| `Pages.PageFacts` | crates/inkentry-server/src/db.rs:630-651 | what a page query returns: ascending, past the cursor, within the limit, skipping nothing up to its end |
| `Pages.SelectPage` | crates/inkentry-server/src/db.rs:1050-1072 | selecting keys in order gives that page, for any strict total order on them |
| `CursorPull.WalkAscends` | crates/inkentry-cli/src/cli/cmd/memory/sync/pull.rs:65-106 | a walk feeding back the last id never repeats and never goes back, however the store changes |
| `CursorPull.WalkMissesNothing` | crates/inkentry-cli/src/cli/cmd/memory/sync/pull.rs:65-106 | a finished walk delivers everything past the cursor that was there at every page |
| `CursorPull.WalkInvents` | crates/inkentry-cli/src/cli/cmd/memory/sync/pull.rs:65-106 | everything delivered was in the store when some page was read |
| `CursorPull.WalkEnds` | crates/inkentry-cli/src/cli/cmd/memory/sync/pull.rs:96-105 | a walk ends once its pages have room for every key ever present past the cursor |
| `CursorPull.StaysActive` | crates/inkentry-server/src/db.rs:957-1089 | only archiving, superseding or deleting a note by name takes it out of the feed |
| `CursorPull.PullDeliversOnce` | crates/inkentry-server/src/db.rs:1050-1072 | a finished pull, with any adds, archives, supersedes and deletes between its pages, gives every note active at the start that none of them retired exactly once, in ascending order |
| `CursorPull.StillPull` | crates/inkentry-server/src/db.rs:1050-1072 | on a still store a pull from any cursor ends and delivers exactly the active ids past it, each once |
| `CursorPull.FullPullMatchesCount` | crates/inkentry-server/src/db.rs:1091-1103 | on a still store a pull delivers as many notes as active_note_count reports exactly when every active row has an id that sorts past its cursor |
| `CursorPull.NilPullIsFull` | crates/inkentry-server/src/db.rs:1091-1103 | after any run whose new ids were minted or accepted from clients, in whatever spelling, a pull from the nil cursor delivers exactly the active ids, as many as active_note_count reports |
| `CursorPull.RunAccepted` | crates/inkentry-server/src/db.rs:417-1089 | once ids are backfilled, every run whose new ids the server takes leaves every row with such an id |
| `CursorPull.BackfilledAccepted` | crates/inkentry-server/src/db.rs:276-292 | after the backfill every row has an id the server would take from a client |
| `CursorPull.BackfilledArriveInCreationOrder` | crates/inkentry-server/src/db.rs:276-292 | two backfilled notes are delivered in the order they were created |
| `CursorPull.DrainPagesSince` | crates/inkentry-cli/src/cli/cmd/memory/sync/pull.rs:65-109 | the client's loop over the live store delivers what the walk does |
| `BatchPush.FindByRemoteIds` | crates/inkentry-server/src/db.rs:573-615 | the map holds exactly the asked ids that are live, each with its id and whether it has a vector |
| `BatchPush.PushMemoryBatch` | crates/inkentry-server/src/handlers/batch.rs:218-308 | stores, reports and fails as the specification says, entry by entry, and raises exactly when it went through and some entry reported no vector |
| `BatchPush.PushIsIdempotent` | crates/inkentry-server/src/handlers/batch.rs:97-98 | pushing a batch again stores nothing and reports the same ids, every entry skipped |
| `BatchPush.PushSettles` | crates/inkentry-server/src/handlers/batch.rs:237-302 | a push that goes through leaves every entry live under the id and with the vector it reported |
| `BatchPush.PushStores` | crates/inkentry-server/src/handlers/batch.rs:237-302 | every entry that is no repeat is created, exactly, and stored under its own id with its own title, body, time and vector; nothing else is stored |
| `BatchPush.PushGrows` | crates/inkentry-server/src/handlers/batch.rs:237-302 | a push only adds rows, even one cut short |
| `BatchPush.PushFailsIff` | crates/inkentry-server/src/handlers/batch.rs:260-284 | exactly when a push is cut short, told from the ids in the store and in the batch |
| `BatchPush.RepushAfterArchiveFails` | crates/inkentry-server/src/db.rs:564-567 | pushing an archived entry's external id again always fails, where the comment promises a fresh row |
| `BatchPush.PushBacklog` | crates/inkentry-server/src/handlers/batch.rs:260-308 | a push adds to the repair backlog exactly when it creates an entry without a vector, cut short or not |
| `BatchPush.PushStrandsIff` | crates/inkentry-server/src/handlers/batch.rs:260-308 | exactly when a push fails after creating an entry without a vector, told from the ids in the store and in the batch and which entries have vectors |
| `WriteBack.FilledMeans` | crates/inkentry-server/src/repair.rs:175-182 | a write-back gives exactly the still-qualifying rows their own vectors, as many as it counts, and moves nothing else |
| `WriteBack.FillsAndCounts` | crates/inkentry-server/src/repair.rs:175-182 | and its figures count exactly the rows that gained a vector and the rows refused one |
| `WriteBack.TextReadsBack` | crates/inkentry-server/src/handlers/mod.rs:350-354 | a note's title and body can be read back from the text it is embedded as |
| `WriteBack.WritePage` | crates/inkentry-server/src/repair.rs:175-182 | the loop over the page does that and counts what landed and what was refused |
| `Repair.NextInv` | crates/inkentry-server/src/repair.rs:87-190 | every step of every interleaving keeps the whole invariant |
| `Repair.NoStrandedBacklog` | crates/inkentry-server/src/repair.rs:28-252 | over every run, embeds by other tasks included: while the embedder is ready every active vectorless row is covered by a permit, an owed raise or the sweep under way, except those refused, each in a call of its own that failed, or left unannounced since the last wake-up; sweeps never exceed raises; a quiet, ready server has no others |
| `Repair.RepairIsSafe` | crates/inkentry-server/src/repair.rs:130-190 | over every run, rows added, archived, superseded, deleted or embedded between a page's read and its write included: vectors belong to notes, each vector a sweep wrote is the model's for that row's text, no row is read twice in a sweep, scanned = repaired + failed + no longer qualifying |
| `Repair.PageReadInv` | crates/inkentry-server/src/repair.rs:150-159 | reading a page and moving the cursor past all of it strands nothing |
| `Repair.PageWrittenInv` | crates/inkentry-server/src/repair.rs:173-183 | writing a page back strands nothing, keeps the store consistent and every vector true to its row |
| `Repair.LeftoversRefused` | crates/inkentry-server/src/repair.rs:175-182 | a row of the page still without a vector after the write-back was refused one |
| `Repair.RequestedInv` | crates/inkentry-server/src/db.rs:653-691 | a call by any other task between a sweep's read, embed and write, an embed of the same row included, cannot break it |
| `Repair.WhatGoesUnannounced` | crates/inkentry-server/src/handlers/batch.rs:274-308 | exactly which requests leave a row waiting with no raise, told before they are made: deleting an embedded active note another was superseded by, and a batch in which an entry goes in without a vector and a later one clashes |
| `Repair.NewlyMissingBy` | crates/inkentry-server/src/handlers/notes.rs:345-348 | which single requests add to the backlog, and that they add at most one row |
| `RepairProgress.SweepEnds` | crates/inkentry-server/src/repair.rs:137-190 | a sweep's steps are bounded by the rows ahead of it and four for each row stored meanwhile, so it ends if other writes do |
| `RepairProgress.SweepStepWorks` | crates/inkentry-server/src/repair.rs:137-190 | every step of a sweep uses up some of that bound |
| `RepairProgress.OnlySaturationRaises` | crates/inkentry-server/src/repair.rs:110-123 | of the worker's own steps only the one after a saturated stop raises, and only a full admission lane leads there |
| `RepairProgress.StillSweepRepairsAll` | crates/inkentry-server/src/repair.rs:141-190 | an undisturbed sweep of a working embedder gives every vectorless row past its cursor a vector, counts each once as scanned and repaired, and parks |
| `RepairProgress.QuietStaysQuiet` | crates/inkentry-server/src/repair.rs:9-13 | nothing sets a quiet server going but a store without a vector or the embedder becoming ready |
| `RepairProgress.NothingIsReplaced` | crates/inkentry-server/src/db.rs:653-691 | no step of any task or of a sweep replaces a vector, revives a row or changes its text |
| `RepairProgress.StrippedIsStranded` | crates/inkentry-server/src/db.rs:1074-1089 | on a quiet server such a delete leaves a row with nothing coming for it |
| `RepairProgress.StrippedIsReached` | crates/inkentry-server/src/db.rs:1074-1089 | from a fresh start: store two notes, supersede one by the other, delete the successor |
| `RepairProgress.CutShortIsStranded` | crates/inkentry-server/src/handlers/batch.rs:274-308 | on a quiet server such a batch leaves a row with nothing coming for it |
| `RepairProgress.CutShortIsReached` | crates/inkentry-server/src/handlers/batch.rs:274-308 | from a fresh start: two new entries under one id, pushed while the embedder fails |
| `RepairWorker.Server.EmbedForStorage` | crates/inkentry-server/src/handlers/mod.rs:306-334 | not ready, busy, failed or one vector a text, checked in that order |
| `RepairWorker.EmbedRows` | crates/inkentry-server/src/repair.rs:224-245 | the fallback gives row k its own vector if row k's own call succeeded and nothing only if it failed, or stops; it ends where the step system does under the same script |
| `RepairWorker.EmbedWholePage` | crates/inkentry-server/src/repair.rs:207-252 | every row has its own vector unless the page's call and its own call both failed; the page embed ends where the step system does, whatever happens during it |
| `RepairWorker.ReadPageOf` | crates/inkentry-server/src/repair.rs:149-159 | a page is the first vectorless active rows past the cursor in order, no more than the page size (1 at least), each with its own text |
| `RepairRefusals.PoisonedSweep` | crates/inkentry-server/src/repair.rs:141-245 | an undisturbed sweep whose embedder refuses exactly the poisoned texts leaves exactly the rows of those without a vector, counts each once as failed and every other row past the cursor once as repaired, however page calls fail |
| `RepairRefusals.PoisonedSweepFromStart` | crates/inkentry-server/src/repair.rs:141-245 | from the first row: what is left without a vector is what is poisoned, and the figures are their numbers |
| `RepairRefusals.SomeScriptServes` | crates/inkentry-server/src/repair.rs:224-245 | whatever is poison, some script of embed answers serves the sweep so |
| `RepairScript.SweepThrough` | crates/inkentry-server/src/repair.rs:141-190 | where a sweep ends, given what others do at each of its awaits; it always ends, and is a run of the step system |
| `RepairScript.WakeThrough` | crates/inkentry-server/src/repair.rs:97-126 | the same for a whole wake-up: the permit used, the sweep, and a raise after a saturated stop |
| `RepairScript.UndisturbedSweep` | crates/inkentry-server/src/repair.rs:141-190 | undisturbed and with the embedder ready a sweep leaves no row without a vector, counting each once |
| `RepairWorker.WriteBackPage` | crates/inkentry-server/src/repair.rs:173-183 | the page is written back under the lock and counted, after whatever others did first |
| `RepairWorker.RepairMissingEmbeddings` | crates/inkentry-server/src/repair.rs:141-190 | the sweep loop ends exactly where the step system does under the same script, with the same figures |
| `RepairWorker.RunOnce` | crates/inkentry-server/src/repair.rs:97-126 | one wake-up ends exactly where the step system does under the same script |
| `EmbedWorker.AnswerIsPerText` | crates/inkentry-embed/src/embedder_llama.rs:498-574 | when a job succeeds, exactly; and then vector k is what the engine makes of text k's own tokens and the end marker, as many as the cap allows, as one output-bearing sequence on a clear cache |
| `EmbedWorker.ErrorIsTheFirst` | crates/inkentry-embed/src/embedder_llama.rs:506-571 | which error a job that does not succeed ends with, and how many chunks a cancellation reports as done |
| `EmbedWorker.TokenizeAll` | crates/inkentry-embed/src/embedder_llama.rs:517-539 | every text is tokenized first; each list is its tokens and then the end marker, cut to the cap |
| `EmbedWorker.EmbedChunk` | crates/inkentry-embed/src/embedder_llama.rs:551-571 | a chunk through the reused batch and context gives the vector of its own tokens alone, whatever both held before |
| `EmbedWorker.Batch.AddSequence` | crates/inkentry-embed/src/embedder_llama.rs:551-558 | adds the tokens as one output-bearing sequence behind what the batch holds, as far as there is room |
| `EmbedWorker.RunJob` | crates/inkentry-embed/src/embedder_llama.rs:498-574 | the vectors are each text's own, and the error the first there is; on any usable context, whatever its cache and the batch hold, the answer is a fresh context's; a real failure and only that makes the context unusable |
| `EmbedWorker.ServeJob` | crates/inkentry-embed/src/embedder_llama.rs:451-481 | a worker drops its context after any error but a cancellation, and never uses it again |
| `EmbedWorker.WorkerLoop` | crates/inkentry-embed/src/embedder_llama.rs:403-484 | the loop sends one reply for each job in order, each a newly built context's answer unless that build fails; without a backend every reply is dropped |
| `EmbedWorker.WarmIsFresh` | crates/inkentry-embed/src/embedder_llama.rs:403-484 | over any jobs, cancellations, failures and idle drops each reply is a newly built context's, unless that build itself fails |
| `EmbedWorker.HotWorkerStaysHot` | crates/inkentry-embed/src/embedder_llama.rs:346-359 | the first interactive worker, once warm, stays so through any idle spells exactly as long as no job really fails |
| `EmbedWorker.OnlyTheHeadStaysHot` | crates/inkentry-embed/src/embedder_llama.rs:346-359 | every other worker goes cold at its first deadline |
| `EmbedPool.NextInv` | crates/inkentry-embed/src/embedder_llama.rs:316-344 | every interleaving of dispatches, sends, worker steps and the close keeps the pool's invariant, whatever the busy flags say |
| `EmbedPool.JobsAreConserved` | crates/inkentry-embed/src/embedder_llama.rs:316-344 | every dispatched job is in exactly one place, of its effective lane, and each worker serves in the order sent |
| `EmbedPool.LanesAreIsolated` | crates/inkentry-embed/src/embedder_llama.rs:361-376 | with workers in both lanes no worker is ever sent a job meant for the other |
| `EmbedPool.ClosingServesAll` | crates/inkentry-embed/src/embedder_llama.rs:334-345 | over every run that closes the pool and ends with its workers gone: a job is answered, once, exactly when its worker started with a backend, however much was queued at the close, and dropped exactly when it never did |
| `EmbedPool.GoneAccountForAll` | crates/inkentry-embed/src/embedder_llama.rs:334-345 | a worker that is gone has answered or dropped all it was sent, one or the other |
| `EmbedPool.WorkerCanMove` | crates/inkentry-embed/src/embedder_llama.rs:334-345 | after the close a worker that is not gone can always move, so the join is never stuck |
| `EmbedPool.ClosingEnds` | crates/inkentry-embed/src/embedder_llama.rs:334-345 | and it moves only as often as what it had left allows |
| `EmbedPool.DispatchMeans` | crates/inkentry-embed/src/embedder_llama.rs:316-331 | a dispatch touches no worker but the one chosen, which is in the effective lane |
| `EmbedPool.DispatchClaims` | crates/inkentry-embed/src/embedder_llama.rs:316-326 | a dispatch claims by its effective lane's flags and counter: the first idle worker, whose flag alone is set, else the next by rotation; the other lane's are untouched |
| `EmbedPool.ClaimedClaims` | crates/inkentry-embed/src/embedder_llama.rs:384-394 | the same of the choice itself |
| `EmbedPool.LaneWorkers.ClaimWorker` | crates/inkentry-embed/src/embedder_llama.rs:384-394 | told from the old flags: if one was clear the least such worker is claimed, its flag alone set and the counter kept; else the worker is the counter modulo the lane's size and the counter advances, wrapping at the word size |
| `EmbedPool.WorkerPool.Claim` | crates/inkentry-embed/src/embedder_llama.rs:316-326 | the first half of a dispatch claims a worker of the effective lane and queues nothing |
| `EmbedPool.WorkerPool.Send` | crates/inkentry-embed/src/embedder_llama.rs:327-331 | the second half, whatever happened to the flags meanwhile, puts the job at the end of that live worker's queue and nowhere else |
| `EmbedPool.WorkerPool.Dispatch` | crates/inkentry-embed/src/embedder_llama.rs:316-331 | both halves: one queue of the effective lane gains the job at its end; nothing else moves but the claim |
| `EmbedPool.WorkerPool.constructor` | crates/inkentry-embed/src/embedder_llama.rs:247-277 | lanes of the asked sizes, never no worker at all |
| `EmbedService.MoveInv` | crates/inkentry-embed/src/embedder_llama.rs:403-484 | every interleaving of pool steps, replies and idle deadlines keeps each worker's replies exactly its own loop's |
| `EmbedService.AnsweredOnce` | crates/inkentry-embed/src/embedder_llama.rs:451-484 | a reply is the only one its job ever gets |
| `EmbedService.AnswersAreFresh` | crates/inkentry-embed/src/embedder_llama.rs:278-484 | in any run of the pool, an answer to a job is what a context newly built for that job would give, unless that build fails |
| `EmbedService.CallersAreServed` | crates/inkentry-embed/src/embedder_llama.rs:278-484 | over every run that closes the pool and ends with its workers gone a caller has an answer exactly when its job went to a worker that started with a backend, and it is that job's own |
| `EmbedAdmission.EmbedAdmission.TryAcquire` | crates/inkentry-server/src/lib.rs:136-149 | admits exactly while its own lane has fewer permits out than its capacity, never touching the other lane; free plus held stays the capacity |
| `EmbedAdmission.EmbedAdmission.DropPermit` | crates/inkentry-server/src/lib.rs:110-113 | a permit's end frees one slot of its own lane |
| `OrgTokens.PinNeverStrays` | crates/inkentry-core/src/config/org_tokens.rs:132-166 | a pin gives a session exactly when some org has it as id or slug, and only such an org's |
| `OrgTokens.StaysSound` | crates/inkentry-core/src/config/org_tokens.rs:95-106 | after every call the active pointer names a cached org and the entry exists exactly when some org is cached |
| `OrgTokens.RunStaysSound` | crates/inkentry-core/src/config/org_tokens.rs:95-284 | the same over every run |
| `OrgTokens.OthersUntouched` | crates/inkentry-core/src/config/org_tokens.rs:170-284 | a call about one org leaves every other org's session exactly as it was |
| `OrgTokens.SessionSurvives` | crates/inkentry-core/src/config/org_tokens.rs:170-284 | an org no call of a run is about keeps its session through it |
| `OrgTokens.LoginThenResolve` | crates/inkentry-core/src/config/org_tokens.rs:157-179 | what login stored is what resolution gives back, unpinned and pinned by org id |
| `OrgTokens.RefreshThenResolve` | crates/inkentry-core/src/config/org_tokens.rs:186-193 | the refresh write-back keeps slug and pointer and gives its own org the new tokens |
| `OrgTokens.LoginSlug` | crates/inkentry-core/src/config/org_tokens.rs:170-179 | a login under a slug stores it; one without keeps the slug the org had |
| `OrgTokens.SwitchThenResolve` | crates/inkentry-core/src/config/org_tokens.rs:205-213 | after a local switch an unpinned call resolves to the session its name pins, and no session changed |
| `OrgTokens.LogoutRemovesOne` | crates/inkentry-core/src/config/org_tokens.rs:256-267 | one org's logout removes that org alone, and the pointer if it named it |
| `OrgTokens.LogoutAllForgets` | crates/inkentry-core/src/config/org_tokens.rs:244-250 | after logging out of everything nothing resolves and no entry is left |
| `OrgTokens.UnreadableEntries` | crates/inkentry-core/src/config/org_tokens.rs:86-93 | an entry of white space counts as none; one that does not parse is left as it is by every call |
| `OrgTokens.SlugNamesOrg` | crates/inkentry-core/src/config/org_tokens.rs:132-143 | logging in under a slug makes the slug name that org exactly when no other org is keyed by that text or shares the slug earlier in key order |
| `OrgTokens.LogoutForgets` | crates/inkentry-core/src/config/org_tokens.rs:256-267 | after one org's logout its name stops resolving exactly when no second org answers to it |
| `OrgTokens.SharedSlugOutlivesLogout` | crates/inkentry-core/src/config/org_tokens.rs:256-267 | two logins under one slug, then that slug's logout: it now resolves to the other org's session |
| `OrgTokens.MigrationIsIdempotent` | crates/inkentry-core/src/config/org_tokens.rs:274-284 | migrating again changes nothing; migrating never replaces a session or a pointer |
| `OrgRaces.RacesStaySound` | crates/inkentry-core/src/config/org_tokens.rs:86-106 | the active org stays a cached one and the entry is there exactly when some org is, however calls of several processes overlap between a read and its write |
| `OrgRaces.UndisturbedIsAtomic` | crates/inkentry-core/src/config/org_tokens.rs:86-106 | calls that find the entry as they read it do what they would one after another |
| `OrgRaces.SurvivesIff` | crates/inkentry-core/src/config/org_tokens.rs:20-24 | when a session comes through overlapping calls that are not about its org: exactly when the entry left behind goes back to the start, or to an earlier reading that already had it |
| `OrgRaces.QuietStoreSurvives` | crates/inkentry-core/src/config/org_tokens.rs:20-24 | a session stored while no other call was under way survives every later overlap of calls not about its org |
| `OrgRaces.LaterWriteStands` | crates/inkentry-core/src/config/org_tokens.rs:86-106 | of two calls that read the same entry the later write stands and the other might never have been |
| `OrgRaces.SwitchLosesLogin` | crates/inkentry-core/src/config/org_tokens.rs:205-213 | a local switch to one org undoes a login to another that finishes inside it |
| `OrgRaces.SwitchLosesRefresh` | crates/inkentry-core/src/config/org_tokens.rs:186-213 | and a refresh: the other org is left with the tokens it had before |
| `OrgTokens.OrgTokenCache.FindKey` | crates/inkentry-core/src/config/org_tokens.rs:132-143 | the org id itself, else the first key in order stored under that slug |
| `OrgTokens.OrgTokenCache.Resolve` | crates/inkentry-core/src/config/org_tokens.rs:148-166 | resolution over the stored entry, with the parse error passed on |
| `OrgTokens.OrgTokenCache.Store` | crates/inkentry-core/src/config/org_tokens.rs:170-179 | login's effect on the entry |
| `OrgTokens.OrgTokenCache.WriteBack` | crates/inkentry-core/src/config/org_tokens.rs:186-193 | refresh's effect on the entry |
| `OrgTokens.OrgTokenCache.SwitchTo` | crates/inkentry-core/src/config/org_tokens.rs:205-213 | the local switch's effect, and whether the org was cached |
| `OrgTokens.OrgTokenCache.Clear` | crates/inkentry-core/src/config/org_tokens.rs:256-267 | one org's logout and whether there was one |
| `OrgTokens.OrgTokenCache.ClearAll` | crates/inkentry-core/src/config/org_tokens.rs:244-250 | the entry goes and the count is reported; an entry that does not parse stays and is an error |
| `OrgTokens.OrgTokenCache.LiftLegacy` | crates/inkentry-core/src/config/org_tokens.rs:274-284 | the migration's effect on the entry |

## Left out

- SQL text, migrations, indexes other than the two unique ones, vector search and conflict banding.
- HTTP, TLS, network retries, routing, argument parsing, logging.
- llama.cpp: a batch is its slots and room, a context its cache and whether it is wedged; the rest are opaque functions of a cache.
- Floating-point rounding, NaN and infinity; a non-finite vector is an opaque test that may fail.
- UTF-8 decoding of a character split across two chunks; cuts are at character boundaries.
- Byte-exact source text: carriage returns and the final newline are not kept by `lines()`, so lines are rebuilt.
- The repair worker's debounce: a delay that asks for nothing; a server built without an embedder, whose worker returns at once.
- A note's resolutions in `add_note_with_resolutions`: the same store calls in one transaction, which the runs here allow one after another.
- Notes' kind, tags, linked files and edges; the client's local copy of what it pulls.
- How long a pull takes: a store that grows faster than it is read is never finished with.
- That an admitted caller finds an idle worker, and acyclic supersede chains: the code keeps neither.
- `EmbedderSlot`'s setters, secret patterns, ignore files, document readers, key precedence, config paths: single decisions or foreign calls.
