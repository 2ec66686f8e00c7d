# Insight: verified model of the core algorithms and protocols

This project models the parts of Insight, a multi-tenant document and knowledge platform, whose
correctness is not visible from reading one function, and proves what those parts are for.
`dafny verify dfyconfig.toml` checks all of it.

- **Concept graph.** `UnionFind` and `Communities` model the component labelling of the graph: a
  parent array with path halving and no union by rank. `find` terminates and keeps every root, a link
  merges exactly two classes, and the labels name exactly the connected components, whatever order a
  hash map is walked in. `Sums`, `Flows`, `PowerIteration` and `PageRank` model the thirty damped
  rounds over reals: the total stays one, no score falls below 0.15/n, and a round is a contraction by
  0.85. `FixedPoint` shows by elimination that the round has a fixed point, so there is exactly one,
  and the result is within 2 * 0.85^30 of it, isolated nodes, self-loops and repeated edges included.
  `EdgeRank` defines the scores from the edge list alone, and the loops compute those.
  `Sorting` is the ranking at the end.
- **Chunkers.** `Text` and `Chunker` model the sentence-packing chunker of the ingest: what it loses
  (whitespace only) and what a chunk consists of, and `ChunkLength` gives the exact length of the
  longest chunk for every target and overlap. `TextWindows` models the server's window chunker.
  `Persist` models the transaction that writes pages, blocks and chunks and the status every block
  ends in.
- **Session protocol.** `RefreshTokens` interleaves the store calls of sign-in, refresh, sign-out and
  revocation on the allowlist and the session rows, and proves at-most-one-usable-token per session
  and what a revocation and a sign-out guarantee, over every run. `RefreshAllowlist` shows that the
  calls on the cache are steps of that protocol.
- **Jobs.** `JobQueue` is the stream, its pending list, the workers, reclaim, acknowledgement and
  crashes. `IngestRun` is one ingest run: the stages it announces, the document statuses it writes and
  the follow-up it enqueues, for every combination of outcomes of the calls it makes.
- **Knowledge and search.** `Correlate` is the deduplication and conflict pass over claims, whose
  result it would itself leave alone. `RrfFusion` is the fusion of ranked lists with its exact
  rational bound. `Codecs` holds the percent codecs and the cache keys.
- **Settings and caches.** `SettingsMerge` compares the patch merge with RFC 7396. `SettingsStore` is
  the ten-second cache in front of the stored overrides as one request sees it that nobody interrupts;
  `SettingsProtocol` interleaves the reads, puts, writes and invalidations of many. `KeyStore` is the
  expiring key store, and `Idempotency` is the two-phase idempotency protocol on top of it.

Code that works step by step is modelled by methods with loops or by classes; each is proved equal to
a specification or against a property stated without its body, and the lemmas are about the
specification. Protocols between processes are step systems with an `Enabled` predicate and an `After`
function; a run (`Runs`) is a sequence of steps from the initial state. Theorems about runs hold for all
of them; where a property needs a condition on the run, the condition is part of the statement.

## Findings

Where the code does less than its documentation or its tests suggest, the model follows the code and
states the exact condition.

- A chunk may be one character longer than `target + overlap`, the length that the test at
  `backend/crates/insight-core/src/ingest.rs:1039` allows, because of the joining space. Every text
  keeps to that length exactly when the overlap or the target is zero, or the target is one and the
  overlap even (`ChunkLength.WithinTargetAndOverlapIff`); the exact maximum is
  `ChunkLength.Longest`. With target zero both chunkers lose the text (`Chunker.LosslessIff`,
  `TextWindows.CoverIff`).
- `apply_patch` is JSON Merge Patch, and idempotent, exactly when every patch object that lands on
  something other than an object is free of nulls (`SettingsMerge.ApplyIsMergePatch`,
  `SettingsMerge.ApplyTwice`, `SettingsMerge.NotIdempotent`).
- A revocation leaves its session without an allowlisted token exactly when it meets no refresh that
  has updated the row and not yet allowlisted its token (`RefreshTokens.CompleteIffNoStray`); at most
  one token comes back otherwise (`RefreshTokens.AtMostOneTokenAfterRevocation`).
- A sign-out is complete exactly when it gets to the row with no token of its session allowlisted and
  no such refresh (`RefreshTokens.SignOutCompleteIff`). With the allowlisted token it is
  (`RefreshTokens.SignOutEndsSession`); with an older one the allowlisted token stays
  (`RefreshTokens.StaleSignOut`).
- A worker can newly join a busy one on its entry exactly when the entry is still pending and its last
  delivery at least 300 s back (`JobQueue.OverlapIff`).
- At most one request is inside for an idempotency key exactly as long as nobody reserves the key while
  a request inside for it is older than the sixty seconds of its reservation
  (`Idempotency.AtMostOneInside`); until then a second one is let in exactly when the first is that old
  (`Idempotency.AdmittedIffLate`). Once two are inside, the failure of one deletes the mark of the
  other, however young (`Idempotency.FailureAdmits`), and its success overwrites what the other stored:
  a stored response lasts its day exactly when nobody is inside for the key any more
  (`Idempotency.StoredStays`, `Idempotency.CreatedIsReplayed`).
- A claim can share its deduplication key with one it does not agree with exactly when it has a key and
  the key has a second separator (`Correlate.AmbiguousIff`). That happens between two free-text topics
  and between a concept and a topic (`Correlate.KeysCollide`), not between two concepts
  (`Correlate.ConceptKeysAgree`).
- A claim that is settled while a correlation pass runs is sent back to review exactly when review and
  conflict detection are on and it contradicts an earlier claim of the pass (`Correlate.ReopenedIff`).
- The settings cache can answer a stale bundle even when one process is the only writer: a resolve
  that has read its row is overtaken by a patch and then puts what it read
  (`SettingsProtocol.OvertakenRead`). Without further writes a stale answer can come exactly while a
  stale bundle is fresh in the cache or held by a request (`SettingsProtocol.StaleAnswerIff`), and ten
  seconds plus the longest read-to-put delay after the last write none comes any more
  (`SettingsProtocol.CurrentAgain`). Overlapping patches overwrite each other
  (`SettingsProtocol.LostPatch`, `SettingsProtocol.UpsertKeepsIff`).

## Model

| member | source | states |
|---|---|---|
| UnionFind.RootIs | backend/crates/insight-core/src/graph.rs:200-206 | a node has one root, whichever forest measure is used to climb |
| UnionFind.HalvingKeepsRoot | backend/crates/insight-core/src/graph.rs:202 | path halving keeps the forest measure and the root of every node |
| UnionFind.LinkKeepsForest | backend/crates/insight-core/src/graph.rs:212-213 | linking two distinct roots without a rank leaves a forest, and each node's new root is known |
| UnionFind.LinkMerges | backend/crates/insight-core/src/graph.rs:212-213 | a link leaves an acyclic array and merges exactly the two linked classes |
| UnionFind.Find | backend/crates/insight-core/src/graph.rs:200-206 | terminates, answers the root of its argument, and leaves the partition unchanged |
| UnionFind.Unite | backend/crates/insight-core/src/graph.rs:211-214 | one edge visit merges exactly the classes of its two ends |
| UnionFind.Singletons | backend/crates/insight-core/src/graph.rs:199 | at the start every node is its own class |
| Communities.NeighboursAreAdjacent | backend/crates/insight-core/src/graph.rs:180-183 | a node's list holds exactly the nodes an edge joins it to, in either direction |
| Communities.NoNeighbours | backend/crates/insight-core/src/graph.rs:176-179 | every listed node starts with an empty list |
| Communities.AddEdge | backend/crates/insight-core/src/graph.rs:180-183 | each end of an edge becomes a neighbour of the other, nobody else changes |
| Communities.Adjacency | backend/crates/insight-core/src/graph.rs:176-184 | every listed node and every edge end has its neighbour list, one entry per edge end in edge order |
| Communities.UniteAll | backend/crates/insight-core/src/graph.rs:209-216 | after the inner loop a node is in one class with its listed neighbours and only connected nodes share a class |
| Communities.UniteEdges | backend/crates/insight-core/src/graph.rs:207-217 | the same for all nodes, whatever order the map is walked in |
| Communities.PathStaysInClass | backend/crates/insight-core/src/graph.rs:187-217 | if adjacent nodes share a class, so do the ends of every path |
| Communities.ClassesAreComponents | backend/crates/insight-core/src/graph.rs:207-217 | the final classes are exactly the connected components |
| Communities.NumberRoots | backend/crates/insight-core/src/graph.rs:218-226 | labels tell classes apart and use every number below the count, whatever order the index is walked in |
| Communities.CommunityLabels | backend/crates/insight-core/src/graph.rs:187-228 | two nodes get the same label exactly when an undirected path joins them; the labels used are exactly 0..count-1 |
| Communities.CountIsComponents | backend/crates/insight-core/src/graph.rs:187-228 | the count is the number of connected components |
| Communities.LabellingsAgree | backend/crates/insight-core/src/graph.rs:218-226 | two runs agree on the partition and on the count |
| Flows.PushTotal | backend/crates/insight-core/src/graph.rs:249-261 | what all nodes receive is exactly the damped total of what they have |
| PowerIteration.StepTotal | backend/crates/insight-core/src/graph.rs:243-263 | a round maps total m to 0.15 + 0.85 m, so total one is kept exactly |
| PowerIteration.StepFloor | backend/crates/insight-core/src/graph.rs:243-263 | after a round every score is at least the teleport share |
| PowerIteration.StepContracts | backend/crates/insight-core/src/graph.rs:243-263 | a round brings any two score vectors to at most 0.85 of their L1 distance |
| PowerIteration.IterateContracts | backend/crates/insight-core/src/graph.rs:242-264 | k rounds bring them to at most 0.85^k of it |
| PowerIteration.IterateIsDistribution | backend/crates/insight-core/src/graph.rs:242-264 | rounds keep a distribution a distribution |
| PowerIteration.FixedPointSize | backend/crates/insight-core/src/graph.rs:243-263 | every fixed point has total one and L1 size at most one |
| PowerIteration.NearFixedPoint | backend/crates/insight-core/src/graph.rs:242-264 | k rounds from a distribution end within 2 * 0.85^k of every fixed point |
| PowerIteration.RoundsConverge | backend/crates/insight-core/src/graph.rs:242-264 | stopping after k rounds is within 2 * 0.85^k of stopping any number of rounds later |
| PowerIteration.FixedPointUnique | backend/crates/insight-core/src/graph.rs:243-263 | there is at most one fixed point |
| PageRank.WebIsValid | backend/crates/insight-core/src/graph.rs:249-261 | every node of a graph gives away exactly 0.85 of its score: repeated edges, self-loops and isolated nodes included |
| EdgeRank.NeighbourCounts | backend/crates/insight-core/src/graph.rs:176-184 | a node's list holds another node once per edge end that joins the two, and has one entry per edge end at the node |
| PageRank.WeightByEdges | backend/crates/insight-core/src/graph.rs:249-261 | a node with edges hands out 0.85 of its score in equal parts, one per edge end; one without hands 0.85/n to every node |
| PageRank.WeightPositive | backend/crates/insight-core/src/graph.rs:249-261 | a node with edges hands something exactly to the nodes an edge joins it to |
| PageRank.RoundsByEdges | backend/crates/insight-core/src/graph.rs:241-263 | the scores after any number of rounds are those the edge list alone defines |
| PageRank.RankByEdges | backend/crates/insight-core/src/graph.rs:241-263 | so are the scores of the thirty rounds |
| PageRank.PageRankIsDistribution | backend/crates/insight-core/src/graph.rs:240-264 | the thirty-round result has total one and every score is at least 0.15/n |
| FixedPoint.SolutionExists | backend/crates/insight-core/src/graph.rs:243-263 | the equations of any duplicate-free node list that gives away less than it has can be solved |
| FixedPoint.FixedPointExists | backend/crates/insight-core/src/graph.rs:243-263 | the round has a fixed point |
| FixedPoint.FixedPointIsDistribution | backend/crates/insight-core/src/graph.rs:243-263 | a fixed point is a distribution in which every node has at least the teleport share |
| PageRank.PageRankNearFixedPoint | backend/crates/insight-core/src/graph.rs:240-264 | the round has exactly one fixed point, a distribution with the floor 0.15/n, and the result is within 2 * 0.85^30 of it |
| PageRank.PageRankConverged | backend/crates/insight-core/src/graph.rs:240-264 | the result is within 2 * 0.85^30 of any number of further rounds |
| PageRank.AddShares | backend/crates/insight-core/src/graph.rs:257-259 | every target gains one share per entry it has in the list, nobody else gains anything |
| PageRank.GiveAway | backend/crates/insight-core/src/graph.rs:249-261 | both branches hand out equal shares of the damped score, to the neighbour entries or to all nodes (by edge ends, see PageRank.WeightByEdges) |
| PageRank.OneRound | backend/crates/insight-core/src/graph.rs:243-263 | the loops of one round compute the damped step on the score vector (by edge ends, see PageRank.RoundsByEdges) |
| PageRank.Rounds | backend/crates/insight-core/src/graph.rs:240-264 | the loop runs thirty rounds from equal scores |
| PageRank.PageRank | backend/crates/insight-core/src/graph.rs:231-281 | no nodes give no scores; otherwise every node has the score the edge list defines after thirty rounds from equal scores, each node once, highest first |
| Sorting.SortSorts | backend/crates/insight-core/src/graph.rs:279 | the sort is descending and a permutation |
| Sorting.RankEntries | backend/crates/insight-core/src/graph.rs:275-280 | a map's entries, walked in any order, come out once each and highest first |
| Text.TrimFacts | backend/crates/insight-core/src/ingest.rs:912 | trimming keeps the non-whitespace characters and leaves a string with no outer whitespace |
| Chunker.SplitSentences | backend/crates/insight-core/src/ingest.rs:962-982 | the loop computes the sentence split |
| Chunker.SentencesAreCut | backend/crates/insight-core/src/ingest.rs:961-982 | sentences are cut exactly where a terminator is followed by whitespace, and put together they are the text up to a blank end |
| Chunker.HardSplit | backend/crates/insight-core/src/ingest.rs:1001-1015 | the loop computes the windows of an over-long sentence |
| Chunker.WindowCutsOwn | backend/crates/insight-core/src/ingest.rs:1001-1015 | the windows together add every character of the sentence exactly once |
| Chunker.TailIsTail | backend/crates/insight-core/src/ingest.rs:985-998 | the carried tail is the end of the finished chunk from the first non-whitespace character among its last `overlap` characters on: trimmed, and with exactly their non-whitespace characters |
| Chunker.PlaceSentence | backend/crates/insight-core/src/ingest.rs:926-954 | the loop body completes the chunks, and leaves the chunk under construction, that one sentence makes |
| Chunker.ChunkText | backend/crates/insight-core/src/ingest.rs:911-959 | the loop computes the packing (what that is, see Chunker.PackIsGreedy and Chunker.PackCutsChained) |
| Chunker.PackingStarts | backend/crates/insight-core/src/ingest.rs:911-935 | a text that fits is one chunk; any other is packed from its first sentence that is not blank |
| Chunker.PackIsGreedy | backend/crates/insight-core/src/ingest.rs:926-957 | a chunk takes sentences as long as they fit and is finished exactly by the first that does not; the next one starts with its tail, or is cut into windows if over-long |
| Chunker.PlaceCutInk | backend/crates/insight-core/src/ingest.rs:926-954 | placing a sentence adds exactly its non-whitespace characters to what the chunks own |
| Chunker.PackCutsText | backend/crates/insight-core/src/ingest.rs:927-957 | the packing is spelled by cuts: carried prefix plus own part |
| Chunker.PackCutsInk | backend/crates/insight-core/src/ingest.rs:927-957 | the own parts hold exactly the non-whitespace characters put in |
| Chunker.PackCutsChained | backend/crates/insight-core/src/ingest.rs:926-957 | every chunk follows the one before it: after a packed chunk a packed one carries exactly its tail, after a piece nothing; every later piece of an over-long sentence carries the last min(overlap, target - 1) characters of the full piece before it; every own part is non-empty |
| Chunker.ChunksLossless | backend/crates/insight-core/src/ingest.rs:908-959 | for target >= 1 the chunks follow one another in this way and their own parts hold exactly the non-whitespace characters of the text |
| Chunker.LosslessIff | backend/crates/insight-core/src/ingest.rs:908-959 | a text is chunked without loss exactly when the target is positive or the text is blank |
| Chunker.ChunksOfBlank | backend/crates/insight-core/src/ingest.rs:911-915 | a text has chunks exactly when it is not blank |
| ChunkLength.ChunksWithin | backend/crates/insight-core/src/ingest.rs:908-1015 | no chunk is longer than the longest length for its target and overlap |
| ChunkLength.LongestIsReached | backend/crates/insight-core/src/ingest.rs:908-1015 | for every target and overlap some text has a chunk of exactly that length |
| ChunkLength.WithinTargetAndOverlapIff | backend/crates/insight-core/src/ingest.rs:1032-1041 | all texts keep to target + overlap characters exactly when overlap or target is zero, or the target is one and the overlap even |
| TextWindows.LastStopIsLast | apps/server/src/lib/server/ai/embeddings.ts:129 | the search finds the last full stop before a space that begins at or before the given index |
| TextWindows.WindowEndsAt | apps/server/src/lib/server/ai/embeddings.ts:125-131 | a window ends at the end of the text if it gets there, else right after the last full stop before a space in its second half or at its end, else where the target says |
| TextWindows.WindowsOverlap | apps/server/src/lib/server/ai/embeddings.ts:135-137 | each window overlaps the one before it by exactly the overlap, or by all but its first character if the overlap is as long |
| TextWindows.SliceIsWindow | apps/server/src/lib/server/ai/embeddings.ts:133 | a chunk is its window without the spaces at either end |
| TextWindows.ChunkText | apps/server/src/lib/server/ai/embeddings.ts:120-138 | the loop terminates for every target and overlap; the chunks are the windows of the cleaned text, stripped |
| TextWindows.WindowsCover | apps/server/src/lib/server/ai/embeddings.ts:120-138 | for target >= 1 the windows go from 0 to the text length without a gap, move forward, and are at most target + 1 long |
| TextWindows.EveryCharacterCovered | apps/server/src/lib/server/ai/embeddings.ts:120-138 | every character lies in some window |
| TextWindows.WindowCanExceedTarget | apps/server/src/lib/server/ai/embeddings.ts:129-130 | some text has a window longer than the target exactly when the target is positive |
| TextWindows.CoverIff | apps/server/src/lib/server/ai/embeddings.ts:120-138 | the windows cover a text exactly for a positive target |
| TextWindows.CleanFacts | apps/server/src/lib/server/ai/embeddings.ts:121 | cleaning keeps the words of the text and puts exactly one space between two of them |
| Persist.CountBlocks | backend/crates/insight-core/src/ingest.rs:658-663 | a page has an entry exactly when a block is on it, and the entry is the number of such blocks |
| Persist.PageList | backend/crates/insight-core/src/ingest.rs:665-675 | the pages are those the parser listed and those a block is put on, ascending, without duplicates |
| Persist.NeedsReview | backend/crates/insight-core/src/ingest.rs:780-791 | review is asked for exactly when a block had no page, pages were cut off, there is nothing, or a listed page has no block |
| Persist.PrepareBlocks | backend/crates/insight-core/src/ingest.rs:720-778 | every block gets its id, effective page and initial status (what these are, see Persist.BlockIsFiled) |
| Persist.ParsedBlocksHaveChunks | backend/crates/insight-core/src/ingest.rs:845-877 | a block still `parsed` gets at least one chunk row |
| Persist.IndexedIffChunked | backend/crates/insight-core/src/ingest.rs:845-896 | a block ends `indexed` exactly when a chunk row refers to it |
| Persist.RowEndsTerminal | backend/crates/insight-core/src/ingest.rs:879-896 | insert and mark leave the terminal status already, so the closing update has nothing to do |
| Persist.RowsAddUp | backend/crates/insight-core/src/ingest.rs:640-642 | the document's rows with status indexed, skipped and low-confidence add up to its blocks, and none is `parsed` |
| Persist.Tables.InsertPages | backend/crates/insight-core/src/ingest.rs:797-820 | one row per page, flagged exactly when it has no block; other rows unchanged |
| Persist.Tables.InsertBlocks | backend/crates/insight-core/src/ingest.rs:821-843 | one row per block, its page look-up succeeding; other rows unchanged |
| Persist.Tables.InsertChunks | backend/crates/insight-core/src/ingest.rs:845-877 | appends the chunks of exactly the `parsed` blocks in order, counts the blocks with text, and remembers exactly the blocks that got a chunk |
| Persist.Tables.MarkIndexed | backend/crates/insight-core/src/ingest.rs:879-888 | exactly the chunked `parsed` rows become `indexed` |
| Persist.Tables.Sweep | backend/crates/insight-core/src/ingest.rs:889-896 | afterwards no row is `parsed`, and nothing changes exactly when none was |
| Persist.Tables.PersistBlocks | backend/crates/insight-core/src/ingest.rs:821-896 | every block row ends with its terminal status and the closing update changes none |
| Persist.Tables.Persist | backend/crates/insight-core/src/ingest.rs:643-905 | page, block and chunk rows and the outcome for every document, other rows untouched, no row left `parsed` (what the rows say, see Persist.BlockIsFiled and Persist.PageIsFlagged) |
| Persist.BlockIsFiled | backend/crates/insight-core/src/ingest.rs:658-778 | a block is filed under its own page number, under page 1 if it has none, with its content; it ends low-confidence below the threshold, 0.9 standing in for a missing confidence, else indexed if its content is not blank, else skipped |
| Persist.PageIsFlagged | backend/crates/insight-core/src/ingest.rs:659-676 | every page the parser listed or a block carries has a row with its number, flagged exactly when no block carries it |
| Persist.CoveredIff | backend/crates/insight-core/src/ingest.rs:786-791 | a document needs no review exactly when no page was cut off, it is not empty, every block has a page number and every listed page has a block |
| Persist.TextIsCounted | backend/crates/insight-core/src/ingest.rs:847-854 | the reported number of blocks is that of the blocks that are not blank |
| Persist.ChunkRowsOfBlock | backend/crates/insight-core/src/ingest.rs:856-878 | an indexed block has exactly the chunks of its content for target 800 and overlap 120, in order, any other block none |
| RefreshTokens.StepInv | backend/crates/insight-api/src/routes/auth.rs:100-130 | every step of sign-in, refresh, sign-out and revocation keeps the invariant |
| RefreshTokens.AtMostOneActive | backend/crates/insight-api/src/routes/auth.rs:263-308 | in every reachable state at most one token of a session is allowlisted or held between consume and allow |
| RefreshTokens.RotationAppends | backend/crates/insight-api/src/routes/auth.rs:272-303 | a refresh consumes the session's newest token and appends its successor |
| RefreshTokens.ConsumedOnce | backend/crates/insight-api/src/auth.rs:111-116 | no token is consumed twice, so each has at most one successor |
| RefreshTokens.LateRefreshRejected | backend/crates/insight-core/src/tenancy.rs:622-644 | a refresh that has not updated its row when the row is revoked is never answered with its token, nor is that token ever allowlisted |
| RefreshTokens.StepFreezes | backend/crates/insight-core/src/tenancy.rs:668-711 | no step gives a revoked session anything but what a refresh already past its row update holds |
| RefreshTokens.RevokedStaysFrozen | backend/crates/insight-core/src/tenancy.rs:668-711 | the same for the whole rest of the run |
| RefreshTokens.AtMostOneTokenAfterRevocation | backend/crates/insight-api/src/routes/auth.rs:293-301 | at most one token is allowlisted or handed out after the revocation, and a refresh past its row update held it |
| RefreshTokens.StepCurrent | backend/crates/insight-core/src/tenancy.rs:624-644 | every step keeps the allowlisted token of a session the one its row names |
| RefreshTokens.RevocationHits | backend/crates/insight-core/src/tenancy.rs:670-715 | a revocation revokes exactly the named live session, or all of the user's but the kept one, and queues exactly the tokens these rows name |
| RefreshTokens.DropsOnlyRevoked | backend/crates/insight-api/src/routes/auth.rs:404-434 | in every run what a revocation drops belongs to a session whose row is revoked: a kept session loses nothing to it |
| RefreshTokens.LiveTokenLeaves | backend/crates/insight-api/src/routes/auth.rs:263-334 | in every run, as long as its row is live, an allowlisted token of a session leaves the allowlist only by being presented, by a sign-out with it, or by running out of time |
| RefreshTokens.RevocationCompletes | backend/crates/insight-api/src/routes/auth.rs:404-434 | a revocation that finds no refresh between its row update and its allow leaves, once the row's token is dropped, no allowlisted token of the session for the rest of the run |
| RefreshTokens.StrayReturns | backend/crates/insight-api/src/routes/auth.rs:293-301 | in every run a refresh between its row update and its allow when the row is revoked can allowlist its token after the revocation's drop |
| RefreshTokens.CompleteIffNoStray | backend/crates/insight-api/src/routes/auth.rs:404-434 | a revocation is complete, whatever follows, exactly when it finds no such refresh |
| RefreshTokens.StrayHappens | backend/crates/insight-api/src/routes/auth.rs:263-308 | a revocation can find one |
| RefreshTokens.SignOutCompleteIff | backend/crates/insight-api/src/routes/auth.rs:310-334 | in every run a sign-out leaves its session without an allowlisted token, whatever follows, exactly when it gets to the row with no token of the session allowlisted and no refresh between its row update and its allow |
| RefreshTokens.SignOutEndsSession | backend/crates/insight-api/src/routes/auth.rs:310-334 | after a sign-out with the allowlisted token no token of the session is ever allowlisted again |
| RefreshTokens.StaleSignOut | backend/crates/insight-api/src/routes/auth.rs:310-334 | in every run a sign-out with an older token revokes the row and leaves the allowlisted token of the session |
| RefreshTokens.StaleSignOutHappens | backend/crates/insight-api/src/routes/auth.rs:263-308 | after a refresh there is such an older token |
| RefreshAllowlist.AllowRefresh | backend/crates/insight-api/src/auth.rs:98-109 | the cache call is the protocol's allow step: the answering keys are the allowlisted tokens afterwards |
| RefreshAllowlist.ConsumeRefresh | backend/crates/insight-api/src/auth.rs:111-116 | the cache call is the refresh's first step and succeeds exactly when the token was allowlisted |
| RefreshAllowlist.RevokeRefresh | backend/crates/insight-api/src/auth.rs:118-121 | the cache call is the sign-out's first step or the revocation's drop |
| RefreshAllowlist.PassTime | backend/crates/insight-api/src/auth.rs:98-109 | passing time only takes tokens off the allowlist |
| JobQueue.StepInv | backend/crates/insight-core/src/storage/queue.rs:64-195 | every step of producers, workers, reclaim, acknowledgement and crashes keeps the invariant |
| JobQueue.EntryIsOneOf | backend/crates/insight-core/src/storage/queue.rs:122-195 | in every reachable state an entry is exactly one of undelivered, pending and acknowledged |
| JobQueue.AckedAfterFinish | backend/crates/insight-worker/src/main.rs:79-87 | an entry is acknowledged only after some worker ran `process` on it to the end |
| JobQueue.QueuedComesFirst | backend/crates/insight-core/src/storage/queue.rs:85-103 | a job's one `queued` event precedes every worker event of the job |
| JobQueue.OverlapNeedsTimeout | backend/crates/insight-worker/src/main.rs:36-42 | two workers are on one entry only if the earlier started at least 300 s ago |
| JobQueue.OverlapReached | backend/crates/insight-core/src/storage/queue.rs:158-185 | from every reachable state any worker that has not crashed can join a busy one on a pending entry at any time from 300 s after its last delivery on |
| JobQueue.OverlapIff | backend/crates/insight-worker/src/main.rs:36-42 | in every run, a worker that is not on the entry of a busy one can newly join it at a given time exactly when it has not crashed, the entry is still pending and its last delivery is 300 s back |
| JobQueue.NeverLost | backend/crates/insight-core/src/storage/queue.rs:158-185 | whatever crashes, an entry stays undelivered or pending until it was processed to the end |
| JobQueue.SweepReaches | backend/crates/insight-worker/src/main.rs:140-157 | a sweep over stale entries gets to each of them |
| JobQueue.PendingIsRecoverable | backend/crates/insight-worker/src/main.rs:137-157 | from every reachable state a fresh worker can reclaim, finish and acknowledge any pending entry |
| IngestRun.Run.PublishProgress | backend/crates/insight-core/src/storage/queue.rs:213-256 | row first, then the event; a failure in between leaves the part done |
| IngestRun.Run.EnterStage | backend/crates/insight-core/src/ingest.rs:546-560 | a check that reads cancelled announces nothing; an unreadable one counts as not cancelled |
| IngestRun.Run.Fetch | backend/crates/insight-core/src/ingest.rs:255-276 | leaves what the first actions leave, up to the first that fails |
| IngestRun.Run.ParseAndPersist | backend/crates/insight-core/src/ingest.rs:277-299 | the same up to the persist transaction |
| IngestRun.Run.Index | backend/crates/insight-core/src/ingest.rs:300-354 | the same up to done; a failed embedding does not end the run |
| IngestRun.Run.RunIngest | backend/crates/insight-core/src/ingest.rs:188-228 | leaves exactly the run's trace and succeeds exactly when every action did |
| IngestRun.RecordsPrefix | backend/crates/insight-core/src/ingest.rs:546-560 | what a run writes to the job row, and what it publishes, is a prefix of the announced stages, all of them if nothing fails |
| IngestRun.StagesInOrder | backend/crates/insight-core/src/ingest.rs:197-383 | a run takes its job row, and its events, through a prefix of 10, 28, 40, 60, 85, 95, 100, and after it at most one `failed`; before that the row is never behind the events and at most one stage ahead |
| IngestRun.ProgressGrows | backend/crates/insight-core/src/ingest.rs:115-142 | the progress numbers of the row, and of the events, are the first so many of 10, 28, 40, 60, 85, 95, 100, then 0 after a failure |
| IngestRun.StopsAfter | backend/crates/insight-core/src/ingest.rs:246-346 | which stages a run cannot get past when the row, the bytes, the parser, the persist transaction or the status write fails |
| IngestRun.SucceededIff | backend/crates/insight-core/src/ingest.rs:186-383 | a run succeeds exactly when its payload, row, bytes, parse, persist and status write work and every stage is announced uncancelled; embedding, marks and enqueue do not count |
| IngestRun.FullRunTrace | backend/crates/insight-core/src/ingest.rs:246-383 | what a full run leaves, in order: row and event of six stages, the document status, row and event of the last stage, the follow-up |
| IngestRun.LastJobRow | backend/crates/insight-core/src/ingest.rs:197-226 | the last job row a full run writes is `done` with 100; that of a run is `failed` with 0 exactly when it fails after its payload was read and that row can be written |
| IngestRun.FullRunStatus | backend/crates/insight-core/src/ingest.rs:325-342 | a full run writes one document status: indexed exactly when the persist step asked for no review and the embedding worked, else needs-review |
| IngestRun.FailedRunStatus | backend/crates/insight-core/src/ingest.rs:197-226 | a failed run's last document status is `failed` |
| IngestRun.CancelledStops | backend/crates/insight-core/src/ingest.rs:553-556 | a check that reads cancelled ends the stages and nothing is enqueued |
| IngestRun.KnowledgeBuildIsLast | backend/crates/insight-core/src/ingest.rs:353-382 | the knowledge build comes last, only after done, only for an indexed document |
| IngestRun.KnowledgeBuildIff | backend/crates/insight-core/src/ingest.rs:353-382 | the knowledge build is enqueued exactly by a full run that left the document indexed, when the organisation wants it and the enqueue works |
| Correlate.FindRepeats | backend/crates/insight-core/src/correlate.rs:74-87 | finds exactly the claims with a meaningful key that an earlier claim has |
| Correlate.DuplicatesCount | backend/crates/insight-core/src/correlate.rs:74-87 | duplicates are the keyed claims minus the distinct keys |
| Correlate.KeyClassKeepsOne | backend/crates/insight-core/src/correlate.rs:74-87 | every key class keeps exactly one claim, its first |
| Correlate.SharedKeyAgrees | backend/crates/insight-core/src/correlate.rs:66-73 | two claims with one key agree on subject and meaning exactly when their subjects are equally long |
| Correlate.AmbiguousIff | backend/crates/insight-core/src/correlate.rs:66-80 | a claim can share its deduplication key with one it does not agree with exactly when it has a key and the key has a second separator |
| Correlate.ConceptKeysAgree | backend/crates/insight-core/src/correlate.rs:66-73 | between two claims with concepts keys are equal exactly when subject and meaning are |
| Correlate.KeysCollide | backend/crates/insight-core/src/correlate.rs:66-73 | collisions happen between two free-text topics and between a concept and a topic |
| Correlate.KeylessIff | backend/crates/insight-core/src/correlate.rs:78-80 | a claim is keyless exactly when its meaning is missing, a lone colon, or ends in the separator |
| Correlate.WordsHoldInk | backend/crates/insight-core/src/correlate.rs:155-158 | the words of a string are non-empty, free of whitespace, and hold all its other characters |
| Correlate.WordsAreRuns | backend/crates/insight-core/src/correlate.rs:155-158 | whitespace stands between two consecutive words and otherwise only before the first and after the last |
| Correlate.ContradictsSymmetric | backend/crates/insight-core/src/correlate.rs:151-192 | contradiction does not depend on the order |
| Correlate.ContradictsIff | backend/crates/insight-core/src/correlate.rs:151-192 | two meanings contradict exactly when one has a negation word and the other none, both have content words, and they share at least three fifths of the smaller set of them |
| Correlate.NothingInCommon | backend/crates/insight-core/src/correlate.rs:185-192 | without a common content word there is no contradiction |
| Correlate.AddedNegation | backend/crates/insight-core/src/correlate.rs:155-161 | a meaning without a negation that has a content word contradicts itself with a negation word added |
| Correlate.GroupByConcept | backend/crates/insight-core/src/correlate.rs:92-97 | the groups are the claims of each concept, in order |
| Correlate.GroupConflicts | backend/crates/insight-core/src/correlate.rs:98-108 | one conflict per contradicting pair, flagging the later claim |
| Correlate.RowConflicts | backend/crates/insight-core/src/correlate.rs:100-107 | the innermost loop adds the later claims that conflict with claim i |
| Correlate.PairsCounted | backend/crates/insight-core/src/correlate.rs:98-144 | the reported number of conflicts is the number of contradicting pairs of claims of one concept |
| Correlate.FindConflicts | backend/crates/insight-core/src/correlate.rs:89-110 | flags exactly the claims that contradict an earlier one of their concept, counting pairs, whatever order the groups are walked in |
| Correlate.ClaimTable.MarkDuplicates | backend/crates/insight-core/src/correlate.rs:115-122 | exactly the named claims still pending become duplicates |
| Correlate.ClaimTable.FlagConflicts | backend/crates/insight-core/src/correlate.rs:124-143 | exactly the flagged claims become needs-review, one review entry each |
| Correlate.ClaimTable.Correlate | backend/crates/insight-core/src/correlate.rs:36-147 | the new status of every claim, whatever others did between the two transactions, the report and the review entries of a pass |
| Correlate.LoadTakesFirst | backend/crates/insight-core/src/correlate.rs:38-58 | the limit, clamped to 1..5000, cuts off the end: an unloaded pending claim comes after every loaded one |
| Correlate.PassDecides | backend/crates/insight-core/src/correlate.rs:66-143 | a loaded claim needs review when it contradicts an earlier one of its concept, else it is a duplicate when it is still pending and an earlier one has its key, else it stays what it is |
| Correlate.OthersStay | backend/crates/insight-core/src/correlate.rs:115-143 | a claim that was not loaded stays what it is |
| Correlate.ReopenedIff | backend/crates/insight-core/src/correlate.rs:124-143 | a claim settled between the two transactions is reopened exactly when review and conflict detection are on and it contradicts an earlier loaded claim of its concept |
| Correlate.SurvivorsAgree | backend/crates/insight-core/src/correlate.rs:66-110 | two claims the pass leaves pending share no meaningful key and do not contradict |
| Correlate.SurvivorsAreStable | backend/crates/insight-core/src/correlate.rs:66-110 | any list of survivors, in any order, has no duplicate and no conflict |
| Correlate.SecondPassFindsNothing | backend/crates/insight-core/src/correlate.rs:66-145 | with review and conflict detection on and all pending claims within the limit, a second pass reports zero duplicates and zero conflicts, whatever others do between the two transactions of the first except make claims pending |
| RrfFusion.AddList | backend/crates/insight-core/src/retrieve.rs:239-242 | adds each chunk's share of this list and keeps the first hit of each chunk |
| RrfFusion.RrfFuse | backend/crates/insight-core/src/retrieve.rs:235-253 | the duplicate-free union, each chunk with its summed shares and first hit, best first |
| RrfFusion.ListScoreOf | backend/crates/insight-core/src/retrieve.rs:238-240 | in a duplicate-free list a chunk gets the share of its one rank or nothing |
| RrfFusion.ShareIs | backend/crates/insight-core/src/retrieve.rs:239-240 | rank r, counted from zero, gives one part in 60 + r |
| RrfFusion.ScoreAdds | backend/crates/insight-core/src/retrieve.rs:236-244 | the scores of a chunk in several lists add up |
| RrfFusion.TwoSharesBeatOne | backend/crates/insight-core/src/retrieve.rs:33-37 | twice the worst share beats the best one exactly for lists of at most sixty |
| RrfFusion.BothBeforeOne | backend/crates/insight-core/src/retrieve.rs:231-253 | for two duplicate-free lists of at most sixty hits every chunk in both precedes every chunk in one |
| RrfFusion.SixtyOneTies | backend/crates/insight-core/src/retrieve.rs:33-37 | at sixty-one the two only tie |
| SettingsMerge.ApplyInPlace | backend/crates/insight-core/src/settings.rs:639-653 | the recursive loop over the patch, in any order, computes the merge and terminates |
| SettingsMerge.ApplyIsMergePatch | backend/crates/insight-core/src/settings.rs:636-653 | the merge is MergePatch of section 2 of RFC 7396 exactly on compatible patches |
| SettingsMerge.MergeIntoNothing | backend/crates/insight-core/src/settings.rs:636-653 | MergePatch into a non-object returns the patch exactly when it is null-free |
| SettingsMerge.ApplyToItself | backend/crates/insight-core/src/settings.rs:636-653 | a patch applied to itself changes nothing exactly when it is null-free |
| SettingsMerge.ApplyTwice | backend/crates/insight-core/src/settings.rs:636-653 | a second application changes nothing exactly when the patch was compatible |
| SettingsMerge.NotIdempotent | backend/crates/insight-core/src/settings.rs:645-651 | a nested null inserted under a new key is removed by a second application |
| SettingsMerge.UntouchedUnchanged | backend/crates/insight-core/src/settings.rs:636-653 | a path the patch does not touch leads to the same value, at every depth |
| SettingsStore.ReadsAreInRange | backend/crates/insight-core/src/settings.rs:276-302 | whatever was stored, reading a clamped integer yields a value within its bounds |
| SettingsStore.IntsAreNearest | backend/crates/insight-core/src/settings.rs:276-302 | a clamped integer key reads as the value within its bounds nearest to the stored one or the default |
| SettingsStore.FloatsAreNearest | backend/crates/insight-core/src/settings.rs:271-302 | the same for a clamped float key, integers included |
| SettingsStore.OtherKeysOverlay | backend/crates/insight-core/src/settings.rs:291-302 | an unclamped key is the override or else the default |
| SettingsStore.OrgKeysDistinct | backend/crates/insight-core/src/settings.rs:165-180 | no two clamps of the org scope concern the same key |
| SettingsStore.SettingsStore.Tick | backend/crates/insight-core/src/settings.rs:338-342 | time only makes cached bundles disappear, and ten seconds all of them |
| SettingsStore.SettingsStore.CacheGet | backend/crates/insight-core/src/settings.rs:338-342 | answers exactly the bundles that are live |
| SettingsStore.SettingsStore.CachePut | backend/crates/insight-core/src/settings.rs:344-354 | the bundle becomes live, the others stay as they are |
| SettingsStore.SettingsStore.CacheInvalidate | backend/crates/insight-core/src/settings.rs:356-360 | the bundle is no longer live, the others stay as they are |
| SettingsStore.SettingsStore.Resolve | backend/crates/insight-core/src/settings.rs:365-373 | run without interruption: exactly the current bundle if the cache was coherent, always one effective in the last ten seconds |
| SettingsStore.SettingsStore.PatchSystem | backend/crates/insight-core/src/settings.rs:386-405 | run without interruption: stores the merge, answers the new effective bundle, refills the cache with it |
| SettingsStore.SettingsStore.PatchOrg | backend/crates/insight-core/src/settings.rs:476-523 | run without interruption: stores the merge, answers the new effective bundle, leaves the key uncached |
| SettingsStore.SettingsStore.Write | backend/crates/insight-core/src/settings.rs:393-402 | a write by this or another process keeps what was effective when |
| SettingsStore.HistoryStays | backend/crates/insight-core/src/settings.rs:338-354 | a later write does not take back what was in force before |
| SettingsStore.PatchStaysCoherent | backend/crates/insight-core/src/settings.rs:356-360 | writing one key and dropping its entry keeps the rest of the cache current |
| SettingsProtocol.StepInv | backend/crates/insight-core/src/settings.rs:365-420 | every step of interleaved resolves, patches and foreign writes keeps the invariant |
| SettingsProtocol.AnswersAreRecent | backend/crates/insight-core/src/settings.rs:338-373 | in every run every answer was in force when its row was read, less than ten seconds plus its read-to-put delay ago |
| SettingsProtocol.CurrentAgain | backend/crates/insight-core/src/settings.rs:338-373 | ten seconds plus the delay after the last write of its key an answer is the current bundle |
| SettingsProtocol.StaleAnswerIff | backend/crates/insight-core/src/settings.rs:365-405 | in every run, without further writes, a stale answer can still come exactly when a stale bundle is fresh in the cache or held by a request |
| SettingsProtocol.OvertakenRead | backend/crates/insight-core/src/settings.rs:365-373 | a resolve overtaken by a patch between its read and its put makes the next answer stale, with one writing process |
| SettingsProtocol.UpsertKeepsIff | backend/crates/insight-core/src/settings.rs:386-402 | what a patch does not touch survives its write exactly when it has not changed since the patch read the row |
| SettingsProtocol.LostPatch | backend/crates/insight-core/src/settings.rs:476-509 | of two patches that read before either writes only the second remains |
| KeyStore.SecondReservation | backend/crates/insight-core/src/storage/cache.rs:74-86 | of two reservations of a key the second succeeds exactly when the time to live of what the first one set or found has run out |
| KeyStore.Cache.Tick | backend/crates/insight-core/src/storage/cache.rs:65-72 | time only makes keys disappear, exactly those whose time to live has run out |
| KeyStore.Cache.Read | backend/crates/insight-core/src/storage/cache.rs:59-63 | answers exactly the live keys |
| KeyStore.Cache.Write | backend/crates/insight-core/src/storage/cache.rs:65-72 | the key answers the value from then on, the other keys what they did |
| KeyStore.Cache.Reserve | backend/crates/insight-core/src/storage/cache.rs:74-86 | succeeds exactly when the key answers nothing, and otherwise changes nothing that answers |
| KeyStore.Cache.Remove | backend/crates/insight-core/src/storage/cache.rs:88-92 | the key answers nothing any more, the other keys what they did |
| KeyStore.Cache.Take | backend/crates/insight-core/src/storage/cache.rs:94-102 | answers the live value and makes the key answer nothing, so a second caller gets nothing |
| Idempotency.StepInv | backend/crates/insight-api/src/routes/documents.rs:225-277 | for each key: every step keeps a lone request inside with its own pending mark, except a reservation while that request is late, which puts a second one inside |
| Idempotency.AtMostOneInside | backend/crates/insight-api/src/routes/documents.rs:225-250 | in every run, for each key: at most one request is inside exactly as long as nobody reserves the key while a late request is inside for it |
| Idempotency.DoubleHappens | backend/crates/insight-api/src/routes/documents.rs:23-28 | a second request can get inside, and then has a fresh reservation |
| Idempotency.FailureAdmits | backend/crates/insight-api/src/routes/documents.rs:264-276 | in every run, once two requests are inside, the failure of one deletes the mark of the other and a further request gets inside at once |
| Idempotency.StoredStays | backend/crates/insight-api/src/routes/documents.rs:252-263 | in every run a stored response stays until it expires, whatever follows, exactly when nobody is inside for its key any more |
| Idempotency.ReplayedExactly | backend/crates/insight-api/src/routes/documents.rs:235-248 | if nobody is, then until it expires nobody gets inside and every reader is answered with exactly the stored body |
| Idempotency.CreatedIsReplayed | backend/crates/insight-api/src/routes/documents.rs:252-263 | in every run, whatever follows, whoever reads the key within a day of a creation gets the very body its creator was answered with exactly when the creator was alone inside for the key |
| Idempotency.FailureReleases | backend/crates/insight-api/src/routes/documents.rs:264-276 | in every run, after a failed attempt, late or not, the next request for the key gets inside |
| Idempotency.DeathFreesKey | backend/crates/insight-api/src/routes/documents.rs:23-28 | if nobody reserved its key while another request for it was late, an attempt that dies inside blocks the key for the rest of its 60 s and no longer |
| Idempotency.AdmittedIffLate | backend/crates/insight-api/src/routes/documents.rs:23-28 | as long as that lasts, a second request is admitted for a key exactly when the one inside has outlived its reservation |
| Idempotency.ReserveKey | backend/crates/insight-api/src/routes/documents.rs:235-239 | the cache call is the protocol's first step and says whether the request is inside |
| Idempotency.AnswerReader | backend/crates/insight-api/src/routes/documents.rs:240-247 | the answer is the one the protocol's read step records |
| Idempotency.StoreResponse | backend/crates/insight-api/src/routes/documents.rs:252-263 | the cache call ends a successful attempt as the protocol does |
| Idempotency.ReleaseKey | backend/crates/insight-api/src/routes/documents.rs:264-276 | the cache call ends a failed attempt as the protocol does |
| Codecs.UrlEncode | backend/crates/insight-api/src/routes/users.rs:62-73 | the loop computes the percent-encoding |
| Codecs.EncodesAs | backend/crates/insight-api/src/routes/users.rs:62-73 | letters, digits and `-._~` stand for themselves, any other byte for its upper-case escape |
| Codecs.PercentDecode | apps/desktop/src-tauri/src/oauth.rs:30-58 | the loop computes the decoding, malformed escapes included |
| Codecs.DecodesEscape | apps/desktop/src-tauri/src/oauth.rs:35-43 | an escape stands for its byte, whatever the case of its two digits |
| Codecs.DecodesPlain | apps/desktop/src-tauri/src/oauth.rs:44-55 | a plus sign stands for a space, any other byte, and a percent sign that starts no complete escape, for itself |
| Codecs.DecodeEncode | apps/desktop/src-tauri/src/oauth.rs:30-58 | decoding an encoded string gives it back, whatever follows |
| Codecs.RoundTrip | backend/crates/insight-api/src/routes/users.rs:62-73 | decoding undoes encoding on every byte string |
| Codecs.EncodedAlphabet | backend/crates/insight-api/src/routes/users.rs:62-73 | the encoding has only unreserved bytes and percent signs |
| Codecs.ParseQuery | apps/desktop/src-tauri/src/oauth.rs:60-75 | the loop captures the last code and the last state of the query |
| Codecs.QueryRoundTrip | apps/desktop/src-tauri/src/oauth.rs:60-75 | parsing an encoded query gives back the value of the last `code` and of the last `state`, in whatever order and among whatever other pairs |
| Codecs.RedirectRoundTrip | apps/desktop/src-tauri/src/oauth.rs:60-75 | parsing an encoded redirect gives back exactly the code and the state, whatever bytes they are, in either order |
| Codecs.BuildQueryKey | backend/crates/insight-core/src/retrieve.rs:181-191 | the loop computes the escaped key |
| Codecs.QueryKeyInvertible | backend/crates/insight-core/src/retrieve.rs:175-191 | the escaping has a left inverse and emits no colon |
| Codecs.CacheKeyDetermines | backend/crates/insight-core/src/retrieve.rs:328-334 | two searches share a cache key exactly when tenant and normalized query agree and the counts are equal, both at least 50 or both at most 1 |

## Left out

- PageRank.PageRank: floating-point rounding and the label look-up are not modelled; scores are reals, and node ids are distinct with every edge end listed, as the primary and foreign keys of the tables demand.
- RrfFusion.RrfFuse: scores and the overlap test of Correlate.Contradicts are over reals, without rounding.
- SettingsStore.SettingsStore.Resolve: speaks of a resolve that no other request interrupts; SettingsProtocol has the interleavings.
- SettingsStore.SettingsStore.PatchSystem: the same for the read, write and invalidation of a patch; the nested clamps of the system scope are not modelled.
- SettingsStore.SettingsStore.PatchOrg: the same; name and logo of the bundle are not modelled.
- Idempotency.StepInv: cache calls succeed; a failed write of the final response leaves the pending mark to its time to live.
- Persist.Tables.Persist: the tables hold the rows of one document; page sizes, thumbnails, figure crops, bounding boxes and the transaction's rollback are not modelled, and random ids are parameters that do not repeat.
- RefreshTokens.StepInv: the time to live of an allowlist entry is a step that may happen at any moment; token signatures, cookies, access tokens and password hashing are not modelled.
- JobQueue.StepInv: the stream stays below its trim cap, and a reclaim scan sees the whole pending list.
- JobQueue.OverlapReached: so does the way to the entry rely on that scan; one call with COUNT 1 from `0-0` that looks only at the head of the list may not get to an entry behind many fresh ones.
- JobQueue.PendingIsRecoverable: says that recovery stays possible, not that a scheduler makes it happen.
- IngestRun.LastJobRow: speaks of the rows the run itself writes; a cancellation may overwrite them.
- IngestRun.CancelledStops: a `cancelled` written between the check and the publication is overwritten by the code, so cancellation is not sticky and no such claim is made.
- IngestRun.Run.RunIngest: the document, parser, storage and model calls are outcomes chosen from outside.
- Correlate.ClaimTable.Correlate: what others do while the second transaction runs is not modelled; the query's order is the order of `claims`; the clamp of the limit is modelled, the settings look-up is not.
- Codecs.PercentDecode: bytes only; the lossy UTF-8 conversion of the result is not modelled.
- Codecs.CacheKeyDetermines: the tenant id is a string without colons; lower-casing and whitespace collapsing of the query come before the key.
- TextWindows.ChunkText: strings are sequences of characters, not of UTF-16 code units.
- Chunker.ChunkText: lengths are unbounded integers.
- Exactly-once processing: does not hold, see JobQueue.OverlapIff.
- HTTP, SQL text, Redis, MinIO, JWT, argon2, LLM, parser and inference calls: only the atomic effect of each call on abstract state.
- `build_graph`, topic compilation, study scheduling, roles, webhooks, billing, rate limits, user interface: easy members or input and output.
