# Verification of the messages timeline

Arne shows a Kafka topic as a timeline. A browser window asks a paging engine for
pages of records, back or forward from per-partition positions, and keeps a bounded
stretch of them in memory. This project models that timeline, and three smaller
components beside it, and proves what their comments promise.

**The paging engine** (`PageWindows`, `PollScan`, `OffsetOrder`, `ChunkMerge`,
`PageAdvance`, `DisplayOrder`, `PageGround`, `PageNearest`, `PageEngine`, `PageChain`). A page is a
loop of chunks: plan one offset window per partition within what is left of the scan
budget, scan Kafka, drop what cannot be trusted, merge by timestamp, filter, advance
each position by exact offset, charge the ground covered, send the matches. A
partition's log is a set of real records with holes anywhere between them, and
timestamps may be missing or out of order. Scanning is an oracle bound by one contract
(`PollScan.Scanned`), which is itself proved of the poll loop over any stream of
messages, end marks and errors, cut short anywhere. Sending is a receiver that takes
some number of events and is then gone; cancelling is a flag that, once up, stays up.

**The window** (`WindowState`, `WindowInvariant`, `WindowDisplay`, `LiveTail`,
`StoreSteps`, `TimelineStore`). The store is a class with the original's fields. Each
of its methods is proved to take the window, seen as a value, from one value to the
next exactly as `WindowState` states, and the interval claims are proved about those
values.

**Both together** (`Session`, `PageDelivery`, `PageAccepted`, `PageDisplay`). A state
machine of the window, the one page that may be in flight, live deliveries and production. Its
invariant is the claim at the head of the store: what is held between a partition's two
edges is exactly the matching records of that interval. `PageDelivery` shows that every
page the engine ends is an answer the session may get; `PageAccepted` that the window
takes it and moves on by it; `PageDisplay` says when the window shows a page in the
order it was sent.

**Filters** (`JsonEquality`, `JsonOrder`, `PathTokens`, `PathWalk`, `FieldPaths`,
`FilterTerms`, `FilterServer`, `FilterQuery`, `FilterAgreement`, `QueryText`,
`QueryMeaning`). Two implementations, one in the browser and one in the backend, that
must select the same rows: those the typed query means.

**Single flight and caches** (`SingleFlight`, `SnapshotProtocol`, `SnapshotAnswers`,
`CachedRefresh`, `KeyedCache`) and **two binary decoders** (`MessageIndexes`, `Assignment`). `Rows`,
`Doubles` and `MergeOrder` hold what everything shares: records, lanes, the browser's
rounding of numbers, and the k-way merge that the engine, the page emitter and the
window each run with loops of their own.

## What is assumed

- The log is the set of all records ever to exist, keyed by partition and offset; a
  high watermark says how far it has been written. Low watermarks do not move.
- Positions handed to a page name distinct partitions, watermarks satisfy `lo <= hi`,
  and a page wants at least one match.
- Pages are asked for from the store's own edges, one at a time; an anchor page follows
  a clear; rows delivered live leave no real record between a partition's ceiling and
  themselves, which `LiveTail` derives for a tail that reads each partition in order from
  no higher than where the window was caught up. The interval claims are for partitions
  with an entry in both edge maps.
- Every cache key has one slot of its own, and the clock that bounds a wait is the one
  that stamps the slots.
- Lower-casing, number formatting, JSON parsing and UTF-8 decoding are parameters. The
  two JSON parsers accept the same texts and read the same values up to the order of
  object entries. Where a query's text is read, ASCII letters at its front are lower-cased
  one by one.

## Where the code is not what its comments say

- The "same" display order is not the same for every timestamp. The browser parses
  timestamps to doubles, so two stamps the server tells apart may be one to it
  (`DisplayOrder.RoundedStampsDiffer`); and a missing timestamp is the smallest 64-bit
  number to the server but less than every number to the browser.
  `DisplayOrder.BackShowsAsWindow` says exactly when a chunk is shown alike.
- Chunk by chunk is not page by page: with ordinary timestamps out of order a page of two
  chunks is sent in one order and shown in another (`PageDisplay.TwoChunksDiffer`).
  `PageDisplay.PageShowsAsSent` says exactly when a page is not.
- "Display order equals pop order" fails for filtered chunks with timestamps out of
  order; `DisplayOrder.ShownAsPopped` gives the exact condition and
  `DisplayOrder.FilteredCanReorder` an example.
- The browser's `first in obj` also sees inherited properties, so a path ending in
  `__proto__.__proto__` reaches a null that the server does not;
  `FilterAgreement.FiltersAgree` states the agreement up to exactly that case, and
  `FilterAgreement.PhantomIsReal` gives a query and a message for it.
- "Object order does not matter" to `value=` and `value!=` unless the query's JSON has keys
  that differ only in case: the browser meets them as written, the server sorted
  (`FilterAgreement.EntryOrderMisleads`). It does not matter, to any message, exactly when
  such keys carry equal values (`JsonOrder.OrderIrrelevant`).
- The completion list prints an empty key at the root as if it were not there
  (`FieldPaths.EmptyKeyMisleads`); `FieldPaths.OfferedPathLands` says what each path
  reaches, and `PathTokens.RoundTrip` exactly when tokenizing gives its steps back.
- "The proposal is directly typeable" fails for a field name with `<`, `>` or `!=` in it,
  which the printer leaves unquoted (`QueryText.AngleMisleads`). `QueryText.WrittenReads`
  says exactly which paths are typeable, `QueryText.ProposalReads` that a path without
  those signs is.
- A refresh without the key can begin after the slot was first filled, by a caller that
  had found it empty just before (`SnapshotProtocol.UnguardedAfterPut`); no caller that
  reads later does (`SnapshotProtocol.NoNewUnguarded`).
- Sweeping a keyed cache is invisible for a time to live up to the horizon, and for no
  positive one beyond it (`KeyedCache.EvictionIsInvisible`).

## Model

| member | source | states |
|---|---|---|
| Session.WindowIsExact | frontend/src/lib/timelineStore.ts:205-416 | after any run of jumps, page requests, answers, failures, live deliveries and production, with one page in flight and live rows arriving meanwhile, a partition with both edges holds exactly the matching records of `[bottom, top)`, each once and in offset order, and the window is within its limit |
| Session.AnswerKeeps | frontend/src/lib/timelineStore.ts:604-692 | an answer either finds its start overtaken and changes nothing, or extends the held spans without a hole and leaves the window within its limit |
| Session.LiveKeeps | frontend/src/lib/timelineStore.ts:693-726 | live rows and the bottom trim they cause keep every span exact and keep a page in flight comparable with the edges |
| Session.StaleIffTrimmed | frontend/src/lib/timelineStore.ts:597-613 | a page asked for just before a live delivery is rejected if and only if the delivery's trim took rows of a partition the page reads |
| Session.StepKeeps | frontend/src/lib/timelineStore.ts:615-789 | every event of the session keeps the whole invariant |
| PageDelivery.PageIsAnswer | backend/src/message/timeline/engine.rs:473-628 | a page the engine ended delivers exactly what the window's invariant asks of an answer: rows, positions reached, and a cursor unless all are watermarks |
| PageDelivery.EngineMayAnswer | backend/src/message/timeline/engine.rs:613-624 | so any page the engine ends for the request in flight is a legal event of the session |
| PageAccepted.OvertakenIff | frontend/src/lib/timelineStore.ts:604-613 | a page read forward is never overtaken, nor an anchor page; one read back is exactly when the bottom edge of a partition it reads has moved since it was asked for |
| PageAccepted.AnswerIsTaken | frontend/src/lib/timelineStore.ts:616-692 | any other answer is taken in whole: its rows and those held before are held unless the limit trims them off the other end, the window can be continued where the page ended, and it is attached exactly by what met the tail |
| PageAccepted.ForwardIsTaken | frontend/src/lib/timelineStore.ts:616-692 | in every reachable state a page asked for at the top moves the window up to its cursor, or attaches it when it has none |
| PageAccepted.ForwardCatchesUp | frontend/src/lib/timelineStore.ts:396-416 | a page read forward with nothing left to read leaves no record between the window and the watermark, for every partition with a bottom edge when the window began in the past |
| PageAccepted.OwnEdgeIsTaken | frontend/src/lib/timelineStore.ts:604-613 | for edges alone, in either direction: a page that starts at the window's own edge is accepted |
| PageAccepted.ReadsOnBelow | frontend/src/lib/timelineStore.ts:755-775 | after a page read back the bottom cursor is where it ended |
| PageAccepted.ReadsOnAbove | frontend/src/lib/timelineStore.ts:571-584 | a window that gave up its newest rows has a top edge for every partition it held, and offers it unless it began in the past and lacks another |
| PageAccepted.PastReadsOnWhole | frontend/src/lib/timelineStore.ts:755-775 | over any run after a jump into the past, a top cursor has every partition the bottom edge has |
| PageChain.ChainFinds | backend/src/message/timeline/engine.rs:177-217 | following cursors in one direction, over any spans, budgets and completeness verdicts and while records are produced in between, the pages show exactly the matching records between start and final cursor, each once |
| PageChain.ExhaustionIsComplete | backend/src/message/timeline/engine.rs:401-416 | a direction followed to exhaustion shows every matching record from the start to the watermark and nothing else |
| PageChain.BackAndForwardSplit | backend/src/message/timeline/window.rs:35-44 | going back and going forward to exhaustion from the same positions split the log: every matching record is shown by exactly one of the two |
| PageEngine.RunPage | backend/src/message/timeline/engine.rs:473-628 | the matches sent are exactly the matching records between the clamped start and the positions reached, each once, each partition's strictly outward, never more than the limit; exhausted exactly when every position sits at its edge; a cursor only with the limit reached or the budget spent to the last offset; no more chunks than offsets charged, and however it goes at most one more, frozen by a cancellation; progress never goes back or past the budget; an unfiltered page whose first scan is whole shows the best `limit` rows of the whole log beyond its start when no offset is missing among the `limit` next to each position and the budget pays for those, and any page whose first scan is whole and paid for begins with the best matches its reach holds; the page's end is sent last, once, behind the totals, and only if the page ended; a failure is reported last and leaves what was sent exact |
| PageEngine.NextRowsNearest | backend/src/message/timeline/engine.rs:503-561 | a chunk scanned whole and paid for shows the best matches the log holds within its reach: as many offsets of each partition as an unfiltered page wants in its first chunk, a full span in any other |
| PageEngine.PlentyShowsBest | backend/src/message/timeline/engine.rs:85-117 | and with no hole next to the positions the first chunk of an unfiltered page is the page, and what it shows is the best of the whole log |
| PageNearest.ChunkIsNearest | backend/src/message/timeline/engine.rs:177-332 | gating and merging complete windows amounts to merging the log itself within reach of the positions |
| PageNearest.TakenAreFirst | backend/src/message/timeline/engine.rs:268-303 | stopping at the last match wanted, or with nothing left, takes the first matches of that merge |
| PageNearest.PlanReaches | backend/src/message/timeline/engine.rs:85-135 | when what is left pays for it a plan is the whole of its reach, one window for each active position |
| PageNearest.NearestOfAll | backend/src/message/timeline/engine.rs:85-92 | with no offset missing among the `k` next to each position, the best `k` records within that reach are the best `k` of the whole log |
| MergeOrder.MergeOfHeads | backend/src/message/timeline/engine.rs:276-303 | the first `k` records of a merge depend on the first `k` of each stream only |
| PageEngine.RunChunk | backend/src/message/timeline/engine.rs:503-611 | one round: at the edges nothing is scanned, a scan error or a stalled uncancelled chunk fails and only those do, and a committed uncancelled chunk always charges at least one offset |
| PageEngine.TakeChunk | backend/src/message/timeline/engine.rs:547-606 | from the selected streams to the committed and emitted chunk, including the receiver leaving in the middle |
| PageEngine.SettleChunk | backend/src/message/timeline/engine.rs:563-606 | a chunk with nothing taken and a window incomplete fails unless cancelled; otherwise it is committed before it is sent |
| PageEngine.Commit | backend/src/message/timeline/engine.rs:563-593 | the committed page went over exactly the ground its records lie on and is charged for it |
| PageEngine.EmitChunk | backend/src/message/timeline/engine.rs:418-444 | the matches go out in display order, then the progress; a failed send stops at once |
| PageEngine.MidEventsHonest | backend/src/message/timeline/engine.rs:56-70 | progress sent while records are popped lies between the charge before the chunk and the one after it |
| PageEngine.UncancelledMoves | backend/src/message/timeline/engine.rs:20-31 | a chunk that took something, or whose windows were all complete and empty, moves some position |
| PageEngine.PageNext | backend/src/message/timeline/engine.rs:589-593 | committing a chunk to a page that was exact leaves it exact |
| PageEngine.IdleChunk | backend/src/message/timeline/engine.rs:507-515 | a chunk that charged nothing moved nothing and found nothing |
| PageEngine.PaidNext | backend/src/message/timeline/engine.rs:503-515 | chunks are paid for one by one, except one frozen by a cancellation, after which the loop stops |
| PageEngine.PoppedFits | backend/src/message/timeline/engine.rs:312-316 | records popped never outnumber the offsets planned |
| PageEngine.NextWindows | backend/src/message/timeline/engine.rs:126-135 | the plan is sound for the positions, costs no more than what is left and is empty only at the edges |
| PageGround.ChunkCovers | backend/src/message/timeline/engine.rs:334-399 | the records a chunk takes are exactly the real ones its positions moved over, and the charge lies between their number and the plan's total |
| PageGround.ShownIsFound | backend/src/message/timeline/engine.rs:305-309 | the matches shown for a chunk are the matching records it went over, each once |
| PageGround.FoundChain | backend/src/message/timeline/engine.rs:177-217 | what two stretches in a row find is disjoint and together what the whole finds |
| PageGround.OutwardChain | backend/src/message/timeline/engine.rs:334-386 | over two stretches in a row each partition's matches move strictly away from the start |
| PageGround.CrossesChain | backend/src/message/timeline/engine.rs:349-386 | going on from where the last stretch ended goes over new ground only |
| PageGround.WholeChunkMoves | backend/src/message/timeline/engine.rs:365-372 | a complete window with nothing left moves its position to the window's far end |
| PageAdvance.AfterTakes | backend/src/message/timeline/engine.rs:334-386 | whatever holes the log has, the records taken from a stream are exactly those between the old position and the new one |
| PageAdvance.AfterBounds | backend/src/message/timeline/engine.rs:388-399 | a position moves at least one offset per record, at least one when anything is settled, and never out of its window |
| PageAdvance.PositionAdvances | backend/src/message/timeline/engine.rs:357-386 | the same for a tracked position, found or not among the windows |
| PageAdvance.ChargeModerate | backend/src/message/timeline/engine.rs:393-399 | the charge is at least the records counted per partition and at most the spans planned |
| PageAdvance.ShareSumAll | backend/src/message/timeline/engine.rs:393-399 | every record taken is counted once, under its own position |
| PageWindows.SpanFits | backend/src/message/timeline/engine.rs:85-117 | a chunk asks each active partition for as many offsets as what is left pays for, at least one, and up to what the page wants on the first unfiltered chunk and a full span on any other: one offset more would be more than either |
| PageWindows.PlanIsSound | backend/src/message/timeline/engine.rs:119-135 | one window next to each position taken, in order, the total within the budget, and none only when every position is at its edge |
| PageWindows.RangesNextTo | backend/src/message/timeline/window.rs:5-33 | one non-empty window, at most `span` long and inside the watermarks, for each position off its edge |
| PageWindows.CapWindowsToBudget | backend/src/message/timeline/window.rs:109-140 | the loop keeps the specified prefix |
| PageWindows.AffordableIsLongest | backend/src/message/timeline/window.rs:109-140 | that prefix fits and one window more would not |
| PageWindows.ClampedInRange | backend/src/message/timeline/window.rs:46-89 | clamped positions are known, inside their watermarks and still distinct |
| PageWindows.ClampIdle | backend/src/message/timeline/window.rs:76-89 | clamping what is inside changes nothing, so a cursor is followed from where it points |
| PageWindows.ClampedToNearest | backend/src/message/timeline/window.rs:46-89 | a position is moved to the nearest offset its partition has, and one without watermarks is dropped |
| PollScan.FetchRanges | backend/src/message/fetch.rs:150-249 | for any in-order stream with end marks and transient errors, stopped at any point: each partition's records are an ascending prefix of the real ones in its range, and a partition is complete exactly when it was empty, marked ended or read to its target, and then has all of them |
| PollScan.ConsumeKeeps | backend/src/message/fetch.rs:219-237 | one poll keeps that for every partition |
| PollScan.StoppedScanned | backend/src/message/fetch.rs:127-148 | wherever the loop stops, the outcome is a sound scan |
| ChunkMerge.SelectPartitionStreams | backend/src/message/timeline/engine.rs:177-217 | the streams are the gated groups, window by window |
| ChunkMerge.SelectTrusted | backend/src/message/timeline/engine.rs:162-217 | a gated stream can be consumed from the position outward: it is the real records up to some cut, all of them when complete or when read back to the adjacent offset; and it holds what was fetched exactly when the window is complete or the adjacent offset arrived, and nothing otherwise |
| ChunkMerge.MergeChunkRecords | backend/src/message/timeline/engine.rs:244-332 | records are taken best head first until the limit or until the streams are drained; matches, extremes and progress are those of the records taken; a failed send stops at the record it was due for |
| ChunkMerge.MidEventsAre | backend/src/message/timeline/engine.rs:47-70 | while records are taken there is progress for every 2000 of them, with the counts so far, and for nothing else |
| ChunkMerge.WalkedMerges | backend/src/message/timeline/engine.rs:276-303 | taking best heads is the merge: what is taken is its beginning and what is left merges to its rest |
| ChunkMerge.PickBest | backend/src/message/timeline/engine.rs:280-296 | one pass finds the head that goes before every other |
| MergeOrder.MergeKeepsLanes | backend/src/message/timeline/merge.rs:30-35 | the merge loses nothing, adds nothing and keeps each partition's own order |
| MergeOrder.MergedAt | backend/src/message/timeline/merge.rs:59-84 | every merged record is the first of its partition not merged before it |
| MergeOrder.MergeResumes | frontend/src/lib/timelineStore.ts:446-468 | merging what a prefix left behind continues the same output |
| MergeOrder.MergeOfTaken | frontend/src/lib/timelineStore.ts:446-468 | merging only what a prefix took gives that prefix again |
| DisplayOrder.ChunkDisplayOrder | backend/src/message/timeline/merge.rs:30-86 | the popping loop computes the specified merge of the offset-sorted groups |
| DisplayOrder.DisplayPermutes | backend/src/message/timeline/merge.rs:36-86 | the display order is a permutation of the matches |
| DisplayOrder.DisplayLanes | backend/src/message/timeline/merge.rs:30-35 | inside a partition matches come by offset, whatever their timestamps |
| DisplayOrder.UnfilteredKeepsPopOrder | backend/src/message/timeline/merge.rs:30-86 | an unfiltered chunk is shown in the order it was popped |
| DisplayOrder.ShownAsPopped | backend/src/message/timeline/merge.rs:30-86 | a filtered chunk is, exactly when each match goes before the next match of every other partition |
| DisplayOrder.FilteredCanReorder | backend/src/message/timeline/merge.rs:30-86 | and with timestamps out of order it need not be: an example |
| DisplayOrder.BackShowsAsWindow | backend/src/message/timeline/merge.rs:34-35 | going back, the matches of one chunk are shown as the window would merge them alone if and only if no match is confused with the next match of another partition |
| DisplayOrder.WindowShowsAsReceived | frontend/src/lib/timelineStore.ts:446-468 | rows received newest first are merged back into the order received if and only if each goes, as the browser reads timestamps, before the next one of every other partition |
| DisplayOrder.UsualStampsShownAlike | backend/src/message/timeline/merge.rs:34-35 | with every timestamp missing or within 2^53 of zero the two sides show one chunk alike |
| DisplayOrder.RoundedStampsDiffer | frontend/src/api/sse.ts:25-25 | with 2^53 and 2^53 + 1 they do not: an example |
| Doubles.AsDoubleKeepsOrder | frontend/src/api/sse.ts:25-25 | parsing a number to the nearest double may make two stamps one but never turns them round |
| Doubles.AsDoubleIsNearest | frontend/src/api/sse.ts:25-25 | each number is read as the double nearest to it, the even one of two, whatever its size and sign |
| DisplayOrder.PairShownAlike | backend/src/message/timeline/merge.rs:16-27 | two records are shown alike exactly when they are not confused: one unstamped and one stamped with the smallest 64-bit number, or two stamps one double to the browser, the side that tells them apart preferring the larger partition |
| DisplayOrder.SidesMergeAlike | frontend/src/lib/timelineStore.ts:452-461 | any streams without a confused pair are merged alike by both sides |
| PageDisplay.PageShowsAsSent | backend/src/message/timeline/engine.rs:418-444 | a page read back that ended, once in the window, is shown in the order it was sent if and only if each row goes, as the browser reads timestamps, before the next one of every other partition |
| PageDisplay.TwoChunksDiffer | backend/src/message/timeline/merge.rs:34-35 | two chunks, each shown as the window shows it, whose page is not: an example with ordinary timestamps |
| TimelineStore.SlidingWindowStore.InsertPage | frontend/src/lib/timelineStore.ts:616-692 | a stale page changes nothing; an accepted one leaves exactly the specified window and reports exactly what was trimmed |
| TimelineStore.SlidingWindowStore.InsertLive | frontend/src/lib/timelineStore.ts:693-726 | refused while detached, otherwise merged above, capped below |
| TimelineStore.SlidingWindowStore.EnforceCap | frontend/src/lib/timelineStore.ts:545-595 | exactly the excess goes, from the end opposite to the one that grew |
| TimelineStore.SlidingWindowStore.TrimNewest | frontend/src/lib/timelineStore.ts:560-563 | removing rows one by one leaves each lane cut at one place, and the offsets noted for it begin there |
| TimelineStore.SlidingWindowStore.CheckStale | frontend/src/lib/timelineStore.ts:604-613 | whether the same-side edge has moved past the page's start |
| TimelineStore.SlidingWindowStore.InsertRows | frontend/src/lib/timelineStore.ts:488-508 | new offsets are inserted once each and their extremes reported |
| TimelineStore.SlidingWindowStore.RemoveMessage | frontend/src/lib/timelineStore.ts:474-481 | one row leaves its lane, and the lane leaves when empty |
| TimelineStore.SlidingWindowStore.GetRows | frontend/src/lib/timelineStore.ts:727-730 | the cached rows are always the fresh merge |
| TimelineStore.SlidingWindowStore.PreviewWithOverlay | frontend/src/lib/timelineStore.ts:731-754 | the merge with the extra rows in it, with nothing committed |
| TimelineStore.SlidingWindowStore.GetEdges | frontend/src/lib/timelineStore.ts:755-775 | the positions each side can be continued from, masked as specified |
| StoreSteps.MergeRowsFrom | frontend/src/lib/timelineStore.ts:446-468 | the index-walking merge computes the specified one |
| StoreSteps.InsertByOffsetAscending | frontend/src/lib/timelineStore.ts:14-23 | binary search and splice insert in offset order |
| StoreSteps.FindOffsetIndex | frontend/src/lib/timelineStore.ts:26-35 | binary search finds the offset or says there is none |
| WindowInvariant.PageExactAt | frontend/src/lib/timelineStore.ts:657-678 | a page read from the window's own edge extends one lane's exact span |
| WindowInvariant.AnchorExactAt | frontend/src/lib/timelineStore.ts:625-655 | an anchor page makes one |
| WindowInvariant.LiveExactAt | frontend/src/lib/timelineStore.ts:721-724 | live rows extend it at the top |
| LiveTail.TailIsLiveFeed | frontend/src/lib/timelineStore.ts:238-254 | what a tail that reads each partition in order delivers to a window caught up with it leaves no record out |
| LiveTail.TailKeepsUp | frontend/src/lib/timelineStore.ts:312-323 | and leaves the window caught up and attached, through trims too |
| LiveTail.PageCatchesUp | frontend/src/lib/timelineStore.ts:396-415 | a forward page that reached a partition's watermark leaves nothing between the window and it, and attaches the window |
| LiveTail.LatestCatchesUp | frontend/src/lib/timelineStore.ts:396-402 | so does the page that answers a jump to the latest records |
| WindowInvariant.CutTopExactAt | frontend/src/lib/timelineStore.ts:560-584 | a top trim leaves it exact below the planted edge |
| WindowInvariant.CutBottomExactAt | frontend/src/lib/timelineStore.ts:586-592 | a bottom trim leaves it exact above the planted edge |
| WindowInvariant.CappedExact | frontend/src/lib/timelineStore.ts:536-595 | enforcing the limit keeps every span exact |
| WindowInvariant.CappedDisplay | frontend/src/lib/timelineStore.ts:536-595 | and what is shown afterwards is a slice of what was shown before, never reordered |
| WindowDisplay.TrimTopSeparates | frontend/src/lib/timelineStore.ts:560-584 | for arbitrary timestamps the planted top edge separates trimmed from retained rows |
| WindowDisplay.TrimBottomSeparates | frontend/src/lib/timelineStore.ts:586-592 | and so does the planted bottom edge |
| WindowDisplay.DisplayOfSet | frontend/src/lib/timelineStore.ts:446-468 | the merged timeline depends on the set of rows held and on nothing else |
| WindowDisplay.DeliveryOrderIrrelevant | frontend/src/lib/timelineStore.ts:488-508 | nor on the order or repetition in which they came |
| WindowDisplay.CommitShowsPreview | frontend/src/lib/timelineStore.ts:731-754 | committing a page shows what its preview showed, cut to the limit |
| FilterAgreement.FiltersAgree | frontend/src/lib/filterQuery.ts:322-390 | for every query text and message: no request means everything is accepted; otherwise the server parses the request and selects the message exactly when the client does, but for one null only JavaScript finds; asked of a `value=` or `value!=` query and its message only that keys differing only in case carry equal values in the query or do not occur in the message, and of a path query only that arrays can be indexed |
| QueryMeaning.WrittenSelects | frontend/src/lib/filterQuery.ts:322-390 | a query of a subject, an operator and a needle, typed with its keyword in either case, selects exactly the messages it means: whose key, value or field contains the needle, is or is not the needle, or compares so with it |
| QueryText.WrittenReads | frontend/src/lib/filterQuery.ts:300-390 | what is typed is read back as that subject, operator and needle if and only if the path's quotes are closed, no operator stands in it outside quotes, and the needle does not lend the operator a `=` |
| QueryMeaning.SelectingSelects | frontend/src/lib/filterQuery.ts:128-299 | the predicate built for a query holds of exactly the messages the query means, the walk along a path being any that names and elements allow |
| QueryMeaning.QuotedSearches | frontend/src/lib/filterQuery.ts:325-329 | a text in double quotes is searched for as it stands in key and value, and empty quotes accept everything |
| QueryMeaning.BareSearches | frontend/src/lib/filterQuery.ts:389-389 | so is any ASCII text without an operator, a dot or a quote |
| QueryMeaning.UnreadableUnselected | frontend/src/lib/filterQuery.ts:233-258 | a value that could not be decoded is selected by no query about it, negated ones included |
| QueryMeaning.LiteralsMeet | frontend/src/lib/filterQuery.ts:268-273 | `true`, `false` and `null` as needles are met by those literals and by no other |
| QueryText.ProposalReads | frontend/src/lib/fieldPaths.ts:23-32 | a path from the completion list typed before any operator is read back as the path printed, unless an unquoted name in it has a `<`, `>` or `!` |
| QueryText.AngleMisleads | frontend/src/lib/fieldPaths.ts:24-28 | with a `<` it is not: an example |
| FilterAgreement.EntryOrderMisleads | backend/src/message/filter.rs:275-281 | without that condition the sides part: the query `value={"a":2,"A":3}` selects the message `{"A":2,"a":2}` in the browser and not on the server |
| FilterAgreement.RequestParses | backend/src/message/filter.rs:110-169 | whatever request the client builds, the server can parse it |
| FilterAgreement.NoPhantomOnOtherPaths | frontend/src/lib/filterQuery.ts:76-79 | that null exists only at the end of a path through `__proto__.__proto__` |
| FilterAgreement.PhantomIsReal | frontend/src/lib/filterQuery.ts:76-79 | and it is real: the query `value.__proto__.__proto__=null` selects the message `{}` in the browser and not on the server |
| PathWalk.WalksAgree | frontend/src/lib/filterQuery.ts:58-83 | the two walks agree on every test of scalars, except for that null |
| PathWalk.PathCandidates | backend/src/message/filter.rs:223-261 | tokenizing and the pushing walk give the specified candidates |
| PathWalk.ClientWalk | frontend/src/lib/filterQuery.ts:62-80 | the client's walk likewise |
| QueryMeaning.LeadsToCandidates | frontend/src/lib/filterQuery.ts:58-83 | the candidates are exactly what some walk along the steps comes to: the child of each name, any element for a marker |
| PathWalk.IndexReads | backend/src/message/filter.rs:244-248 | an index typed in decimal, with or without a `+`, is that index |
| JsonEquality.Reflexive | backend/src/message/filter.rs:263-285 | case-insensitive equality is reflexive on values without keys that differ only in case |
| JsonEquality.Symmetric | backend/src/message/filter.rs:263-285 | symmetric when one of the two is such a value |
| JsonEquality.Transitive | backend/src/message/filter.rs:263-285 | transitive always |
| JsonEquality.ClashingKeysNotReflexive | backend/src/message/filter.rs:275-281 | without the condition not even reflexive |
| JsonEquality.ClashingKeysNotSymmetric | backend/src/message/filter.rs:275-281 | nor symmetric |
| JsonEquality.EqualKeepsDistinct | backend/src/message/filter.rs:275-281 | a value equal to one without clashing keys has none either |
| JsonEquality.OneVerdict | frontend/src/lib/filterQuery.ts:212-232 | both sides reach one verdict on a value without keys that differ only in case, whatever orders they hold object entries in |
| JsonEquality.EqualIffLoweredSame | backend/src/message/filter.rs:263-285 | values are equal exactly when lower-casing every key and string makes them the same JSON up to entry order; nothing coarser |
| JsonOrder.SteadyVerdict | frontend/src/lib/filterQuery.ts:212-232 | and on every value when keys of the one compared with that differ only in case carry equal values |
| JsonOrder.OrderIrrelevant | backend/src/message/filter.rs:275-281 | which is exactly the condition: any other value has two orders that some message tells apart |
| FilterQuery.UnquotedOperatorIndex | frontend/src/lib/filterQuery.ts:85-99 | the first operator outside double quotes, or none |
| PathTokens.SplitPath | backend/src/message/filter.rs:180-221 | the flag-driven loop computes the specified tokens |
| PathTokens.RoundTrip | frontend/src/lib/fieldPaths.ts:25-31 | tokenizing a printed path gives back its steps if and only if no empty name stands first with something behind it or right before a marker |
| PathTokens.RoundTripOfNames | frontend/src/lib/fieldPaths.ts:25-31 | in particular for non-empty names without a double quote |
| PathTokens.PrintThenTokens | frontend/src/lib/filterQuery.ts:23-56 | and in general gives the legible part of the steps |
| FieldPaths.ExtractFieldPaths | frontend/src/lib/fieldPaths.ts:8-44 | the paths offered are those of the readable ones among the first 200 rows, six levels deep, each once and in UTF-16 order |
| FieldPaths.OfferedIffWalk | frontend/src/lib/fieldPaths.ts:8-34 | what is offered of a value is the prints of its walks to scalars, over names without a double quote and first elements, so many steps deep, and no others |
| FieldPaths.OfferedPathLands | frontend/src/lib/fieldPaths.ts:3-34 | every path offered is the print of a walk to a scalar and reaches whatever the legible part of the walk reaches; it reaches that scalar when tokenizing gives the walk back, which is exactly when no empty key stands first with something behind it or right before a marker |
| FieldPaths.OfferedPathReaches | frontend/src/lib/fieldPaths.ts:3-34 | in particular every path offered for a value without empty keys reaches its scalar |
| FieldPaths.EmptyKeyMisleads | frontend/src/lib/fieldPaths.ts:24-32 | with an empty key it may not: an example |
| SnapshotProtocol.RegistryIsLiveGuards | backend/src/cluster/single_flight.rs:43-135 | over all interleavings of any number of callers and keys, the keys in flight are exactly those of live guards, one guard a key |
| SnapshotProtocol.EveryExitReleases | backend/src/cluster/single_flight.rs:122-135 | every way out releases: with all callers done nothing is in flight |
| SnapshotProtocol.SlotStep | backend/src/cluster/snapshot.rs:80-85 | only the holder of a key fills its slot, and never with an older stamp |
| SnapshotProtocol.StampsNeverGoBack | backend/src/cluster/snapshot.rs:53-55 | a slot once filled stays filled and its stamp never goes back |
| SnapshotProtocol.NoNewUnguarded | backend/src/cluster/snapshot.rs:86-89 | once a slot is filled no further caller takes to refreshing without the key |
| SnapshotProtocol.UnguardedAfterPut | backend/src/cluster/snapshot.rs:61-66 | but one that had found it empty just before may still begin to: a run |
| SnapshotProtocol.NobodyIsStuck | backend/src/cluster/single_flight.rs:6-22 | in any reachable state a caller that is not done has a step of its own once two seconds have passed, and before that unless it waits for a holder, whatever the others do meanwhile |
| SnapshotAnswers.FirstReadServes | backend/src/cluster/snapshot.rs:36-42 | the first read serves the value then in the slot exactly when its stamp is younger than the time to live by the caller's clock |
| SnapshotAnswers.RereadServes | backend/src/cluster/snapshot.rs:86-89 | so does the read after a wait, by the clock at the end of the wait |
| SnapshotAnswers.StillAsking | backend/src/cluster/snapshot.rs:70-91 | until it is answered a caller is about the key and the time to live it called with |
| SnapshotAnswers.WakesInTime | backend/src/cluster/single_flight.rs:50-74 | a wait ends when nobody holds the key or after two seconds, and not before |
| SnapshotAnswers.RefreshIsDue | backend/src/cluster/snapshot.rs:77-85 | over any run, a caller takes to refreshing, or to waiting for a refresh, only if its first read found the slot empty or as old as the time to live |
| SnapshotAnswers.AloneWasEmpty | backend/src/cluster/snapshot.rs:86-89 | and without the key only if it found the slot empty after its wait |
| SnapshotAnswers.ServedIsReal | backend/src/cluster/snapshot.rs:45-56 | every value served was returned by some refresh of that key in the run or stood in its slot at the start |
| SnapshotAnswers.RefreshIsAnswered | backend/src/cluster/snapshot.rs:66-69 | a caller that refreshed is answered with what its own refresh returned, a failure included |
| SnapshotAnswers.PutFills | backend/src/cluster/snapshot.rs:53-56 | what it puts into the slot is that value, stamped between the refresh and the put, and no other slot changes |
| CachedRefresh.Backend.Take | backend/src/cluster/snapshot.rs:70-91 | one step of one caller, carried out on the shared registry and the caches, is the step the protocol says |
| CachedRefresh.Backend.Run | backend/src/cluster/snapshot.rs:70-91 | any interleaving the protocol allows can be carried out on them and ends where it says, so every law of the protocol is one of the shared objects |
| KeyedCache.EvictionIsInvisible | backend/src/cluster/keyed_cache.rs:70-96 | under a clock that never goes back, sweeping changes no answer, for any history, if and only if the time to live is within the horizon or not positive |
| KeyedCache.SweptWasOld | backend/src/cluster/keyed_cache.rs:84-96 | an entry swept away was past the horizon already |
| KeyedCache.InsertedIsFresh | backend/src/cluster/keyed_cache.rs:69-96 | after a batch each key in it has the value of its last item, for as long as that is young enough |
| KeyedCache.OthersKept | backend/src/cluster/keyed_cache.rs:84-96 | and any other key what it had |
| KeyedCache.KeyedCache.InsertMany | backend/src/cluster/keyed_cache.rs:81-96 | one sweep, then the whole batch |
| MessageIndexes.IndexesRoundTrip | backend/src/message/proto.rs:35-52 | every list of 1 to 128 32-bit indexes comes back with exactly the bytes behind it |
| MessageIndexes.IndexesTruncated | backend/src/message/proto.rs:29-30 | a list cut short anywhere is refused |
| MessageIndexes.CountRefused | backend/src/message/proto.rs:40-44 | a count out of range is refused |
| MessageIndexes.ShortForm | backend/src/message/proto.rs:37-39 | one zero byte stands for the first message |
| MessageIndexes.VarintRoundTrip | backend/src/message/proto.rs:16-31 | every 64-bit number comes back from its zigzag varint, whatever follows |
| MessageIndexes.ReadZigzagVarint | backend/src/message/proto.rs:16-31 | the 64-bit accumulator computes the number spelled by the groups, over at most ten bytes |
| MessageIndexes.ReadMessageIndexes | backend/src/message/proto.rs:35-52 | the loop computes the specified reading |
| Assignment.BlobRoundTrip | backend/src/cluster/assignment.rs:75-89 | a well-formed blob gives back its topic names, whatever user data trails it |
| Assignment.AcceptedIsBlob | backend/src/cluster/assignment.rs:14-18 | whatever is decoded was a well-formed blob of exactly those names |
| Assignment.AssignedTopics | backend/src/cluster/assignment.rs:20-47 | the cursor loop computes the specified reading |
| Assignment.Reader.Bytes | backend/src/cluster/assignment.rs:54-60 | the cursor moves over exactly what it returns, or not at all |

## Left out

- Kafka and librdkafka calls, channels, server-sent events and HTTP: the poll stream, the scan's result and the list of events sent stand for them.
- Decoding a record: whether it matches is a function of the record.
- The cursor's text: a cursor is its list of positions, and the base64 and JSON around it are not modelled.
- Wall-clock deadlines: a scan or a page may be cut short at any point, and a wait for another caller's refresh ends by the model's own clock.
- 64-bit overflow of offsets, spans and stamps: they are unbounded integers here, except inside the varint decoder, whose 64-bit accumulator and 32-bit narrowing are explicit. Timestamps are rounded where the browser compares them; offsets beyond 2^53, which it would round as well, are not.
- Retention: the low watermark does not move during a run, and no record leaves the log.
- Partitions that contributed no row and are missing from one edge map: the store makes no promise for them and neither does the model.
- A topic growing new partitions within a session: the set of partitions is fixed.
- PageEngine.RunPage: requires distinct positions, because the engine looks windows up by first match and does not remove repeated partitions.
- Map iteration order: loops over the entries of a map whose order does not matter are written as one map expression or as a loop that picks any entry left.
- In-place splicing of the store's per-partition arrays: lanes are sequences held in a map field that the methods reassign, so aliasing between the preview's copy and the store's own arrays is not captured.
- ChunkMerge.MergeChunkRecords: streams are sequences popped by reassignment, and the decoding of each record is part of the filter's verdict.
- FilterAgreement.FiltersAgree: numbers are reals with one shared formatter, so the two formatters' differences (magnitudes from 1e21 up or below 1e-6, which JavaScript prints with an exponent, and negative zero) and numbers out of a double's range are not modelled.
- Texts only one JSON parser accepts or reads exactly: `serde_json` refuses nesting deeper than 128 and lone surrogates, and without its `float_roundtrip` feature may miss the nearest double by one; `JSON.parse` does none of this.
- The text of error messages: a parse failure is one of a few reasons, a page failure one event.
- `begin_or_wait_owned`: the same protocol as `begin_or_wait`, with the guard outliving the scope that took it; both are the guarded phases of `SnapshotProtocol`.
- `KeyedCache.get` and `with`, which read like `fresh` without the age test.
- React components, scrolling, the date picker, the pause table, the jump plan and the live buffer: small, finite or presentational.
