# cosmwasm-etl: a verified model

cosmwasm-etl copies DEX activity from CosmWasm chains into a relational database. This
project models the parts of it whose correctness is not obvious from one function, and
proves what they are for:

- **Swap routes** (`Graph`, `RouteTable`, `Routing`, `Router`): the bounded depth-first search over a
  shared `visited` map lists every simple path once, shortlex sorted; the token query over
  its cache is the distance ball of the pair graph; a rebuild stores exactly the new routes.
- **Event matching** (`EventLog`, `SkipKeys`, `Regrouping`, `Transfers`): the index-juggling
  matcher is a leftmost-greedy scan that tiles the log and misses no occurrence; the logs in
  which skip keys cannot be seen are characterised; together with the regrouping sorter it is
  a parser that recovers emitted transfers.
- **Validation worker** (`Validation`): a state machine of the sync loop, the worker, other
  signallers and crashes; no wakeup is lost and the shared cursor is never clobbered.
- **Sync loop and quarantine** (`Quarantine`, `ParserSync`): every synced transaction is
  stored exactly once or held back, over any runs, failures and crashes.
- **Deduplication and tax** (`Amounts`, `Dedup`, `Tax`): greedy matchings that conserve
  balances, counted against the transfers of the chain.
- **Aggregation** (`LpHistory`, `RecentStats`): chunked, restartable folds equal one pass.
- **Collection** (`Fcd`, `Collector`): binary search and backwards paging over an unseen
  log; contiguous heights and a read-through store that cannot be told from its source.
- **Prices and checkpoints** (`Price`, `PriceRoutes`, `Checkpoint`, `CheckpointRows`): the route price is a product of
  ratios, the route choice is optimal where it can be, and generated transactions carry
  recorded pools to the source's state.

`Outcomes.dfy` holds the small shared types. `Orders` holds the orders the sorts use and the
insertion sort that stands for the library sort. Threads are state machines; a database call
or a remote call is one atomic step that may fail without effect (parameters such as `works`,
`updates` and `loads`, or a `healthy` constant, decide which ones do). Go's map iteration order is an arbitrary choice. Polling
loops are driven by a finite list of observations, so that every prefix of an endless run
is covered.

## What the proofs found

The model follows the code. Where the code does not do what its setting suggests, the exact
condition is proved, and a lemma shows an input:

- A transfer record whose sender comes first, directly after a record without a sender,
  loses that sender to its predecessor; in every other case the records come back
  (`Transfers.TransfersRecovered`; `Transfers.MultiSendTakesSender` is a multi-send followed
  by such a record).
- Skip keys hide a match exactly when two or more of them stand between plain neighbours that
  a match could join: neighbours of one message, or the first of no known message. Without
  such a gap no rule sees any skip key, and with one the rule for the run around it does
  (`SkipKeys.InvisibleIffNoLinkedGap`; `SkipKeys.AdjacentSkipsHideMatch`).
- Tax deduction compares absolute values. A deduction takes the tax off the amount itself
  exactly when the net amount does not lie on the other side of zero
  (`Tax.DeductionTakesTax`); an inflow of the right size turns an outflow of the pair into an
  inflow (`Tax.DeductionCanFlipSign`).
- The query behind the recent statistics is documented as ordered by height but has no order
  (`pkg/db/parser/repository.go:166-199`). A pair has one row per height exactly when none of
  its heights comes back after another one (`RecentStats.OneRunIffContiguous`); heights 1, 2,
  1 give two rows (`RecentStats.HeightThatComesBack`).
- The FCD collection misses transactions at the very top of the offset range, and only those
  (`Fcd.StartCovers`): what it reports as collected is all there is at or below the height
  exactly when the offsets reach it (`Fcd.CollectedAllIff`). Its loop never finishes exactly
  when every transaction of the account is above the height or at that top
  (`Fcd.NeverFinishesIff`; `Fcd.NewerTxNeverFinishes`, `Fcd.TopOffsetIsMissed`).
- The liquidity history stops short, without an error and however often it is executed, exactly
  when a chunk's worth of transactions without a known pair stands between two heights that
  have one with a pair (`LpHistory.LpHistoryTask.Execute`, `LpHistory.UnpairedWindowStalls`).
- With routes of different lengths the chosen route can lose to one of its own length that
  was passed over (`Price.MixedLengthsMayMiss` gives the pools), exactly when the last longer
  route that took over did so by price on a tie and a route before it beats all of its length
  from there on (`Price.LeadsIffNotOvertaken`). That a later change of the choice overtakes
  nothing is not enough (`Price.LaterChangeMayNotRepair`).
- When transfers carry the slots of the pair actions, deduplication removes all of them in
  whatever order, as long as no pair sends a CW20 asset into another pair that takes it in
  (`Dedup.CarriedSlotsRemoved`). Of two such pay-outs the second can survive, because the first
  takes the entry of a later one by its looser test (`Dedup.CrossedTransferSurvives`).
- A recorded pool that names one asset twice is accepted by the checkpoint builder and
  counted twice (`Checkpoint.ReconstructsIff`, `Checkpoint.TwiceRecordedIsLost`). The query for
  the recorded pools makes such a record itself: after a checkpoint of a pool whose rows name
  the assets in the other order, the next one finds a difference again, unless both amounts
  are the same (`CheckpointRows.SecondCheckpoint`, `CheckpointRows.CrossedIsNotSettled`).
- A checkpoint that withdraws a negative share cannot be stored, because storing a withdraw
  puts a second sign in front of it; one that withdraws a positive share is stored negated
  (`CheckpointRows.DifferenceStores`, `CheckpointRows.ShrunkPoolNotStored`).
- The price worker reloads its routes when the least creation time of a route grows, which a
  table that only grows never does: after the first routes it has read, no later route is
  seen (`PriceRoutes.RoutesStay`, `PriceRoutes.CurrentIff`, `PriceRoutes.LaterRouteIsMissed`).
- The router refreshes its cache only when contract addresses change; a pair whose assets
  change under the same address keeps its old routes (`Router.RouterImpl.Update`,
  `Router.AssetChangeIsMissed`). When writing the routes fails, the call returns with the
  mutex locked, and every later refresh waits for ever
  (`pkg/dex/router/router.go:112-122`, `Router.RefreshTwice`). Routes of a pair that is gone stay in the table.
- A start height raised above the next height leaves a gap in the collected range, and nothing
  else does (`Collector.GainedKeepsContiguous`, `Collector.RaisedStartLeavesGap`).
- A pool snapshot interval of 0, which the configuration accepts, stops the parser at every
  height before it stores it (`ParserSync.DexApp.Run`); what is stored stays accounted for.

## Model

| member | source | states |
|---|---|---|
| Graph.LoopErasure | pkg/dex/router/route_info.go:154-181 | every walk contains a simple route between its ends that is no longer: what lets a search over simple paths find every reachable token |
| Graph.RoutesReachBall | pkg/dex/router/router.go:52-81 | a token other than the start lies in the distance ball of radius k exactly if a simple route of at most k edges reaches it |
| Graph.BackwardsIsRoute | pkg/dex/router/route_info.go:108-150 | in a symmetric graph the reversal of a simple route is a simple route back, of the same length |
| Graph.RenameRoute | pkg/dex/router/route_info.go:71-87 | an edge-preserving injective renaming carries simple routes to simple routes |
| Orders.ShortlexFirstDifference | pkg/dex/router/route_info.go:133-145 | one route is before another exactly if it is shorter or, at the same length, has the smaller number at the first difference |
| Orders.StringFirstDifference | pkg/dex/router/router.go:76-81 | one string is before another exactly if it is a proper prefix or has the smaller character at the first difference |
| Routing.TokenOrderFacts | pkg/dex/router/route_info.go:71-87 | first-mention order lists every token of the pairs once |
| Routing.OrderIsMention | pkg/dex/router/route_info.go:71-87 | of two tokens the one with the smaller number is the one that the pairs mention first |
| Routing.PairMapSymmetric | pkg/dex/router/route_info.go:89-106 | the pair map has a pair from i to j exactly if it has one from j to i |
| Routing.LastContractIsLast | pkg/dex/router/route_info.go:89-106 | the contract kept for two tokens is that of a pair of the two that no later pair joins again |
| Routing.ThroughStep | pkg/dex/router/route_info.go:154-181 | the routes through one more neighbour are that neighbour's route and its extensions, or nothing if it is visited |
| Routing.FirstSearch | pkg/dex/router/route_info.go:108-131 | after the search from a token every list for it holds exactly the simple routes within the bound, and the other lists are unchanged |
| Routing.RouteBefore | pkg/dex/router/route_info.go:133-145 | true exactly if the first route is shorter or, at the same length, has the smaller number at the first difference |
| Routing.SortRoutes | pkg/dex/router/route_info.go:133-146 | sorting keeps the routes; each is shorter than the next, or as long and smaller at their first difference |
| Routing.RouteInfo.constructor | pkg/dex/router/route_info.go:31-35 | a new cache has the capped hop bound |
| Routing.RouteInfo.SetIndex | pkg/dex/router/route_info.go:71-87 | the two index maps are inverse bijections between tokens and first-mention positions |
| Routing.RouteInfo.SetPairMap | pkg/dex/router/route_info.go:89-106 | the pair map holds both directions of every pair and nothing else, with the last contract that joins the two tokens |
| Routing.RouteInfo.FindAllRoutes | pkg/dex/router/route_info.go:154-181 | the lists from the start gain exactly the simple routes that properly extend the given one within the bound, each once; all other lists and `visited` are as before |
| Routing.RouteInfo.SetRoutesMap | pkg/dex/router/route_info.go:108-150 | for every two tokens the list holds exactly the simple routes with at most maxHopCount+1 edges, each once, strictly shortlex sorted, and no list is empty; the table, if there is one, has gained their rows; an error only when the write failed, which changes no row |
| Routing.NewRouteInfo | pkg/dex/router/route_info.go:31-44 | indices number the tokens, the pair map is the pair graph and the routes map is exact, or there is no cache because the routes could not be written, and the table is as before |
| RouteTable.SrcRepo.UpdateRoutes | pkg/dex/router/repository.go:53-86 | success inserts exactly the rows of the listed routes whose key is new, and changes or removes none; failure changes nothing |
| RouteTable.RowsOf | pkg/dex/router/repository.go:54-72 | the three nested loops collect exactly the rows of the listed routes |
| Router.ListedIffRoute | pkg/dex/router/route_info.go:108-181 | a route is listed exactly if it is a simple route within the bound |
| Router.RoutesMirror | pkg/dex/router/route_info.go:108-181 | the routes from d to s are the reversals of the routes from s to d |
| Router.CacheIsDetermined | pkg/dex/router/route_info.go:108-150 | the pair map and the bound determine the routes map: map iteration order cannot be seen |
| Router.NearTokens | pkg/dex/router/router.go:60-80 | the loop collects exactly the destinations with a listed route of at most hopCount+1 tokens |
| Router.NearIffBall | pkg/dex/router/router.go:52-81 | those destinations are the tokens at graph distance at most min(hopCount, maxHopCount)+1, other than the start |
| Router.RoutesAnswer | pkg/dex/router/router.go:83-104 | naming the listed routes gives exactly the token routes, in the order of the cache |
| Router.RowsAreTokenRoutes | pkg/dex/router/repository.go:54-72 | the rows of the finished cache are exactly the swap routes between tokens, with their hop counts |
| Router.RouterImpl.ShouldUpdate | pkg/dex/router/router.go:132-143 | an update is due exactly if the list of contracts changed |
| Router.RouterImpl.Update | pkg/dex/router/router.go:106-130 | a failed fetch changes nothing, a locked mutex blocks; otherwise cache and pairs belong together afterwards and are current exactly if the contracts changed or the pairs did not, and the table has gained exactly the routes over new pairs; a failed write keeps cache and table and leaves the mutex locked |
| Router.AssetChangeIsMissed | pkg/dex/router/router.go:132-143 | two pair lists with the same contracts and different routes |
| Router.RefreshTwice | pkg/dex/router/router.go:106-130 | a refresh after one whose routes could not be written never returns |
| Router.RouterImpl.TokensFrom | pkg/dex/router/router.go:52-81 | lists, each once, exactly the tokens other than `from` within the hop distance, each before the next by the first character in which they differ; nothing for an unknown token |
| Router.RouterImpl.Routes | pkg/dex/router/router.go:83-104 | lists exactly the simple swap routes between two tokens within the configured hops, the shorter ones first, and equally long ones by which token at the first difference a pair mentions first |
| EventLog.FindMatchingSubseq | pkg/eventlog/finder.go:71-91 | all indexing is in range; returns the leftmost-greedy opening at the start and the index behind it, or fewer items than the rule has |
| EventLog.AppendUntil | pkg/eventlog/finder.go:94-107 | appends the non-skip attributes before the next `until` key; the returned index is never below start - 1, so the scan advances |
| EventLog.FindFromAttrs | pkg/eventlog/finder.go:47-68 | the scan ends and equals the recursive leftmost-greedy specification |
| EventLog.FindFromLogs | pkg/eventlog/finder.go:36-45 | the results fall into one part for each log, in order: the scan of the log where its type is the rule's type, and nothing where it is not |
| EventLog.OpenPositions | pkg/eventlog/finder.go:71-91 | an opening matches the rule items in order at increasing places under one message, with at most one skip key before each |
| EventLog.OpensPlaces | pkg/eventlog/finder.go:71-91 | what it is to open, place by place: the item's key and filter, one message, and which keys may be skipped |
| EventLog.ItemsAtAre | pkg/eventlog/finder.go:71-91 | the items of an opening are key and value of the attributes at its places, in order |
| EventLog.OpensGiveOpening | pkg/eventlog/finder.go:71-91 | wherever the items of a rule without skip keys occur in order, the comparison finds an opening |
| EventLog.MatchHere | pkg/eventlog/finder.go:47-107 | a match covers a span that opens at its start and ends at the `until` key or the end of the log |
| EventLog.ScanTiles | pkg/eventlog/finder.go:47-68 | the matches lie on disjoint increasing spans, and between them or after the last the comparison opens nowhere and, for a rule without skip keys, the items occur nowhere |
| SkipKeys.OpenStrip | pkg/eventlog/finder.go:71-91 | opening a match sees through skip keys that form no gap between joinable neighbours |
| SkipKeys.SkipKeysInvisible | pkg/eventlog/finder.go:56-107 | without such a gap scattered skip keys change no result of any rule that does not name them |
| SkipKeys.LinkedGapIsVisible | pkg/eventlog/finder.go:56-107 | every gap between joinable neighbours hides a match from the rule for the run around it |
| SkipKeys.InvisibleIffNoLinkedGap | pkg/eventlog/finder.go:56-107 | all rules that name no skip key see a log as without its skip keys if and only if it has no such gap |
| SkipKeys.AdjacentSkipsHideMatch | pkg/eventlog/finder.go:71-91 | two adjacent skip keys make a match disappear |
| Regrouping.SortedGroupIsUnique | pkg/eventlog/util.go:25-41 | a group of distinct known keys has one sorted form, so the unstable sort is determined |
| Regrouping.RegroupKeepsAttributes | pkg/eventlog/util.go:11-56 | regrouping is a permutation of the selected attributes |
| Regrouping.SortingKeepsKeys | pkg/eventlog/util.go:11-56 | every attribute with a key of the filter comes out as often as it went in, and no other does |
| Regrouping.SortAttributes | pkg/eventlog/util.go:11-56 | selects the filter's keys and cuts them into groups at each repeated key or complete set, each group sorted by the filter |
| Regrouping.ResultToItemMapForKeys | pkg/eventlog/util.go:79-114 | fails exactly if a consumed key is repeated in the match, naming the first such key with its values; otherwise maps each key that occurs to its only item |
| Regrouping.ItemsOfAre | pkg/eventlog/util.go:79-114 | the items of a key are those of the match with that key, in order |
| Regrouping.FirstResultValue | pkg/eventlog/util.go:116-125 | the value of the first item under one of the keys, or the empty string |
| Transfers.FindTransfers | parser/dex/mapper.go:151-203 | normalising and matching together give the scan of the regrouped attributes |
| Transfers.NormalizeGivesDrift | pkg/dex/logfinder.go:53-63 | normalising any list of transfer records gives the records in canonical order, a sender that opens a record moved to a sender-less predecessor |
| Transfers.ScanCanons | pkg/dex/logfinder.go:26-51 | the transfer rule finds in canonical records exactly one match per accepted recipient, in order, with the record's values |
| Transfers.ExpectedMore | parser/dex/mapper.go:151-203 | one more record is one more match exactly if its recipient is asked for: amount, recipient, and the sender if it has one |
| Transfers.TransfersFound | pkg/dex/logfinder.go:26-63 | what the transfer finder returns for every log of transfer records, whatever other attributes are mixed in and whichever pairs are accepted |
| Transfers.TransfersRecovered | pkg/dex/logfinder.go:26-63 | the records come back unchanged if and only if no sender-first record directly follows a sender-less one |
| Transfers.MultiSendTakesSender | pkg/dex/logfinder.go:26-63 | after a multi-send of two outputs a sender-first transfer is reported without its sender, which the second output shows |
| Transfers.TransferValues | parser/dex/mapper.go:156-176 | reading a recovered match is never ambiguous and gives the record's own amount, recipient and sender |
| Validation.RunsKeepInv | parser/dex/dex.go:379-490 | in every state of every run: a pending height has a wakeup on its way, the cursor is earned, both threads know what they rely on, and a due cursor is in somebody's hands |
| Validation.StepKeepsInv | parser/dex/dex.go:379-490 | every step of the sync loop, the worker, other signallers and a crash keeps that invariant |
| Validation.CursorMoves | parser/dex/dex.go:390-403 | the cursor changes only from 0 to the synced boundary by the sync loop, or past a height that passed by the worker, or to 0 when the next height does not fit in 64 bits |
| Validation.Add64Wraps | parser/dex/dex.go:475-484 | the wraparound test of the code is exact for 64-bit sums |
| Validation.ValidatesOnlyInserted | parser/dex/dex.go:461-490 | the height being validated is the persisted cursor, a boundary, and already inserted |
| Validation.NothingForgotten | parser/dex/dex.go:407-455 | when all threads rest, the mailbox is empty, and unless the worker failed since it last took the highest signalled height, every boundary up to that height has passed, whatever failed before |
| Validation.BoundariesSignalled | parser/dex/dex.go:244-268 | in any process that goes on to run: while the sync loop is idle and none of its reads and writes of the cursor failed, every boundary that came to be synced is at most the highest signalled height, and has passed or is not below the origin of a cursor that is set |
| Validation.BoundariesPass | parser/dex/dex.go:244-490 | when all threads rest and nothing failed, every boundary synced by the process has passed |
| Validation.RunHeightPasses | parser/dex/dex.go:87-490 | so has a boundary that was synced when the sync loop began a run |
| Validation.PassedMoves | parser/dex/dex.go:461-490 | a height passes only by being validated |
| Validation.MainFailureMoves | parser/dex/dex.go:390-403 | the sync loop counts as failed exactly from a read or write of the cursor that leaves it unchanged, until a crash |
| Validation.FailureMoves | parser/dex/dex.go:407-490 | a failure is remembered from the step at which the worker gives up until it takes the highest signalled height again, or a restart |
| Validation.ValidationApp.ProcessPendingValidations | parser/dex/dex.go:461-490 | one call climbs boundary by boundary over heights that pass, never above the synced height; with working calls it stops only at none, above the synced height, or at a height that fails |
| Quarantine.RawTxContainsCreatePair | parser/dex/quarantine.go:97-106 | true exactly if some attribute of some log is the create_pair action |
| Quarantine.ParseStage | parser/dex/dex.go:323-342 | the stage whose name stands behind "ParseTxs " in the error text, the first one of the list that does, and never a partial stage, so stages tell full from partial quarantines |
| Quarantine.PartialQuarantineRecorder.Record | parser/dex/quarantine.go:66-84 | accepts exactly ambiguities of transactions without create_pair, and keeps the first one only |
| Quarantine.PartialQuarantineRecorder.Finish | parser/dex/quarantine.go:86-95 | the output alone, or the output with a partial quarantine of this transaction that creates no pair |
| ParserSync.CollectedAccount | parser/dex/dex.go:170-222 | collecting a height stores each of its transactions once or quarantines it fully, and leaves every other hash as it was |
| ParserSync.CollectedSound | parser/dex/dex.go:170-222 | every row collected for a height is an output of the transaction it is stored for |
| ParserSync.InsertKeeps | parser/dex/repo/repository.go:98-121 | committing the next height keeps the accounting: each synced transaction stored exactly once or held back by a pending full quarantine, never both |
| ParserSync.ResolveKeeps | parser/dex/repo/repository.go:302-330 | resolving a pending full quarantine moves its transaction from held back to stored, and keeps the accounting |
| ParserSync.CreatePairNeverHeldBack | parser/dex/dex.go:190-215 | a synced transaction that creates a pair is stored exactly once |
| ParserSync.Repo.Insert | parser/dex/repo/repository.go:63-121 | all or nothing; the synced height moves only from the height the caller read; quarantines are upserted by hash |
| ParserSync.Repo.ResolveParseQuarantine | parser/dex/repo/repository.go:302-330 | succeeds exactly if the row is pending; output and status change together or not at all |
| ParserSync.Repo.PendingParseQuarantines | parser/dex/repo/repository.go:273-300 | returns exactly the pending rows, each once, by height |
| ParserSync.DexApp.ParseHeight | parser/dex/dex.go:170-222 | a height is rejected exactly if one of its transactions fails other than by an ambiguity, or ambiguously while it creates a pair; otherwise a parsed transaction gives exactly one batch, with its output, and no quarantine; a partly parsed one that batch and its partial quarantine; an ambiguous one no batch and one full quarantine with the contract, action and text of the error |
| ParserSync.DexApp.SyncHeight | parser/dex/dex.go:152-243 | after a height is done the database has for each of its transactions exactly the row and the pending quarantine that its outcome calls for; otherwise the database is as before |
| ParserSync.DexApp.RetryOne | parser/dex/dex.go:282-320 | a replay that parses cleanly adds the row with its output and resolves the quarantine; a partial stage, an ambiguity or a failed call changes nothing |
| ParserSync.DexApp.RetryPendingQuarantines | parser/dex/dex.go:282-320 | replays keep the accounting and the synced height; what a finished retry leaves pending was unclear again; the retry finishes when no call fails and nothing is rejected |
| ParserSync.DexApp.CheckRemoteHeight | parser/dex/dex.go:367-378 | counts repeated source heights and fails exactly above the tolerance |
| ParserSync.DexApp.Run | parser/dex/dex.go:87-268 | whatever calls fail, every committed state is accounted for and the synced height never falls; a finished run reaches the source height; it ends early without an error only while the source is indexing the next height; when no call fails, nothing is rejected and the source height is not stuck, it finishes, or with a snapshot interval of 0 stops the process without storing a height |
| ParserSync.RunForever | parser/dex/dex.go:87-320 | over any number of runs and process starts, every state the database ever had is accounted for |
| ParserSync.RunFromEmpty | parser/dex/dex.go:87-320 | the same for a database that starts empty at any synced height |
| Dedup.RemoveDuplicatedTxs | parser/dex/dex.go:734-763 | the in-place greedy matching keeps exactly the transfers that match no remaining entry, in order |
| Dedup.MarkConsumed | parser/dex/dex.go:745-755 | marking transfers while the entry list shrinks refines the recursive matching |
| Dedup.MatchingIsOneToOne | parser/dex/dex.go:734-792 | entries split into matched and left over, transfers into matched and surviving, and matched pairs do match |
| Dedup.MatchingIsMaximal | parser/dex/dex.go:734-763 | no left-over entry matches a surviving transfer |
| Dedup.ExactMatchBalances | parser/dex/dex.go:765-792 | a match of equal amounts moves the same balance as its entry |
| Dedup.DisagreesOnlyAnyAmount | parser/dex/dex.go:765-792 | only a CW20 asset sent by a pair can match with another amount |
| Dedup.CarriedSlotsRemoved | parser/dex/dex.go:734-792 | when the transfers carry, in any order, non-zero slots of the pair transactions, each its own, and CW20 assets keep apart, none survives |
| Dedup.UnaccountedSurvive | parser/dex/dex.go:734-792 | a transfer whose pair, asset, direction or amount fits no slot survives, as often as it occurs |
| Dedup.CrossedTransferSurvives | parser/dex/dex.go:734-792 | two pay-outs of a CW20 asset from one pair into another: each transfer carries a slot of its own, and one survives |
| Dedup.DeduplicationConservesBalances | parser/dex/dex.go:734-792 | per pair and asset, pair transactions plus surviving transfers equal all transfers plus left-over entries, up to the differences of matched amounts; exactly so when matched amounts agree |
| Tax.ExtractTaxTransfers | parser/dex/terraswap/columbusv2/app.go:275-319 | counting and scanning split the transfers as the recursive specification does, in order |
| Tax.SplitIsExact | parser/dex/terraswap/columbusv2/app.go:275-319 | the split interleaves back to the input; each key gets min(taxes, candidate outflows) tax transfers, and only candidates are taken |
| Tax.CandidateMeans | parser/dex/terraswap/columbusv2/app.go:275-319 | which transfers are candidates for a tax payment, and for which one |
| Tax.TaxKeysAre | parser/dex/terraswap/columbusv2/app.go:275-319 | the payments are counted by the address and amount of their first asset, and their message |
| Tax.DeductTaxFromPairTxs | parser/dex/terraswap/columbusv2/app.go:200-268 | the in-place loop over index and queues makes exactly the specified deductions, from an index that has the last slot of every key of a non-empty amount and nothing else, and the queued tax payments |
| Tax.PaymentJoinsQueue | parser/dex/terraswap/columbusv2/app.go:225-238 | a payment joins the end of the queue of its asset and message, and no other queue |
| Tax.DeductionIff | parser/dex/terraswap/columbusv2/app.go:239-265 | a transfer takes no tax exactly if no tax in its queue makes up the amount of a slot of its contract, message and side |
| Tax.DeductionTakesFirst | parser/dex/terraswap/columbusv2/app.go:239-265 | a transfer takes the first tax in its queue that does |
| Tax.DeductionTakesTax | parser/dex/terraswap/columbusv2/app.go:239-265 | a gross amount of the transfer's contract, message and side becomes its net amount, and its size drops by exactly the tax; the amount itself does if and only if the net amount is not on the other side of zero |
| Tax.DeductionsConserve | parser/dex/terraswap/columbusv2/app.go:200-268 | the drop in total size of the pair amounts equals the taxes consumed, for amounts that fit int64 |
| Tax.TaxesUsedOnce | parser/dex/terraswap/columbusv2/app.go:225-265 | a queue splits into the taxes used and the taxes left |
| Tax.SlotsUsedOnce | parser/dex/terraswap/columbusv2/app.go:205-265 | no asset slot is deducted from twice |
| Tax.DeductionsAreMaximal | parser/dex/terraswap/columbusv2/app.go:200-268 | a transfer that took no tax could take none at the end either: no tax and no slot that are left make up its gross amount |
| Tax.PairTransferIsTried | parser/dex/terraswap/columbusv2/app.go:142-160 | tax is deducted for the transfers of the pairs, in order |
| Tax.DeductionCanFlipSign | parser/dex/terraswap/columbusv2/app.go:239-265 | for every index and queue built from a tax of 1 and a pair that sent 3, an inflow of 2 makes the pair's -3 a 2 |
| Tax.AssembleTxs | parser/dex/terraswap/columbusv2/app.go:142-160 | tax split, deduction and deduplication in the order of ParseTxs: when matched amounts agree the output moves every balance as the transfers did, up to left-over entries |
| Tax.AssembledBalance | parser/dex/terraswap/columbusv2/app.go:142-160 | that balance equation for any tax counts and any pair set |
| LpHistory.HistoryIsExact | aggregator/task.go:143-219 | rows strictly increase by height and pair; each carries the prefix sums of its pair through its height; every group of the log has its row |
| LpHistory.OneMoreTransaction | aggregator/task.go:143-219 | a transaction without a pair changes nothing; one with a pair adds its first amount to the first and its second to the second liquidity of its pair, in a new row with its time, or in the last row if that has its height and pair |
| LpHistory.GenerateHistory | aggregator/task.go:143-219 | folding a chunk that starts at a new height appends exactly the rows that the history of the longer log has |
| LpHistory.FetchSlice | pkg/db/parser/repository.go:143-164 | what the limited query returns is a stretch of the paired log that starts where asked and never cuts a height |
| LpHistory.EmptyFetchIff | pkg/db/parser/repository.go:143-164 | the query returns nothing if and only if no paired transaction is left, or `limit` transactions without a pair come before the next one |
| LpHistory.StallHolds | aggregator/task.go:104-141 | no chunk gets past a height at which the query stalls |
| LpHistory.UnpairedWindowStalls | aggregator/task.go:104-141 | for every limit, that many transactions without a pair before one with a pair end an execution at once |
| LpHistory.LatestMatches | aggregator/repo/repository.go:103-123 | the last liquidity rows of the table are the prefix sums of the processed log |
| LpHistory.LogGrows | aggregator/task.go:104-141 | new heights leave the table at a boundary, so a restart can go on |
| LpHistory.LpHistoryTask.Execute | aggregator/task.go:104-141 | whatever the limit, the failures and the restarts, the table stays at a chunk boundary of the history; a call succeeds unless a read, a query or an insert fails, and then the table is the whole history if and only if the query stalls at no height from the table's top on |
| RecentStats.SearchPrice | aggregator/task.go:558-578 | the loop with its early break returns the price at the height |
| RecentStats.PriceIsLatest | aggregator/task.go:558-578 | on an ordered list that is the last price at or below the height, or zero |
| RecentStats.GenerateStats | aggregator/task.go:396-556 | for any order of transactions, volumes and commissions per pair and height sum to the absolute inputs, in one row per run of that height; every row shows the liquidity and time of the last transaction of a run and, when a height has one liquidity, prices what it shows at the row's height |
| RecentStats.FlowAddsUp | aggregator/task.go:396-556 | a transaction adds the sizes of its volumes and commissions, as they are and in units of their token at its price |
| RecentStats.FlowElsewhere | aggregator/task.go:396-556 | and leaves every other pair and height alone |
| RecentStats.RisingHeightsOneRun | aggregator/task.go:396-556 | when a pair's heights never fall, each of its heights has exactly one run |
| RecentStats.OneRunIffContiguous | aggregator/task.go:396-556 | every height of a pair has at most one row if and only if no height of it comes back after another one |
| RecentStats.HeightThatComesBack | pkg/db/parser/repository.go:166-199 | heights 1, 2, 1 of a pair give two rows for height 1 |
| RecentStats.OneRowPerHeight | aggregator/task.go:396-556 | then the statistics hold one row for each height of the pair, with the whole flow, and the liquidity priced with the last price at or below the height |
| RecentStats.JoinedLiquidityPrice | aggregator/task.go:505-524 | the joining branch prices the liquidity the row shows exactly if the liquidities joined are equal, as those of one history row are, or the price is zero |
| Fcd.StartCovers | collector/terra/fcd/fcdepo.go:80-109 | below the start offset lie exactly the transactions at or below the height, if and only if these lie below the top sentinel |
| Fcd.TopOffsetIsMissed | collector/terra/fcd/fcdepo.go:80-109 | an account whose only transaction is at the top of the offset range, below the height: the search misses it and no turn finishes |
| Fcd.FcdRepo.FindStartOffset | collector/terra/fcd/fcdepo.go:80-109 | the binary search over an unseen log returns the id of the first transaction above the height, or the top sentinel |
| Fcd.FcdRepo.TxsOf | collector/terra/fcd/fcdepo.go:39-78 | one contiguous block, newest first, from the offset or the search: all there is below, or the fewest whole pages that hold maxLen |
| Fcd.FcdRepo.HasMoreTx | collector/terra/fcd/fcdepo.go:23-31 | true exactly if the server holds something below the offset |
| Fcd.PagesJoin | collector/terra/fcd/fcdepo.go:49-75 | a page from the last id of a block continues it without a gap or a repetition |
| Fcd.PermanentStore.FirstTxOf | collector/terra/fcd/permanent_store.go:20-26 | a stored row with the least offset, the zero value for none |
| Fcd.PermanentStore.Inserts | collector/terra/fcd/permanent_store.go:29-45 | success stores all rows; a failure leaves a prefix |
| Fcd.ChunkKeepsBlock | collector/terra/fcd/collector.go:68-92 | however much of a chunk is stored, the rows stay one contiguous block, and a chunk is not empty while something is left |
| Fcd.FcdCollector.HasCollected | collector/terra/fcd/collector.go:41-55 | true exactly if something is stored and nothing older is left |
| Fcd.FcdCollector.Turn | collector/terra/fcd/collector.go:68-92 | one turn for any account: true exactly if all that can be reached was collected before; else the next chunk is stored, and a failure leaves a block |
| Fcd.FcdCollector.Collect | collector/terra/fcd/collector.go:68-92 | terminates when something can be reached; from an empty store or any block an earlier run left, success stores exactly the block's transactions and a failure leaves a block of them |
| Fcd.CollectedExactly | collector/terra/fcd/collector.go:68-92 | the stored rows are exactly the transactions at or below the height and below the top of the offset range, each once |
| Fcd.CollectedAllIff | collector/terra/fcd/collector.go:68-92 | they are all transactions at or below the height if and only if the offsets reach these |
| Fcd.SpinsIff | collector/terra/fcd/collector.go:68-92 | a turn makes no progress without being finished if and only if nothing is stored and every transaction is above the height or at the top of the offset range |
| Fcd.NeverFinishesIff | collector/terra/fcd/collector.go:68-92 | from an empty store no number of turns finishes if and only if every transaction of the account is above the height or at the top of the offset range |
| Fcd.NewerTxNeverFinishes | collector/terra/fcd/collector.go:68-92 | an account whose only transaction is above the height |
| Collector.SaveKeepsContiguous | collector/repo/repository.go:88-139 | a save keeps the stored range contiguous exactly for heights in the range or next to it; the synced height never falls |
| Collector.SaveLeavesGap | collector/repo/repository.go:88-139 | saving height 7 behind height 5 leaves a gap |
| Collector.RaisedStartLeavesGap | collector/collector.go:48-95 | a run from height 5 and one with the start height raised to 7 leave heights 5 and 7 without 6 |
| Collector.GainedKeepsContiguous | collector/collector.go:78-94 | what a run adds leaves the range contiguous if and only if its start height is at most one above the synced height |
| Collector.Repository.SaveHeight | collector/repo/repository.go:88-139 | block, snapshot and synced height change together or not at all |
| Collector.BoundedTargetHeight | collector/collector.go:97-102 | the target never exceeds the source nor a set until height, and is one of them |
| Collector.HeightCollector.LocalHeight | collector/height_runner.go:19-31 | the synced height, or one below the first height when nothing is stored or the tables are missing; other failures are reported |
| Collector.HeightCollector.CollectHeight | collector/height_runner.go:37-58 | stores the source's transactions, and its pools on snapshot heights, in one step or not at all |
| Collector.HeightCollector.CollectHeights | collector/collector.go:48-95 | over any observations and failures a run adds exactly the heights from the next one, which is never before the start height, to the synced one, as the source has them, within what was observed and the until height; an observed target is reached before the next poll |
| Collector.RunForever | collector/collector.go:48-95 | after any number of runs from an empty store the range is contiguous and mirrors the source |
| Collector.FallbackStore.GetSourceSyncedHeight | parser/dex/srcstore/collector_datastore.go:36-46 | an empty or missing table asks the source; otherwise exactly the heights up to the answer are stored |
| Collector.FallbackStore.GetSourceTxs | parser/dex/srcstore/collector_datastore.go:48-58 | at every height the answer is the source's |
| Collector.FallbackStore.GetPoolInfos | parser/dex/srcstore/collector_datastore.go:60-70 | at every height the pools are the source's, collected or not |
| Price.PricedIffDeep | pkg/dex/price/price.go:396-398 | a route is priced exactly if every pool on it can be read and holds at least the threshold on both sides |
| Price.OneHopPrice | pkg/dex/price/price.go:358-408 | the price over one pool: its amount of the price token over its amount of the token, each in units of its own decimals |
| Price.DecimalsScale | pkg/dex/price/price.go:358-408 | 20 units of a token of 6 decimals and 50 of a price token of 8 give the price 2.5 |
| Price.PriceComposes | pkg/dex/price/price.go:358-408 | prices multiply along a route |
| Price.PriceIsProduct | pkg/dex/price/price.go:358-408 | the backward recursion is the product of the hop ratios |
| Price.LiquidityIsPoolValue | pkg/dex/price/price.go:400-402 | a hop's liquidity is twice the value of either side of its pool in the price token |
| Price.PriceImpl.Decimals | pkg/dex/price/price.go:177-192 | the cache answers as the database would, and stays so |
| Price.PriceImpl.CalculateRoutePrice | pkg/dex/price/price.go:358-408 | the loop from the end gives the price and liquidities of the route's pools; zero for a shallow pool, an error for an unreadable one, whichever comes last on the route |
| Price.PriceImpl.Challenge | pkg/dex/price/price.go:324-352 | the truncation is in bounds; the candidate wins exactly with more liquidity at the first difference, or none and a lower price; the kept liquidity is the winner's first hop |
| Price.PriceImpl.OptimalRoutePrice | pkg/dex/price/price.go:296-356 | an error exactly if some route cannot be read; nothing exactly if none is priced; else the choice of one pass with its first-hop liquidity |
| Price.ChosenHasDeepestFirstHop | pkg/dex/price/price.go:308-353 | no priced route has more first-hop liquidity than the chosen one, whatever the lengths |
| Price.CompareMeans | pkg/dex/price/price.go:324-352 | the comparison of liquidities is decided at the first difference over the length of the second list |
| Price.StepKeepsLead | pkg/dex/price/price.go:325-352 | the best route stays unbeaten by seen routes at least as long, except exactly when a tie with a shorter one goes by price to a route that a passed-over one beats |
| Price.ChosenLeads | pkg/dex/price/price.go:308-353 | without ties between lengths nothing at least as long beats the chosen route |
| Price.LeadsSince | pkg/dex/price/price.go:308-353 | from the last take-over by a longer route on, nothing as long or longer beats the choice |
| Price.LeadsIffNotOvertaken | pkg/dex/price/price.go:308-353 | nothing as long or longer beats the chosen route, unless exactly the last take-over by a longer route went by price on a tie past a route that beats all of that length from there on |
| Price.EqualLengthChoice | pkg/dex/price/price.go:308-353 | among equally long routes the choice is the lexicographic maximum, the lowest price on ties |
| Price.MixedLengthsMayMiss | pkg/dex/price/price.go:325-352 | three priced routes over readable, deep pools of which the chosen one loses to another of its length |
| Price.LaterChangeMayNotRepair | pkg/dex/price/price.go:325-352 | four priced routes whose last change of the choice overtakes nothing, and the choice still loses to one of its length |
| Price.Route | pkg/dex/price/repository.go:130-155 | grouping the rows by token keeps their order, so each token's routes come by hop count |
| Price.RoutesOfAre | pkg/dex/price/repository.go:130-155 | the routes of a token are those of its rows, each once, in their order |
| PriceRoutes.LatestRouteUpdateTimestamp | pkg/dex/price/repository.go:118-128 | the least creation time of a route, 0 for none |
| PriceRoutes.PriceRouteCache.UpdatePriceRoute | pkg/dex/price/price.go:108-123 | the routes are read again exactly if that time is later than the one remembered; a failed read leaves none |
| PriceRoutes.WriteGrows | pkg/dex/router/repository.go:53-86 | a write of the route cache keeps every stored route with its time |
| PriceRoutes.NothingBefore | pkg/dex/price/price.go:108-123 | until a table with routes was read, no routes are in memory |
| PriceRoutes.RoutesStay | pkg/dex/price/price.go:108-123 | over any run and any growth of the table, the routes first read from a table that had some stay as they are |
| PriceRoutes.CurrentIff | pkg/dex/price/price.go:108-123 | the routes in memory are the table's if and only if no route to the price token was stored since then |
| PriceRoutes.LaterRouteIsMissed | pkg/dex/price/price.go:108-123 | a second token's route, stored later, is not seen |
| Checkpoint.FormatParses | parser/dex/util.go:72-79 | printing an integer and parsing it gives it back |
| Checkpoint.CalculateAssetDiff | parser/checkpoint/builder.go:192-213 | the nested loops list the differences of equal addresses in order, an error exactly if a compared amount is malformed |
| Checkpoint.CreateDiffTx | parser/checkpoint/builder.go:123-190 | the flag loop yields a transaction exactly if a difference is not zero, typed by its signs, an error for other than two differences |
| Checkpoint.TypeMeans | parser/checkpoint/builder.go:156-190 | a swap has one asset up and one down, a withdraw none up, a provide none down and one up; the transaction names the pool's contract and LP token |
| Checkpoint.SameAssetsReconstruct | parser/checkpoint/builder.go:123-190 | recorded totals plus the signed transaction are the source's totals and share, in either order of the recorded assets |
| Checkpoint.OtherAssetsFail | parser/checkpoint/builder.go:123-130 | without an error the recorded assets are the source's or one of them twice, and conversely |
| Checkpoint.ReconstructsIff | parser/checkpoint/builder.go:123-190 | the transaction reconstructs the source exactly if the recorded assets are the source's, or one is recorded twice and the source is empty |
| Checkpoint.TwiceRecordedIsLost | parser/checkpoint/builder.go:123-190 | a pool recorded with one asset twice gets a transaction and is not reconstructed |
| Checkpoint.SilentIffEqual | parser/checkpoint/builder.go:156-159 | no transaction exactly if the recorded pool equals its source |
| Checkpoint.NewPairReconstructs | parser/checkpoint/builder.go:228-260 | the two transactions of a new pair add up to the source pool |
| Checkpoint.NewPairMeans | parser/checkpoint/builder.go:228-260 | what the pair of a new pool and its two transactions say |
| Checkpoint.CreatedAreNew | parser/checkpoint/builder.go:95-118 | pairs are created for exactly the pools that are not recorded |
| Checkpoint.GenerateCheckpointData | parser/checkpoint/builder.go:76-121 | transactions, new pools and their pairs for all source pools in order; the first pool that cannot have a transaction makes it an error, or stops the process when the pool is new and does not have two assets |
| Checkpoint.CheckpointReconstructs | parser/checkpoint/builder.go:76-121 | after the whole checkpoint every source pool has the source's balances and share |
| CheckpointRows.DifferenceStores | parser/dex/repo/mappers.go:42-74 | the stored row of a difference has its amounts; it cannot be stored if and only if it is a withdraw of a negative share, and any other withdraw has its share negated |
| CheckpointRows.RecordedIsNumeric | parser/dex/repo/repository.go:136-169 | the recorded pool has the sums of the columns |
| CheckpointRows.SecondCheckpoint | parser/checkpoint/builder.go:123-190 | over a pool that did not change, the checkpoint after a stored one has nothing to write if and only if the rows name the assets in the pool's order, or both amounts are the same in pool and record, and the first one withdrew no share |
| CheckpointRows.AgainCrossed | parser/dex/repo/repository.go:136-169 | rows in both orders are recorded as one asset twice, whatever order the database has for names |
| CheckpointRows.NewPoolThenSilent | parser/checkpoint/builder.go:228-260 | the two transactions of a new pool can be stored, and the next checkpoint has nothing to write |
| CheckpointRows.CrossedIsNotSettled | parser/checkpoint/builder.go:123-190 | a pool over a row in the other order, whose second checkpoint finds a difference |
| CheckpointRows.ShrunkPoolNotStored | parser/dex/repo/mappers.go:42-74 | a pool that lost half of everything, whose checkpoint cannot be stored |

## Left out

- Databases, SQL text, HTTP, gRPC, RPC, LCD and S3 clients, JSON: a call is an atomic step on maps and lists that succeeds, or fails without effect.
- Configuration, logging, metrics, migrations, generated code and command-line mains.
- Clocks, sleeps, timeouts and polling waits; a polling loop reads a finite list of observations.
- Decimal rounding: amounts of prices and statistics are reals, so a price below 10^-18 that the library would round to zero stays positive here.
- The per-DEX mappers and rule tables (dezswap, starfleit, phoenix, columbusv1): field copying and repeated structure.
- `updateDirectSwapPrice` and `updateIndirectSwapPrice`: which of two chosen routes prices the tokens of a swap.
- CheckpointRows.SecondCheckpoint: the rows before the first checkpoint name the assets in one order, as the transactions of one pair do; limits on the number of digits of a column are not modelled.
- `validate`, the comparison of pool infos at a height: whether a height passes is a parameter.
- Reflection in `RuleItem.Match`: a filter is a wanted value, a predicate or anything.
- EventLog.FindFromAttrs: a rule without items is excluded, because the scan of the code never ends on one.
- EventLog.FindFromLogs: a rule without items is excluded, as in `EventLog.FindFromAttrs`.
- Router.RouterImpl.Update: one refresh at a time; the mutex is a flag, and a refresh that finds it set is taken to wait for ever, since calls are atomic here.
- ParserSync.Repo.Insert: pools, pairs and burn rows are not modelled.
- ParserSync.Repo.PendingParseQuarantines: a row is keyed by its hash and has no number, so the order within a height is left open.
- LpHistory.LpHistoryTask.Execute: amounts are integers rather than decimal strings.
- Fcd.FcdCollector.Collect: needs a transaction that the search reaches, since the loop does not end without one; `Fcd.FcdCollector.Turn` and `Fcd.NeverFinishesIff` cover the other accounts.
- Fcd.FcdRepo.TxsOf: does not model the retries after a server error, nor new transactions that arrive while it pages.
- Collector.HeightCollector.CollectHeights: source heights are below 2^64-1; at that height the counter of the inner loop would wrap around.
- Dedup.CarriedSlotsRemoved: a sufficient condition; when assets do not keep apart, whether a transfer survives depends on the order of pair transactions and transfers.
- Tax.AssembleTxs: starts from the parsed transactions and stops before the LP burn rows, which are appended unchanged.
- Checkpoint.GenerateCheckpointData: time stamps are not modelled.
