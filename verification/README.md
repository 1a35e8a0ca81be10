# Verified models of WATTx core components

This project models, in Dafny, the parts of the WATTx node (a Bitcoin Core / Qtum derivative) whose
correctness is hardest to see from the code, and proves what their comments, assertions and protocols
promise. Each model takes the form of its source: classes with the source's fields and in-place updates,
loops with invariants, and an abstract specification they are proved against.

- **Cluster linearization** (`DepGraph*.dfy`, `Diagram.dfy`, `FeerateDiagram.dfy`, `Chunking.dfy`,
  `Merge.dfy`, `AncestorFinder.dfy`, `SearchFinder*.dfy`, `Linearize.dfy`, `Post*.dfy`). A transaction graph
  is closed under ancestors; a linearization is a topological order; its chunks are the upper concave hull of
  fee against size, the feerate diagram. "At least as good" is stated twice, as dominance of the piecewise
  linear diagrams over the reals and as dominance of the best prefix at every target rate, and the two are
  proved equivalent. On that basis the branch-and-bound search is proved optimal when it ends within its
  budget, `Linearize` and `MergeLinearizations` never worse than their inputs, and the linked-list procedure
  `PostLinearize` equal to two abstract passes with all its documented guarantees.
- **Coins cache** (`Coins*.dfy`). A stack of write-back layers with dirty and fresh flags and an intrusive
  ring of flagged entries behaves as one plain map, through any run of operations at any depth.
- **Script check queue** (`CheckQueue.dfy`). Master and workers as a step system whose steps are the critical
  sections, with arbitrary interleaving and spurious wake-ups: exact accounting, honest answers, and termination.
- **Headers synchronisation** (`HeadersSync.dfy`). The two-download protocol as a class with a ghost history.
- **Address manager** (`AddrTables.dfy`, `AddrBook.dfy`, `AddrMan.dfy`). Five redundant indexes with counters
  refine a bare book of records and places, and always pass the built-in consistency check.
- **Bech32** (`Bech32*.dfy`). The checksum is the remainder modulo the generator polynomial over GF(32); it detects
  every burst of six symbols and, through the field GF(1024), any three errors among 1023 symbols.
- **Chain index, 256-bit arithmetic, Base58, cuckoo cache, compact blocks** (the remaining files).

What the environment decides is a parameter or a free choice: hash functions, the random generator, the clock,
bucket hashes, the difficulty rule, block checks, thread scheduling. Results hold for all of them.

Where the code differs from its own text, or from what its names suggest, the model follows the code:

- Released headers are rebuilt from a buffer that does not keep the prime-gap fields, so they equal the
  received headers if and only if these fields have their default values (`HeadersSync.ReleasedExact`,
  `HeadersSync.GapFieldsLost`).
- A non-overwriting `AddCoin` trusts its caller. It is safe exactly when the view has no unspent coin there
  (`CoinsTheory.AddSafeIffAbsent`), and `CoinsTheory.MisappliedFresh` shows what happens otherwise.
- `SpendCoin` reports success also where a spent coin is recorded. Its contract says exactly when, and
  `CoinsCaches.SpentTwice` says when one coin is spent twice with success.
- The first displacement of the cuckoo cache goes to the second hash slot, not the first as the comment says
  (`CuckooCache.FirstDisplaced`).
- The epoch size of the cuckoo cache is computed in 32 bits. It is 45 percent of the slots if and only if 45 times
  their number is below 2^32 (`CuckooCache.EpochSizeExact`); `CuckooCache.WrappedEpoch` gives a size where it is 1.
- A failed connection attempt is meant to count once between two successes. If the last one
  counted is dated before the last success, at most one more counts if and only if the first that may count is not
  dated before that success or none after it may count (`AddrBook.CountsOnce`; `AddrBook.CountsTwice` is the failing case).
- The branch of `ResolveCollisions_` for a free tried place cannot be taken: the place of a colliding entry is never
  free (`AddrManager.AddrManImpl.ResolveOne`).
- `InitData` adds to the mempool counter of an earlier use instead of starting from zero (`BlockEncodings.UseTwice`).
  Its scan stops early only when complete, for every pool, if and only if that counter is not from 1 to the number of
  short identifiers (`BlockEncodings.CounterExact`); `BlockEncodings.ReuseMisses` is a run that misses transactions
  of the pool.
- `LastCommonAncestor` returns null for two blocks without a common first block.

## Model

| member | source | states |
|---|---|---|
| `DepGraphBuild.DepGraph.AddTransaction` | `src/cluster_linearize.h:133-146` | The first unused position becomes a transaction related only to itself; every other entry is untouched and the relation stays closed |
| `DepGraphBuild.DepGraph.RemoveTransactions` | `src/cluster_linearize.h:157-171` | The remaining transactions keep their rates and lose exactly the removed ones from their ancestors and descendants; the relation stays closed |
| `DepGraphBuild.DepGraph.AddDependencies` | `src/cluster_linearize.h:177-198` | Several parents at once give the closure `Linked`, and descendants stay the converse of ancestors, although the code only touches missing ancestors |
| `DepGraphBuild.LinkedLeast` | `src/cluster_linearize.h:177-198` | That closure is the least one: it contains the new dependencies, is transitive, and every transitive relation that contains both is at least as large |
| `DepGraphBuild.LinkedWellFormed` | `src/cluster_linearize.h:177-198` | Adding dependencies, even cyclic ones, keeps ancestors reflexive and transitive and descendants their converse |
| `DepGraphBuild.DepGraph.Remap` | `src/cluster_linearize.h:89-111` | Copying an acyclic graph through its reduced parents under an injective renumbering gives an isomorphic graph: same rates, same ancestors, same descendants |
| `DepGraphs.GetReducedParents` | `src/cluster_linearize.h:208-219` | The reduced parents regenerate every ancestor and none of them is an ancestor of another |
| `DepGraphs.GetReducedChildren` | `src/cluster_linearize.h:229-240` | The reduced children regenerate every descendant and none of them is a descendant of another |
| `DepGraphs.FeeRate` | `src/cluster_linearize.h:246-251` | The loop adds up exactly the set, whatever the order |
| `DepGraphs.FindConnectedComponent` | `src/cluster_linearize.h:265-280` | The result is a separated part of the remaining graph that contains the first transaction, and every separated part with that transaction contains it |
| `DepGraphs.AppendTopo` | `src/cluster_linearize.h:301-311` | Sorting by ancestor count appends each selected transaction once and, on an acyclic graph, ancestors first; what was there before stays |
| `Chunks.ChunkyMerge` | `src/cluster_linearize.h:374-389` | Absorbing a chunk of higher feerate keeps the defining property of a chunk: no prefix of it beats the whole |
| `Chunkings.ChunkLinearization` | `src/cluster_linearize.h:374-389` | The absorbing loop returns the feerates of the chunking of the list, and every chunking of the list has these feerates |
| `FeerateDiagram.DiagramsCompare` | `src/cluster_linearize.h:1010-1014` | Over the same total size, one piecewise linear diagram is nowhere below another if and only if its end and, at every target rate, its highest vertex are not lower |
| `FeerateDiagram.AsGoodIsNowhereBelow` | `src/cluster_linearize.h:1010-1014` | The two meanings of "at least as good" agree: for every target rate the best prefix is worth as much if and only if the piecewise linear feerate diagram is nowhere below the other, at every real size |
| `Chunks.BestChunkPrefix` | `src/cluster_linearize.h:374-389` | For every target rate a whole number of chunks is the most valuable prefix |
| `Chunkings.LinearizationChunking.constructor` | `src/cluster_linearize.h:440-448` | The chunks kept are those of the whole list |
| `Chunkings.LinearizationChunking.BuildChunks` | `src/cluster_linearize.h:411-436` | The rebuilt chunks are a chunking of what remains of the list, in its old order |
| `Chunkings.LinearizationChunking.MarkDone` | `src/cluster_linearize.h:461-481` | Removing a set leaves the rest of the list in order and correctly chunked, both when the first chunk is just skipped and when the chunks are rebuilt |
| `Chunkings.LinearizationChunking.IntersectPrefixes` | `src/cluster_linearize.h:492-516` | The result is the intersection with the shortest run of chunks on which the set is not worse than that run, or the whole set if there is none |
| `Fronts.MoveToFront` | `src/cluster_linearize.h:483-491` | Moving such an intersection to the front never lowers the diagram of the remaining list, at any target rate |
| `Merging.MergeLinearizations` | `src/cluster_linearize.h:1302-1337` | A topological order of all transactions whose diagram is nowhere below that of either input |
| `AncestorFinder.AncestorCandidateFinder.constructor` | `src/cluster_linearize.h:543-567` | Every ancestor set is rated correctly although rates are built from those of other ancestor sets |
| `AncestorFinder.AncestorCandidateFinder.MarkDone` | `src/cluster_linearize.h:575-586` | After removals the stored rates are those of what remains of every ancestor set |
| `AncestorFinder.AncestorCandidateFinder.FindCandidateSet` | `src/cluster_linearize.h:605-618` | A non-empty topologically valid set that is the remaining ancestor set of a transaction, and no such set is better |
| `SearchTheory.PotBoundHolds` | `src/cluster_linearize.h:797-813` | The greedy set of improving transactions bounds from above every topological set that an item can still reach and that beats the best |
| `SearchTheory.JumpAhead` | `src/cluster_linearize.h:814-835` | Including at once every ancestor set inside the potential set loses nothing: each better set stays reachable in a form that is at least as good |
| `SearchLoop.TrimImp` | `src/cluster_linearize.h:782-788` | Dropping from the end of the feerate order leaves exactly the transactions better than the best set |
| `SearchLoop.ComputePot` | `src/cluster_linearize.h:797-813` | The loop over improving undecided transactions computes the potential set, stopping where the next one no longer improves it |
| `SearchLoop.AddItem` | `src/cluster_linearize.h:797-867` | Adding an item keeps the best valid and not worse, never overruns the queue, and everything better that the item could reach is reachable from the new queue |
| `SearchLoop.ChooseSplit` | `src/cluster_linearize.h:909-930` | The split transaction minimises the larger, then the smaller, remaining undecided set, first index first |
| `SearchLoop.InitQueue` | `src/cluster_linearize.h:762-777` | One item per connected component together reach every component-wise candidate; a missing best is replaced by the first component |
| `SearchLoop.FrontFits` | `src/cluster_linearize.h:964-973` | The item in hand always fits the reserved queue: its position plus its undecided transactions stay within the capacity |
| `SearchLoop.TakeItem` | `src/cluster_linearize.h:976-979` | Taking an item from either end keeps the invariant of the search and pays for the two it may become |
| `SearchLoop.SwapItems` | `src/cluster_linearize.h:958-962` | The random swap of the two front items keeps the invariant and the remaining work |
| `SearchLoop.Process` | `src/cluster_linearize.h:872-944` | Splitting an item strictly lowers the exponential measure of remaining work, also when the item is pruned |
| `SearchLoop.Search` | `src/cluster_linearize.h:758-986` | For every graph and every sequence of random swaps: a non-empty topologically valid set, not worse than the given one, within the iteration limit and in fewer than 2^n iterations; below the limit no topologically valid set has a higher feerate |
| `SearchFinder.SortByFeerate` | `src/cluster_linearize.h:674-684` | The order lists every transaction once, by decreasing feerate |
| `SearchFinder.SearchCandidateFinder.constructor` | `src/cluster_linearize.h:669-692` | The copy of the graph sorted by feerate is isomorphic to the original and the two index maps are inverse |
| `SearchFinder.SearchCandidateFinder.FindCandidateSet` | `src/cluster_linearize.h:717-986` | The guarantees of the search hold in the original numbering |
| `SearchFinder.SearchCandidateFinder.MarkDone` | `src/cluster_linearize.h:992-998` | Exactly the given transactions leave the remaining graph |
| `Linearizing.Linearize` | `src/cluster_linearize.h:1019-1094` | A topological order of all transactions for any budget; its diagram is nowhere below that of the given order; when it reports optimality no order has a better diagram anywhere; and a budget of n*n/64 (rounded up) plus 4*2^n iterations always makes it report optimality. For every budget the result is put together in rounds, each from a set that no remaining ancestor set beats; without a given order no ancestor set has a higher feerate than the first chunk |
| `PostTheory.PassOrder` | `src/cluster_linearize.h:1206-1271` | A pass keeps a topological order and the set of transactions |
| `PostTheory.PassChunking` | `src/cluster_linearize.h:1229-1271` | The groups at the end of a pass are the chunks of the result: their feerates do not increase and no prefix of a group beats it |
| `PostTheory.PassConnected` | `src/cluster_linearize.h:1229-1271` | Each group at the end of a pass is connected |
| `PostResults.ForwardNeverWorse` | `src/cluster_linearize.h:1206-1294` | A forward pass never lowers the diagram |
| `PostResults.BackwardNeverWorse` | `src/cluster_linearize.h:1206-1294` | A backward pass, run on the mirrored graph with negated fees, never lowers the diagram either |
| `PostResults.PostNeverWorse` | `src/cluster_linearize.h:1096-1118` | Both passes together never lower the diagram |
| `PostResults.PostConnected` | `src/cluster_linearize.h:1103` | Every chunk of the result is connected |
| `PostResults.PostOptimal` | `src/cluster_linearize.h:1104-1105` | When every transaction has at most one child, or every one at most one parent, the result is optimal |
| `PostResults.PostMovedLeaf` | `src/cluster_linearize.h:1106-1110` | Moving a transaction without descendants to the end and raising its fee, then post-processing, gives a feerate diagram nowhere below the one before |
| `PostLinearizing.InsertRep` | `src/cluster_linearize.h:1215-1231` | The linked entries represent the groups after a new one-transaction group is added |
| `PostLinearizing.MergeRep` | `src/cluster_linearize.h:1243-1256` | After the pointer updates of a merge the entries represent the two groups joined |
| `PostLinearizing.SwapRep` | `src/cluster_linearize.h:1257-1268` | After the pointer updates of a swap the entries represent the two groups exchanged |
| `PostLinearizing.CycleTests` | `src/cluster_linearize.h:1232-1243` | The tests on the entries decide about feerates and dependencies of the represented groups |
| `PostLinearizing.AddTransaction` | `src/cluster_linearize.h:1214-1271` | Processing one transaction turns the represented groups into those the pass prescribes |
| `PostLinearizing.WriteBack` | `src/cluster_linearize.h:1273-1293` | Walking the list writes the groups out in order, from the front or from the back |
| `PostLinearizing.PostLinearize` | `src/cluster_linearize.h:1113-1295` | The in-place procedure on the linked entries computes exactly the two abstract passes, so all results about them hold of the array: valid order, diagram nowhere below the input, connected chunks, optimal on trees of either direction |
| `CoinsTheory.FiveCombinations` | `src/coins.cpp:335-341` | Only five of the eight combinations of dirty, fresh and spent occur in a truthful layer |
| `CoinsTheory.FetchKeepsView` | `src/coins.cpp:48-64` | Pulling a coin from the base does not change what a reader sees |
| `CoinsTheory.AddView` | `src/coins.cpp:72-112` | Adding a coin is a map update of the view |
| `CoinsTheory.AddExact` | `src/coins.cpp:72-112` | A non-overwriting add leaves the fresh flag truthful if and only if the coin is cached or the base has no unspent coin there |
| `CoinsTheory.AddSafeIffAbsent` | `src/coins.cpp:72-112` | A non-overwriting add neither throws nor corrupts the layer if and only if the view has no unspent coin there |
| `CoinsTheory.MisappliedFresh` | `src/coins.cpp:86-100` | Otherwise it can: a concrete add over an uncached base coin makes a later spend lose the spentness |
| `CoinsTheory.SpendView` | `src/coins.cpp:132-153` | Spending removes the coin from the view, whether the entry is erased or kept as a spent dirty one |
| `CoinsTheory.UncacheKeepsView` | `src/coins.cpp:277-291` | Dropping an unflagged entry does not change the view |
| `CoinsTheory.WriteOne` | `src/coins.cpp:186-248` | One flagged entry written to the parent cache never hits the misapplied-fresh error, keeps the parent truthful, and makes its view agree with the child |
| `CoinsTheory.AllArrived` | `src/coins.cpp:186-251` | After all flagged entries the parent view equals the child view, in any order of the list |
| `CoinsTheory.SyncedLayer` | `src/coins.cpp:264-275` | A child whose flags were cleared still has the same view over the parent it was written to |
| `FlagList.AddFlagsRing` | `src/coins.h:199-211` | Flagging an entry links it at the end of the list exactly when it was unflagged; the list stays a ring of exactly the flagged entries, each once |
| `FlagList.SetCleanRing` | `src/coins.h:247-254` | Clearing the flags unlinks that entry only |
| `FlagList.EraseRing` | `src/coins.h:239-242` | Erasing an entry unlinks it |
| `FlagList.WriteEntry` | `src/coins.cpp:186-248` | One entry arrives in the linked parent: it throws exactly for a fresh coin that is unspent there; otherwise the entry is absent if and only if the coin is spent and fresh, in the parent or, without an entry there, in the child, and is else dirty with that freshness; no other entry changes |
| `FlagList.WriteBatch` | `src/coins.cpp:186-251` | The cursor's walk, which erases or cleans while iterating, carries the whole child view into the parent and leaves the child as flush or sync needs it |
| `CoinsCaches.StoreBatch` | `src/txdb.cpp:93-150` | However the writes are cut into batches, the database ends with exactly the view of the cache above it; every state between batches carries the mark of an unfinished transition and has a prefix of the entries written |
| `CoinsCaches.RewriteCompletes` | `src/txdb.cpp:93-150` | Writing the same entries again after an interruption between any two batches gives the complete result |
| `CoinsCaches.CoinsViewCache.constructor` | `src/coins.cpp:37-42` | A new layer shows its base |
| `CoinsCaches.CoinsViewCache.FetchCoin` | `src/coins.cpp:48-64` | No view of any layer changes, and an entry is found exactly for a visible coin or where a spent one is recorded |
| `CoinsCaches.CoinsViewCache.GetCoin` | `src/coins.cpp:66-70` | The answer is the view's |
| `CoinsCaches.CoinsViewCache.HaveCoin` | `src/coins.cpp:166-169` | True exactly for coins of the view |
| `CoinsCaches.CoinsViewCache.AddCoin` | `src/coins.cpp:72-112` | For every call a map update of this view and of no layer below; it throws exactly on a non-overwriting add over a cached visible coin; and the layer stays truthful if and only if no unspent coin of the base is hidden by a new non-overwriting entry |
| `CoinsCaches.CoinsViewCache.SpendCoin` | `src/coins.cpp:132-153` | Removes the coin from this view and from no layer below, and returns it; reports success if and only if the coin is visible or a spent one is recorded in the cache or, uncached, in the database |
| `CoinsCaches.SpentTwice` | `src/coins.cpp:132-153` | Of two spends of one outpoint the second reports success if and only if the first does and the entry was not fresh, or the database stores a spent coin there; a base coin that is fetched, or cached unflagged, is spent twice with success |
| `CoinsCaches.CoinsViewCache.Uncache` | `src/coins.cpp:277-291` | Drops exactly an unflagged entry and changes no view |
| `CoinsCaches.CoinsViewCache.BatchWrite` | `src/coins.cpp:186-251` | Takes over the child's view, never throws, changes nothing below, and leaves for every dirty entry of the child exactly the entry that its coin and the freshness prescribe |
| `CoinsCaches.CoinsViewCache.Flush` | `src/coins.cpp:253-262` | The base view becomes this view, deeper layers stay as they are, the cache is empty; every entry of the parent, or coin of the database, is given |
| `CoinsCaches.FreshArrives` | `src/coins.cpp:186-262` | A coin added on top, flushed one layer and spent there leaves no trace: a second spend fails |
| `CoinsCaches.CoinsViewCache.Sync` | `src/coins.cpp:264-275` | The base view becomes this view, deeper views stay, unspent entries stay cached without flags, and the final check never throws; every entry of the parent, or coin of the database, is given |
| `CoinsCaches.CoinsViewCache.Maintain` | `src/coins.cpp:253-291` | Fetch, uncache, sync or flush at any depth of the stack does not change the top view |
| `CoinsCaches.Run` | `src/coins.cpp:48-291` | Any run of adds, spends, reads and maintenance on a stack of any depth gives the answers and the final view of a plain map |
| `CoinsCaches.SanityCheck` | `src/coins.cpp:331-362` | The built-in check passes in every state reachable by these operations |
| `CheckQueue.BatchShare` | `src/checkqueue.h:115-122` | A batch is the largest within the limit of which every thread and one more could take one, and at least 1 |
| `CheckQueue.CallChecks` | `src/checkqueue.h:125-134` | A batch is called in order up to the first failure, whose result overwrites whatever an earlier round left in the local variable |
| `CheckQueue.NextKeeps` | `src/checkqueue.h:72-189` | Every critical section of master and workers keeps the invariant |
| `CheckQueue.EveryRun` | `src/checkqueue.h:72-189` | In every interleaving, whichever workers are notified and with spurious wake-ups: added checks are queued, in flight or done, each once; the todo counter and the thread counters are exact; and every answer given so far was right |
| `CheckQueue.BatchBack` | `src/checkqueue.h:83-92` | Merging a finished batch keeps the shared result honest: an error stems from a check of this round, and no error means that everything done was called and passed |
| `CheckQueue.Returns` | `src/checkqueue.h:97-106` | When `Complete` returns, all checks of the round are accounted for: no error if and only if all of them pass, and an error is one reported in this round; the next round starts clean |
| `CheckQueue.NeverStuck` | `src/checkqueue.h:83-110` | As long as the master waits for completion some thread can move |
| `CheckQueue.OwedRank` | `src/checkqueue.h:72-137` | Every such move lowers a rank |
| `CheckQueue.SpuriousRank` | `src/checkqueue.h:101-110` | A spurious wake-up of any thread never raises that rank |
| `CheckQueue.NothingChosen` | `src/checkqueue.h:166-189` | While the master is in `Complete` it neither adds checks nor calls again |
| `CheckQueue.CompleteReturns` | `src/checkqueue.h:72-189` | In any run of worker and master steps, with any number of spurious wake-ups in between, at most rank many owed moves happen, and when no move is owed `Complete` has returned |
| `HeadersSync.ReleasedChain` | `src/headerssync.cpp:301-315` | Released headers form a hash chain from the starting block, although the buffer does not store previous hashes |
| `HeadersSync.ReleasedExact` | `src/headerssync.h:42-69` | Released headers equal the received ones if and only if none of them carries prime-gap fields |
| `HeadersSync.GapFieldsLost` | `src/headerssync.h:42-69` | A run of both downloads that releases the header it was sent without the gap size |
| `HeadersSync.ReleasedDeep` | `src/headerssync.cpp:236-315` | A header is released only with 741 more redownloaded headers and at least twelve commitment heights on top of it, or once the redownloaded work reaches the target; and every commitment-height header accepted before that shows the bit of the first download at the same height |
| `HeadersSync.CommitsDense` | `src/headerssync.cpp:15-20` | Any n periods of heights contain at least n commitment heights, whatever the secret offset |
| `HeadersSync.HeadersSyncState.ValidateAndProcessSingleHeader` | `src/headerssync.cpp:198-234` | Accepts exactly headers with a permitted difficulty step that keep the commitments within their maximum, and records the bit at commitment heights |
| `HeadersSync.HeadersSyncState.ValidateAndStoreHeadersCommitments` | `src/headerssync.cpp:159-196` | Accepts exactly the messages whose first header connects and whose headers are all acceptable; the redownload starts exactly when the work suffices |
| `HeadersSync.HeadersSyncState.ValidateAndStoreRedownloadedHeader` | `src/headerssync.cpp:236-299` | Accepts exactly a header that connects, has a permitted difficulty step from its true predecessor, and below the target repeats the committed bit |
| `HeadersSync.HeadersSyncState.PopHeadersReadyForAcceptance` | `src/headerssync.cpp:301-315` | Releases all but the newest 741 headers, or everything once the target is reached, in order |
| `HeadersSync.HeadersSyncState.ProcessNextHeaders` | `src/headerssync.cpp:88-157` | For every message in every phase: exactly when it succeeds, asks for more, changes phase or ends; after a failure exactly the headers before the failing one were recorded; what it returns is what was released; and the history keeps all of the above |
| `AddrTables.CreateKeeps` | `src/addrman.cpp:416-430` | A new entry keeps the five indexes and the counters in agreement |
| `AddrTables.SwapRandomKeeps` | `src/addrman.cpp:432-454` | Swapping two positions of the random order changes nothing else |
| `AddrTables.DeleteKeeps` | `src/addrman.cpp:456-471` | Deleting through a swap with the last position keeps all indexes in agreement |
| `AddrManager.AllScanned` | `src/addrman.cpp:496-510` | After a scan of all new buckets, from any starting bucket, an entry has no place left, so its reference count is zero |
| `AddrManager.ClearNew` | `src/addrman.cpp:473-489` | The entry at the place loses it and disappears exactly when it was its last |
| `AddrManager.LeaveNewTable` | `src/addrman.cpp:491-510` | Exactly the places of the entry are cleared and the assertion on its reference count holds |
| `AddrManager.Evict` | `src/addrman.cpp:516-541` | The evicted entry returns to its home place in the new table, displacing what is there |
| `AddrManager.MakeTried` | `src/addrman.cpp:491-548` | The entry moves to its tried place, the previous one there is back at its home in the new table with its statistics; no other tried place or entry there changes |
| `AddrManager.AddSingle` | `src/addrman.cpp:550-624` | Acts on the indexed tables exactly as `Announced` acts on the bare book: when the time is refreshed, when the address takes a place, when a new entry is dropped again; one place of the new table changes, no tried one, and no entry that is not terrible is lost |
| `AddrManager.AddrManImpl.Add` | `src/addrman.cpp:681-691` | A message acts as its announcements one after the other, and reports whether any took a place |
| `AddrManager.AddrManImpl.Good` | `src/addrman.cpp:626-679` | Acts as `Connected` on the book, and on the tables: the success is recorded; the entry takes its tried place exactly if it is not there and the test does not hold it back; else the tables stay and at most ten collisions are recorded |
| `AddrManager.AddrManImpl.Attempt` | `src/addrman.cpp:693-711` | Acts as `Attempted` on the book, and on the tables: only the time of the try and, under the rule on the last success, the failure count change |
| `AddrBook.CountsOnce` | `src/addrman.cpp:693-711` | Over any attempts between two successes none counts if and only if the last one counted is not dated before the last success or none may count; at most one counts if and only if that holds, or the first that may count is not dated before that success, or none after it may count |
| `AddrBook.CountsTwice` | `src/addrman.cpp:693-711` | The failing case: two attempts at one time both count if and only if that time is before the last success |
| `AddrManager.AttemptMany` | `src/addrman.cpp:693-711` | The same condition for every run of `Attempt` on a valid manager, read off its own records |
| `AddrManager.AddrManImpl.ResolveCollisions` | `src/addrman.cpp:912-973` | The collisions meet their fate in order, each in the state the earlier ones left, and exactly those whose test is open remain; every tried entry with a success in the last 14400 seconds keeps its place |
| `AddrManager.AddrManImpl.ResolveOne` | `src/addrman.cpp:917-965` | One collision: the entry takes the tried place if and only if it exists and is valid, the entry there had no success for 14400 seconds, and its test is over; the tried place of a colliding entry is never free |
| `AddrManager.FateMeans` | `src/addrman.cpp:922-964` | The three fates on the tables, with the limits of 14400, 60 and 2400 seconds, both ways |
| `AddrManager.ResolveKeepsRecent` | `src/addrman.cpp:940-943` | Resolving a collision never moves a tried entry with a success in the last 14400 seconds |
| `AddrManager.RecentSurvives` | `src/addrman.cpp:626-973` | Test before evict: an address whose test succeeded keeps its tried place when collisions are resolved in the next four hours |
| `AddrBook.PromotedLaws` | `src/addrman.cpp:491-548` | A promotion takes one tried place, sends the record there home, and touches no other tried record |
| `AddrBook.TerribleLaw` | `src/addrman.cpp:69-92` | Which entries are never given up, if and only if, with the limits in seconds |
| `AddrBook.RefreshLaw` | `src/addrman.cpp:566-571` | A known time is never left more than an hour or a day and the penalty behind, is not touched within that, never goes back, and a repeated announcement changes nothing |
| `AddrBook.GoesOnLaw` | `src/addrman.cpp:576-593` | Exactly when a known address may gain a place: news, not tried, fewer than eight places, luck |
| `AddrBook.ListedLaws` | `src/addrman.cpp:599-623` | A place is taken exactly if it is free, or held by a terrible entry or by one with another place while the newcomer has none; nothing else is lost |
| `AddrBook.AnnouncedLaws` | `src/addrman.cpp:550-624` | An announcement touches one place of the new table and no tried one, loses no record that is not terrible, and gives nothing to tried addresses |
| `AddrManager.AddrManImpl.SelectTriedCollision` | `src/addrman.cpp:975-1001` | The tried place of an existing colliding entry is never empty, so the entry returned exists |
| `AddrManager.LimitLaw` | `src/addrman.cpp:817-824` | The limit is the largest number within the total, the maximum and the percentage |
| `AddrManager.AddrManImpl.GetAddr` | `src/addrman.cpp:812-851` | Distinct known addresses that pass the filters, within the limit, and all of them if the limit is not reached; only the random order changes |
| `AddrBook.NamedIndexed` | `src/addrman.cpp:401-414` | The index by address finds the record with that address |
| `AddrManager.InvPassesCheck` | `src/addrman.cpp:1063-1166` | Every state that these operations reach passes all tests of the built-in consistency check |
| `Chain.GetSkipHeight` | `src/chain.cpp:84-91` | The skip target is strictly lower |
| `Chain.InvertLaw` | `src/chain.cpp:78-91` | Clearing the lowest set bit takes away the largest power of two that divides the height |
| `Chain.CBlockIndex.constructor` | `src/chain.h:146-156` | A block one above its predecessor |
| `Chain.CBlockIndex.BuildSkip` | `src/chain.cpp:126-130` | The skip pointer is the ancestor at the skip height |
| `Chain.CBlockIndex.GetAncestor` | `src/chain.cpp:94-119` | Following skip pointers ends and gives the block that walking the parents gives; null outside the range |
| `Chain.AncestorTrans` | `src/chain.cpp:94-119` | An ancestor's ancestor is an ancestor |
| `Chain.LastCommonAncestor` | `src/chain.cpp:166-181` | The highest common block, and null exactly when there is none |
| `Chain.CChain.SetTip` | `src/chain.cpp:22-30` | Every position holds the tip's ancestor at that height, although the loop stops at the first one that already does |
| `Chain.CChain.FindFork` | `src/chain.cpp:61-70` | The highest block of the given line that is on the chain |
| `Chain.LocatorBound` | `src/chain.cpp:32-49` | While a doubling step still fits above zero, its exponent is below the bit length of the height |
| `Chain.LocatorEntries` | `src/chain.cpp:32-49` | Ancestors of the block at strictly descending heights, eleven consecutive ones and then in doubling steps, ending at the first block; at most 11 plus the bit length of the height |
| `ArithUint.Add` | `src/arith_uint256.h:128-138` | Addition modulo 2^(32 n) for any number of limbs |
| `ArithUint.Increment` | `src/arith_uint256.h:166-173` | Addition of one, with wrap-around |
| `ArithUint.ComplementValue` | `src/arith_uint256.h:62-68` | The complement is 2^(32 n) - 1 minus the value |
| `ArithUint.Negate` | `src/arith_uint256.h:70-77` | Additive inverse modulo 2^(32 n) |
| `ArithUint.Subtract` | `src/arith_uint256.h:140-144` | Subtraction modulo 2^(32 n) |
| `ArithUint.Multiply` | `src/arith_uint256.cpp:60-73` | Product modulo 2^(32 n); no intermediate sum exceeds 64 bits |
| `ArithUint.ShiftLeft` | `src/arith_uint256.cpp:14-28` | Multiplication by a power of two modulo 2^(32 n) |
| `ArithUint.ShiftRight` | `src/arith_uint256.cpp:31-45` | Division by a power of two, rounding down |
| `ArithDivide.CompareTo` | `src/arith_uint256.cpp:102-111` | The order of the values |
| `ArithDivide.Bits` | `src/arith_uint256.cpp:156-168` | The position of the highest bit set |
| `ArithDivide.Divide` | `src/arith_uint256.cpp:76-99` | Shift-and-subtract gives the exact rounded-down quotient, and throws exactly on a zero divisor |
| `ArithDivide.SetCompact` | `src/arith_uint256.cpp:175-193` | The value, sign and overflow of a compact number, for all 2^32 encodings |
| `ArithDivide.OverflowExact` | `src/arith_uint256.cpp:189-191` | The three-way overflow test holds if and only if the value needs more than 256 bits |
| `ArithCompact.GetCompact` | `src/arith_uint256.cpp:195-216` | The compact form with the fewest bytes that leave the sign bit clear; its assertions cannot fail |
| `ArithCompact.CompactTruncates` | `src/arith_uint256.cpp:195-216` | Decoding it gives the number with only its low bytes cleared |
| `ArithCompact.CompactExact` | `src/arith_uint256.cpp:175-216` | The round trip is exact if and only if some compact number stands for the value |
| `ArithCompact.CompactUnique` | `src/arith_uint256.cpp:195-216` | A value and a sign have one such form, so encoding after decoding is the identity exactly on those forms |
| `ArithDivide.TargetNotFull` | `src/chain.cpp:132-145` | No compact target is all ones, so the target plus one does not wrap |
| `ArithDivide.GetBlockProof` | `src/chain.cpp:132-145` | Floor(2^256 / (target + 1)) for every valid target, zero for negative, zero or overflowing ones |
| `Radix.EncodeRoom` | `src/base58.cpp:98-112` | 256^n < 58^(floor(138 n / 100) + 1) for every n |
| `Radix.DecodeRoom` | `src/base58.cpp:53-69` | 58^n < 256^(floor(733 n / 1000) + 1) for every n |
| `Radix.PushDigit` | `src/base58.cpp:63-70` | One carry pass multiplies the number in the buffer and adds the digit; what does not fit is the final carry |
| `Base58.EncodeBase58` | `src/base58.cpp:89-127` | The buffer computation gives the abstract encoding; the carry assertion cannot fail |
| `Base58.DecodeBase58` | `src/base58.cpp:40-87` | The buffer computation gives the abstract decoding within the length limit; the carry assertion cannot fail |
| `Base58.AlphabetIs` | `src/base58.cpp:20` | The alphabet, character by character |
| `Base58.DecodeEncode` | `src/base58.cpp:40-127` | Decoding inverts encoding on all byte strings |
| `Base58.EncodeDecode` | `src/base58.cpp:40-127` | Encoding inverts decoding on all accepted strings without spaces |
| `Bech32.PolyMod` | `src/bech32.cpp:130-216` | The loop computes the fold of the feedback step |
| `Bech32Code.StepRemainder` | `src/bech32.cpp:170-212` | A step is the remainder of c(x) * x + v modulo the generator polynomial over GF(32), at every power |
| `Bech32Code.GeneratorsDouble` | `src/bech32.cpp:200-212` | The five constants of the code are the multiples by 1, a, a^2, a^3 and a^4 of the first |
| `Bech32Code.StepScales` | `src/bech32.cpp:130-216` | The step is linear over GF(32) |
| `Bech32Code.MulAssociates` | `src/bech32.cpp:147-153` | Multiplication modulo a^5 + a^3 + 1 is associative; with the laws beside it GF(32) is a field |
| `Bech32Code.PolyModDivides` | `src/bech32.cpp:130-216` | For every input `PolyMod` is a remainder of the message with an implicit one in front modulo the generator |
| `Bech32Code.RemainderUnique` | `src/bech32.cpp:130-216` | And there is no other remainder |
| `Bech32Code.VerifyDivides` | `src/bech32.cpp:327-340` | A string verifies as an encoding if and only if the generator divides its message less the constant of that encoding |
| `Bech32Code.CharsetIs` | `src/bech32.cpp:23` | The character set, character by character |
| `Bech32Code.ShortestStrings` | `src/bech32.cpp:358-371` | The shortest strings of both encodings are those of the standard |
| `Bech32Distance.OrderOfE` | `src/bech32.cpp:155-171` | The element e of GF(1024) has order 1023 |
| `Bech32Distance.ThreeDetected` | `src/bech32.cpp:130-142` | An error in one to three positions, anywhere among at most 1023, never has remainder zero |
| `Bech32Distance.ThreeAlteredRejected` | `src/bech32.cpp:130-142` | One to three symbols altered anywhere among at most 1023 never verify as before |
| `Bech32.StepLinear` | `src/bech32.cpp:130-216` | The step is linear over the symbols |
| `Bech32.StepInvertible` | `src/bech32.cpp:130-216` | The step maps only zero to zero |
| `Bech32.BurstDetected` | `src/bech32.cpp:130-216` | An error confined to six consecutive positions never has remainder zero, for any length |
| `Bech32.ChecksumVerifies` | `src/bech32.cpp:327-355` | A created checksum verifies, as the same encoding |
| `Bech32.ChecksumUnique` | `src/bech32.cpp:327-355` | The checksum that verifies is the one that is created |
| `Bech32.AlteredRejected` | `src/bech32.cpp:327-340` | Symbols altered within six consecutive positions never verify as before |
| `Bech32.CheckCharacters` | `src/bech32.cpp:287-309` | Accepts exactly printable strings that are not of mixed case |
| `Bech32.DecodeEncode` | `src/bech32.cpp:358-400` | Decoding inverts encoding for lower-case human-readable parts within the limit |
| `Bech32.EncodeDecode` | `src/bech32.cpp:358-400` | A string that decodes is, in lower case, the encoding of what it decodes to |
| `Bech32.DecodeString` | `src/bech32.cpp:374-400` | The decoding loop agrees with the abstract decoding, for accepted and rejected strings |
| `CuckooCache.AgedCounts` | `src/cuckoocache.h:302-307` | Ageing turns the living entries into the old ones and releases exactly the elements of the old epoch |
| `CuckooCache.EpochCheck` | `src/cuckoocache.h:286-318` | Ages exactly when the counter has run out and the living epoch is full, and the new counter keeps living entries plus counter within the bound |
| `CuckooCache.Displace` | `src/cuckoocache.h:411-445` | Computes exactly the chain of displacements; the chain loses at most one kept element, adds at most one living one, and every kept element still sits at one of its eight slots |
| `CuckooCache.FirstDisplaced` | `src/cuckoocache.h:423-436` | With all eight slots kept, the first displacement goes to the second slot |
| `CuckooCache.NotBack` | `src/cuckoocache.h:423-436` | If the slots of an element differ, it is never put back into the slot it was just pushed out of |
| `CuckooCache.Cache.constructor` | `src/cuckoocache.h:336-349` | An empty cache that waits a whole epoch; the epoch is 45 percent of the slots if and only if 45 times their number fits 32 bits |
| `CuckooCache.EpochSizeExact` | `src/cuckoocache.h:345-346` | For every table size, the computed epoch size is the documented 45 percent exactly when the product does not wrap |
| `CuckooCache.WrappedEpoch` | `src/cuckoocache.h:345-346` | A table of 95443718 slots, where it does: the epoch size is 1 and at most four elements are ever kept |
| `CuckooCache.Cache.Insert` | `src/cuckoocache.h:397-445` | An element already at a slot is kept there; otherwise the result is the exact chain from its first free slot or its second slot; the epoch rule is followed exactly |
| `CuckooCache.Cache.Contains` | `src/cuckoocache.h:474-484` | Finds exactly elements at one of their slots, marks only the first of them, and finds it again afterwards |
| `CuckooCache.KeptFound` | `src/cuckoocache.h:474-484` | What is kept is found |
| `CuckooCache.KeptBounded` | `src/cuckoocache.h:286-318` | In every run the kept entries stay within twice max(e + 1, e + e / 16) for epoch size e |
| `BlockEncodings.PlacePrefilled` | `src/blockencodings.cpp:59-76` | Accepts exactly prefilled transactions that exist and fit, never writes outside the slots, and leaves one empty slot for each short identifier; a failure leaves those before the first misfit |
| `BlockEncodings.AssignSlots` | `src/blockencodings.cpp:83-105` | Pairs the short identifiers with the empty slots in order, and fails exactly on a repeated identifier or a crowded bucket |
| `BlockEncodings.Offer` | `src/blockencodings.cpp:111-127` | One candidate changes one slot as the rule for its short identifier says, and the counter by the change in filled slots |
| `BlockEncodings.ScanPools` | `src/blockencodings.cpp:107-168` | Each slot holds what the candidates looked at make of its identifier; the candidates looked at end exactly where the counter first equals the number of identifiers; unless the counter starts from 1 to that number, a scan that stops early has filled every slot |
| `BlockEncodings.FoundExactly` | `src/blockencodings.cpp:107-168` | For every identifier, a transaction is found if and only if it is the only candidate looked at, at one place of the pool at most |
| `BlockEncodings.WrongSlot` | `src/blockencodings.cpp:107-168` | A slot is wrong only if the right transaction was not looked at |
| `BlockEncodings.CollisionRequested` | `src/blockencodings.cpp:50-228` | Two transactions of the pool share an identifier: the slot is emptied, the transaction is requested and the block rebuilt |
| `BlockEncodings.PartiallyDownloadedBlock.InitData` | `src/blockencodings.cpp:50-173` | Exactly when a compact block is invalid, fails or is accepted, and what header, slots and counters are after each: a slot holds a transaction if and only if that is the only candidate looked at, and is empty if and only if there was none or there were two |
| `BlockEncodings.PartiallyDownloadedBlock.FillBlock` | `src/blockencodings.cpp:183-228` | The block is the slots with the requested transactions in the gaps, accepted exactly when there are as many as gaps; too few leave the header and the slots behind the open gap, too many leave nothing; the counters stay |
| `BlockEncodings.UseTwice` | `src/blockencodings.cpp:50-228` | When a second block is accepted by an object that was used before, and that the counter then holds what both blocks found together |
| `BlockEncodings.CompactedDescribes` | `src/blockencodings.cpp:20-30` | The compact block made by the sender describes the block |
| `BlockEncodings.Reconstructs` | `src/blockencodings.cpp:50-228` | If short identifiers separate the block's transactions from the pools, filling in the missing ones rebuilds the block |
| `BlockEncodings.OnlyAbsentMissing` | `src/blockencodings.cpp:50-173` | And, when the scan stops early only if complete, exactly the transactions in neither pool are missing |
| `BlockEncodings.CounterExact` | `src/blockencodings.cpp:107-168` | For every pool a scan that stops early is complete, if and only if the counter at the start is not from 1 to the number of identifiers |
| `BlockEncodings.CounterMisses` | `src/blockencodings.cpp:107-168` | For every counter from 1 to the number of identifiers, of a pool that has the whole block exactly that many transactions are missed |
| `BlockEncodings.ReuseMisses` | `src/blockencodings.cpp:50-228` | A run of two blocks through one object that reaches every such counter: all transactions are in the pool, the first block is complete, and of the second as many are missed as the first found |
| `BlockEncodings.ReuseMissesOne` | `src/blockencodings.cpp:50-228` | The smallest such run: one transaction, in the pool both times, is missed the second time |
| `BlockEncodings.Relay` | `src/blockencodings.cpp:20-228` | From the sender's compact block to the rebuilt one: an accepted block ends in the check of a block, which is the sent one if short identifiers separate; otherwise it is invalid or failed |

## Left out

- Integer widths of fees, sizes, heights, counters and times: modelled as unbounded integers, because the source excludes overflow by its limits; 32-bit limbs, the 256-bit work sum, compact targets, short indexes and the epoch size keep their widths.
- `std::sort` in the search finder and in `AppendTopo`: modelled as selecting the first remaining element in the same total order; only the resulting order matters.
- Bit sets and work queues of the linearizer: modelled as finite sets and sequences; in-place mutation of the queue buffer is not captured.
- PostLinearizing.AddTransaction: works on the entries as a sequence value that the caller reassigns; aliasing inside the vector of entries is expressed by its indexes.
- Destruction, reallocation and memory accounting of the coins cache, the best-block hash, `EmplaceCoinInternalDANGER`, and coins moved out of a child during a flush: not needed for the view.
- CoinsCaches.StoreBatch: the hashes in the mark of an unfinished transition and the replay of blocks after a crash are not modelled, only the mark itself and the coins on disk after each batch.
- CoinsCaches.SanityCheck: does not model the recomputed memory usage, because memory accounting is left out.
- The stop request and the destructor of the check queue: threads are modelled for as long as the queue lives.
- Proof-of-work checks on headers before they reach the headers sync, the locator it requests next and the computation of the maximal number of commitments: the maximum is a parameter.
- `Select_`, `GetChance`, `Connected_`, `SetServices_`, network statistics queries and serialization of the address manager: selection odds are probabilistic and the others would only add easy members.
- Service flags of address records and the empty places of the tables: records omit the flags, tables hold occupied places only.
- AddrManager.AddSingle: the dice of the stochastic test are one bit of the announcement, so the odds are not modelled.
- The detection of four errors within 89 characters by Bech32: it was found by a search over generators; three errors within 1023 are proved.
- `LocateErrors` of Bech32: its result is a heuristic over two encodings. The 30-bit checksum integer is modelled as its six 5-bit groups.
- Checksummed Base58 variants and the alphabet tables: the alphabet is written as ranges.
- The logarithm that sets the displacement limit of the cuckoo cache, its atomic flags and concurrent readers: the limit is a parameter, operations are sequential.
- Occupancy of hash-table buckets and the extra-transaction statistic in `InitData`, and the checks on the finished block: predicates and a function given as parameters.
- Chain work, block status and the block index map: the chain model has heights, hashes, parents and skip pointers only.
- Networking, storage, wallet, RPC, explorer and consensus parameters: plumbing around the components modelled here.
