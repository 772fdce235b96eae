# GRIDNET Core: proofs about its stateful components

This project models twelve components of GRIDNET Core in Dafny and proves what each of them
promises over whole runs. `dafny verify dfyconfig.toml` checks everything.

| module | what it models |
|---|---|
| `WorkPool`, `ReportOrder` | the workers that refresh the domain metadata cache, as a step relation over any number of workers; one step is one access to shared state |
| `ChainWork` | the cumulative proof-of-work memo kept in block headers, on a heap of linked blocks |
| `ConnTracker` | connection accounting: an event log and an interval store for each address |
| `HeaderCodec`, `Der` | printing and parsing block headers, versions 1 to 4, down to tag-length-value bytes |
| `Certificate` | cutting a data asset into authenticated chunks and putting it together again |
| `BerCache`, `CacheKey` | the cache of serialised answers and the key an answer is stored under |
| `PowProgress` | 64-bit windows over a 256-bit number, and how close a hash came to the target |
| `LogThrottle` | the limit on reported partial proofs of work |
| `OperatorStats` | smoothed mining rate, spread, cumulative sums and confidence of an operator |
| `LineMailbox` | a reader thread that hands typed lines to one caller through a single slot |
| `BreakpointIndex` | breakpoints and the six indexes they are found through |
| `DataConcatenator` | the buffer that signatures and keys are computed over |

`Arithmetic`, `Bytes`, `Sequences` and `Wrappers` hold what several of them share.

Objects that the program updates in place are classes here, with the same fields and loops.
Each method is proved against a function of the old state, and the promises are proved about
that function. Where a method and its specification share a definition, a lemma says what that
definition gives without naming it: source by source, field by field, index by index or in
numbers. Protocols between threads are state machines. Clocks, hashes, keyed hashes, the
square root and the library's string-to-number conversion are parameters; where a lemma needs
a property of one (an injective hash, a square root that squares back), it says so.

## What the code does beside what it promises

- The metadata update swaps its progress mark first and calls back later, under no lock, so a
  callback can be overtaken. With two workers the shown percentage can fall, and a successful
  update can end showing 50 (`ReportOrder.ReportsMayDecreaseIff`, which says exactly when, and
  `ReportOrder.TwoWorkersEndAtFifty`).
- A parent that is not in memory is first looked for in the verified chain, by height and not by
  hash (BlockHeader.cpp:1883-1885). The total work of a fork block is then that of the verified
  chain below it, and is memoised (`ChainWork.ForkIsJudgedByVerifiedChain`,
  `ChainWork.ForkDeviates`).
- Out of compatibility mode `add` of a native value leaves the offset where it was
  (DataConcatenator.h:147-152), so the next operation writes over it.
- A connection window longer than 2^63 seconds plus the current time wraps, and `getTime`
  answers 0 (`ConnTracker.TimeForEveryWindow`, `ConnTracker.WrappedWindowForgets`).
- `getRenewalTime` is documented to return a future time; it returns now or the end of the last
  connected second, never later than now (`ConnTracker.Tracker.GetRenewalTime`).
- The documented maximum number of chunks is met if and only if the minimum size decides or the
  maximum divides the size (`Certificate.MaximumIsMet`); otherwise up to twice the maximum less
  one can result, and that bound is reached for every maximum (`Certificate.TwiceMaximumIsReached`).
  A size below the maximum with a minimum of 0 divides by zero.
- A header printed without its signature never parses (`HeaderCodec.UnsignedNeverParses`). A
  header of unknown version parses to a header with no field decoded
  (`HeaderCodec.UnknownVersionParses`). Bytes after a header are ignored.
- A partial-progress value of 100 does not mean that the hash meets the target; it means so once
  the windows below the target's top window are dropped (`PowProgress.HundredExactly`,
  `PowProgress.HundredAboveTarget`).
- Sixty seconds can hold more than twenty lines: thirty-nine at most with a genuine clock, and
  thirty-nine is reached (`LogThrottle.AnyMinuteHoldsThirtyNine`, `LogThrottle.ThirtyNineIsReached`).
- One cache entry above the size limit empties the whole cache (`BerCache.NewestIsKeptIffItFits`).
  Cache keys forget where one vector of a request ends (`CacheKey.SplitPointsAreLost`).
- A breakpoint whose height is no number is listed for good and found nowhere
  (`BreakpointIndex.ListedIffLastAdded`).
- `AsyncGetLine.h` declares the slot as `mInput` and uses it as `input`; the model takes them to
  be one variable. An empty line looks like no line to the caller.

## Model

| member | source | states |
|---|---|---|
| WorkPool.NextInv | GRIDNETCore/GRIDNET/CStateDomainManager.cpp:752-843 | every step of any worker, normal or throwing, keeps the pool invariant |
| WorkPool.RunInv | GRIDNETCore/GRIDNET/CStateDomainManager.cpp:752-843 | the invariant holds in every state of every interleaving of any number of workers |
| WorkPool.ActiveTasksAccounting | GRIDNETCore/GRIDNET/CStateDomainManager.cpp:744-843 | activeTasks is the number of queued chunks plus those in workers' hands plus those abandoned by workers that threw; no chunk is taken twice |
| WorkPool.OutstandingWhileHeld | GRIDNETCore/GRIDNET/CStateDomainManager.cpp:837-841 | the counter is positive whenever a worker may decrement it, so it never underflows |
| WorkPool.MarksIncrease | GRIDNETCore/GRIDNET/CStateDomainManager.cpp:802-817 | the progress mark strictly increases over the whole run, from 1 to at most the percentage of all domains that have a description |
| WorkPool.MarksAreTold | GRIDNETCore/GRIDNET/CStateDomainManager.cpp:809-816 | every mark is told at most once, and all are told when the workers have left without an exception |
| ReportOrder.ReportsIncrease | GRIDNETCore/GRIDNET/CStateDomainManager.cpp:809-816 | with one worker, one chunk with described domains, or fewer than two percent of them, the shown percentages increase in every run |
| ReportOrder.ReportsMayDecreaseIff | GRIDNETCore/GRIDNET/CStateDomainManager.cpp:809-816 | some successful update shows a lower percentage after a higher one if and only if there are two workers, two chunks with described domains, and at least two percent of them |
| ReportOrder.TwoWorkersEndAtFifty | GRIDNETCore/GRIDNET/CStateDomainManager.cpp:919-927 | two domains and two workers: a successful update that shows 100 and then 50 |
| WorkPool.CleanExitMeansAllPublished | GRIDNETCore/GRIDNET/CStateDomainManager.cpp:757-781 | a worker leaves without abort only after every chunk was published and counted, every mark told and every described domain counted |
| WorkPool.NoDeadlock | GRIDNETCore/GRIDNET/CStateDomainManager.cpp:763-774 | while a worker has not left, some worker can move; all of them waiting is unreachable |
| WorkPool.RunsTerminate | GRIDNETCore/GRIDNET/CStateDomainManager.cpp:845-857 | every interleaving is finite, with an explicit bound, and can only end with all workers gone |
| WorkPool.AbortStopsSoon | GRIDNETCore/GRIDNET/CStateDomainManager.cpp:784-787 | once an exception raised the flag, each worker takes at most nine more steps and counts at most one more domain |
| WorkPool.ChunkSizeIsFourthOfShare | GRIDNETCore/GRIDNET/CStateDomainManager.cpp:720-723 | the chunk size is a fourth of a thread's even share, rounded down, and at least one |
| WorkPool.MakeChunks | GRIDNETCore/GRIDNET/CStateDomainManager.cpp:725-732 | chunks are non-empty, all but the last have the chunk size, and concatenate to the domain list |
| WorkPool.RefreshedCache | GRIDNETCore/GRIDNET/CStateDomainManager.cpp:718-843 | an exception-free update ends with the old cache overridden by the fresh description of every listed domain that has one |
| WorkPool.AbortedCache | GRIDNETCore/GRIDNET/CStateDomainManager.cpp:819-835 | at any moment, also after an exception, every cache entry is the old or the fresh one and none is lost |
| ChainWork.Block.GetTotalWorkDone | GRIDNETCore/GRIDNET/Block.cpp:407-414 | for any verified chain and storage: valid exactly when the walk meets a known total or genesis, then the sum along the fetched blocks, memoised and unthreaded; a block whose whole ancestry down to a key block can be reached (in memory, else in the verified chain, else in storage) is answered with the sum of difficulties over it where known totals are right; a block whose parent none of the three sources holds gets no answer; where known totals are right the answer is the total work plus the drift; where only named parents are fetched it is the total work and the memo stays right; without an answer no total changes |
| ChainWork.Block.GetTotalWorkDoneInt | GRIDNETCore/GRIDNET/Block.cpp:549-651 | the two walks, for any sums that are right where totals are known and add up along the walk |
| ChainWork.ReachableIsAnswered | GRIDNETCore/GRIDNET/BlockHeader.cpp:1850-1907 | an ancestry that can be reached, block by block, from memory, the verified chain or storage is answered, and only named parents are fetched |
| ChainWork.AnswerableExactly | GRIDNETCore/GRIDNET/Block.cpp:577-600 | off forks a block is answered if and only if some block of its ancestry has a known total or is the genesis block and every block above that one reaches its named parent |
| ChainWork.FetchedIsTotalAndDrift | GRIDNETCore/GRIDNET/BlockHeader.cpp:1855-1905 | the sum along the fetched blocks is the total work plus what the fetched parents' total work differs by from the named ones' |
| ChainWork.FaithfulSums | GRIDNETCore/GRIDNET/BlockHeader.cpp:1873-1886 | a walk on which the verified chain holds nothing or the named parent at every height it is asked for has no drift |
| ChainWork.ForkIsJudgedByVerifiedChain | GRIDNETCore/GRIDNET/BlockHeader.cpp:1883-1885 | a fork block without a parent pointer is judged by the verified chain's block below it; right if and only if the named parent has the same total work |
| ChainWork.ForkDeviates | GRIDNETCore/GRIDNET/BlockHeader.cpp:1883-1885 | a fork block with total work 6 and answer 8 |
| ChainWork.Block.WalkAndThread | GRIDNETCore/GRIDNET/Block.cpp:577-597 | the backward walk threads temporary pointers along exactly the fetched blocks down to the first known total and keeps the books in order |
| ChainWork.FillForward | GRIDNETCore/GRIDNET/Block.cpp:627-644 | the forward walk settles every block of the walk, and follows stale pointers only upwards |
| ChainWork.TotalWorkIsSum | GRIDNETCore/GRIDNET/Block.cpp:539-549 | the recursive total is the sum of difficulties over one block of each height down to genesis |
| ChainWork.WeightExactly | GRIDNETCore/GRIDNET/BlockHeader.cpp:1804-1818 | a block adds the whole part of its difficulty, or nothing when that is above the cap |
| ChainWork.TotalWorkFits | GRIDNETCore/GRIDNET/BlockHeader.cpp:1804-1818 | with the difficulty cap the 64-bit total cannot overflow below 184467441 blocks |
| ConnTracker.Tracker.PingState | GRIDNETCore/GRIDNET/ConnTracker.cpp:7-43 | logs the change, opens an interval on running, closes the most recent open one on ended, and leaves other addresses alone |
| ConnTracker.LastOpenIsClosed | GRIDNETCore/GRIDNET/ConnTracker.cpp:27-36 | an end closes the last interval that is still open, and no other |
| ConnTracker.Tracker.GetTime | GRIDNETCore/GRIDNET/ConnTracker.cpp:45-107 | the answer is the number of seconds of the window covered by the union of the intervals |
| ConnTracker.MergeSpans | GRIDNETCore/GRIDNET/ConnTracker.cpp:81-98 | merging sorted spans covers the same seconds by separated spans |
| ConnTracker.SpanSumCounts | GRIDNETCore/GRIDNET/ConnTracker.cpp:100-106 | the lengths of separated spans add up to the number of covered seconds |
| ConnTracker.CoverIsCounter | GRIDNETCore/GRIDNET/ConnTracker.cpp:20-42 | after any run the number of intervals covering a second is the event counter (started less ended, floored at zero) at that second, although closing is last-in first-out |
| ConnTracker.TimeIsLoggedTime | GRIDNETCore/GRIDNET/ConnTracker.cpp:7-107 | for any run with a clock that does not run backwards, the time is the number of seconds at which the event log says a connection was open |
| ConnTracker.TimeForEveryWindow | GRIDNETCore/GRIDNET/ConnTracker.cpp:59-60 | for every window: the logged time, or nothing when the window start wraps |
| ConnTracker.WrappedWindowForgets | GRIDNETCore/GRIDNET/ConnTracker.cpp:59-60 | a concrete wrapped window that forgets a connected address |
| ConnTracker.TimeWithinWindow | GRIDNETCore/GRIDNET/ConnTracker.cpp:45-107 | the answer never exceeds the window |
| ConnTracker.CleanupKeepsTime | GRIDNETCore/GRIDNET/ConnTracker.cpp:218-253 | a cleanup with a cut-off at or before the window start never changes the time, now or later |
| ConnTracker.CleanupKeepsOpen | GRIDNETCore/GRIDNET/ConnTracker.cpp:237-252 | a cleanup keeps all open connections exactly when its cut-off does not lie in the future, and otherwise none |
| ConnTracker.Tracker.GetRenewalTime | GRIDNETCore/GRIDNET/ConnTracker.cpp:109-216 | now when the union measure is below the quota, otherwise the end of the last connected second; never later than now |
| ConnTracker.Tracker.CleanupOldConnections | GRIDNETCore/GRIDNET/ConnTracker.cpp:218-253 | for every address, drops log entries and intervals older than the cut-off and nothing else |
| ConnTracker.CleanupIsFilter | GRIDNETCore/GRIDNET/ConnTracker.cpp:237-252 | a cleanup filters the intervals in order: one goes exactly when it ended, or would end now, before the cut-off |
| ConnTracker.RecentIsFilter | GRIDNETCore/GRIDNET/ConnTracker.cpp:222-236 | the same for the log and the times of its entries |
| HeaderCodec.LayoutsAgree | GRIDNETCore/GRIDNET/BlockHeader.cpp:59-314 | writer and reader name the same fields in the same order for every version and kind |
| HeaderCodec.LayoutInOrder | GRIDNETCore/GRIDNET/BlockHeader.cpp:59-314 | a version's fields are those it carries, listed field by field and not layout by layout, in the one order all versions keep |
| HeaderCodec.BodyInOrder | GRIDNETCore/GRIDNET/BlockHeader.cpp:549-801 | the printed body holds the carried fields, in that order, each once |
| HeaderCodec.FieldsReadBack | GRIDNETCore/GRIDNET/BlockHeader.cpp:549-590 | any list of fields reads back what was printed for it, whatever follows |
| HeaderCodec.RoundTrip | GRIDNETCore/GRIDNET/BlockHeader.cpp:25-384 | for versions 1 to 4 a printed header that validates parses exactly when it is a key header or has three 32-byte roots, to the recovered header, whatever follows |
| HeaderCodec.EveryFieldComesBack | GRIDNETCore/GRIDNET/BlockHeader.cpp:25-384 | for versions 1 to 4 and every header, valid or not: it parses exactly when its 32-byte names are there, and then each of the 25 fields holds its printed value if that version and kind carry it and is fresh if not, field by field |
| HeaderCodec.FreshFields | GRIDNETCore/GRIDNET/BlockHeader.cpp:1489-1507 | a fresh header holds zeros, empty byte vectors and the root of an empty trie |
| HeaderCodec.PrintsAgain | GRIDNETCore/GRIDNET/BlockHeader.cpp:516-801 | what was parsed back validates and prints to the same bytes |
| HeaderCodec.PacksTheSame | GRIDNETCore/GRIDNET/BlockHeader.cpp:516-801 | a packed header parses exactly when it is a key header or its filled roots have 32 bytes, and then needs no filling and packs to the same bytes whatever its own tries hold, so its hash is stable |
| HeaderCodec.PackParsePack | GRIDNETCore/GRIDNET/BlockHeader.cpp:25-384 | the three calls in a row: pack, parse, and pack the new object with other tries |
| HeaderCodec.PrintCommits | GRIDNETCore/GRIDNET/BlockHeader.cpp:516-801 | headers that print alike agree on version, kind and every field that version and kind carry, listed field by field |
| HeaderCodec.UnsignedNeverParses | GRIDNETCore/GRIDNET/BlockHeader.cpp:565-568 | a header printed without its signature never parses |
| HeaderCodec.UnknownVersionParses | GRIDNETCore/GRIDNET/BlockHeader.cpp:54-59 | a version the reader does not know parses to fresh fields, whatever the bytes say |
| HeaderCodec.ParseIgnoresWhatFollows | GRIDNETCore/GRIDNET/BlockHeader.cpp:40-58 | whatever parses still parses to the same header with anything appended |
| HeaderCodec.BlockHeader.GetPackedData | GRIDNETCore/GRIDNET/BlockHeader.cpp:516-801 | prints the header with its roots filled in, or refuses: an invalid header empties the buffer, an unknown version leaves it |
| HeaderCodec.InvalidExactly | GRIDNETCore/GRIDNET/BlockHeader.cpp:1592-1614 | exactly when a header is invalid |
| HeaderCodec.FilledExactly | GRIDNETCore/GRIDNET/BlockHeader.cpp:532-545 | each missing root is filled from its own trie, and a root that is there stays |
| HeaderCodec.NumbersOnTheWire | GRIDNETCore/GRIDNET/BlockHeader.cpp:549-590 | words and big numbers as bytes (X.690 section 8.3) |
| HeaderCodec.BytesOnTheWire | GRIDNETCore/GRIDNET/BlockHeader.cpp:549-590 | byte vectors as bytes, with the short and the long form of the length (X.690 section 8.1.3) |
| HeaderCodec.MarksOnTheWire | GRIDNETCore/GRIDNET/BlockHeader.cpp:546-568 | a missing signature is a NULL, and the first byte tells key and regular headers apart |
| HeaderCodec.Instantiate | GRIDNETCore/GRIDNET/BlockHeader.cpp:25-384 | returns a header exactly when parsing succeeds and the size checks pass, with the parsed contents |
| Der.ObjectReadsBack | GRIDNETCore/GRIDNET/BlockHeader.cpp:546-592 | a tag-length-value object reads back, whatever follows (X.690 sections 8.1 and 10.1) |
| Der.IntegerReadsBack | GRIDNETCore/GRIDNET/BlockHeader.cpp:550-554 | a non-negative integer reads back (X.690 section 8.3) |
| Certificate.Certificate.GenerateChunks | GRIDNETCore/GRIDNET/CCertificate.cpp:29-84 | when chunks are generated, what becomes of chunks and signature otherwise, and what the chunks are: every one but the last has exactly one step of bytes, where the step is the minimum, or, if that is more, the largest whose product with the maximum is within the size |
| Certificate.Certificate.GenerateFileChunks | GRIDNETCore/GRIDNET/CCertificate.cpp:142-213 | as for a vector; a file that stops short leaves the chunks that could still be read |
| Certificate.ChunkSizeIsStep | GRIDNETCore/GRIDNET/CCertificate.cpp:62-65 | the computed chunk size is such a step |
| Certificate.StepIsDetermined | GRIDNETCore/GRIDNET/CCertificate.cpp:62-65 | only one step meets that description |
| Certificate.CutDescribes | GRIDNETCore/GRIDNET/CCertificate.cpp:62-81 | the ranges are consecutive, non-empty, cover the data and carry the tags of their slices |
| Certificate.EachPositionInOneChunk | GRIDNETCore/GRIDNET/CCertificate.cpp:71-81 | every position lies in exactly one chunk |
| Certificate.MaximumIsMet | GRIDNETCore/GRIDNET/CCertificate.cpp:62-70 | the number of chunks is within the maximum if and only if the minimum decides or the maximum divides the size |
| Certificate.CountWhenQuotientDecides | GRIDNETCore/GRIDNET/CCertificate.cpp:62-70 | the exact number of chunks when size over maximum decides; the maximum itself when it divides the size |
| Certificate.CountBelowTwiceMaximum | GRIDNETCore/GRIDNET/CCertificate.cpp:62-70 | never more than twice the maximum less one chunks |
| Certificate.TwiceMaximumIsReached | GRIDNETCore/GRIDNET/CCertificate.cpp:62-70 | that bound is reached for every maximum |
| Certificate.Certificate.VerifySingleChunk | GRIDNETCore/GRIDNET/CCertificate.cpp:218-233 | accepts exactly a buffer that holds the range with the declared tag; a range that runs backwards and ends within the buffer makes the copy undefined |
| Certificate.Certificate.VerifyChunks | GRIDNETCore/GRIDNET/CCertificate.cpp:236-244 | accepts exactly when every chunk does; a range that runs backwards makes the copy undefined |
| Certificate.VerifiedBuffersStartWithData | GRIDNETCore/GRIDNET/CCertificate.cpp:218-244 | under an injective keyed hash exactly the extensions of the data verify |
| Certificate.ExtensionsVerify | GRIDNETCore/GRIDNET/CCertificate.cpp:218-244 | without that assumption, any extension of the data verifies |
| Certificate.Certificate.StoreChunk | GRIDNETCore/GRIDNET/CCertificate.cpp:495-520 | stores under the first declared chunk with that range, growing the piece list, or refuses and changes nothing |
| Certificate.Certificate.VerifyHotStorageChunk | GRIDNETCore/GRIDNET/CCertificate.cpp:523-533 | true exactly when the piece is there and its tag matches |
| Certificate.AnyOrderReassembles | GRIDNETCore/GRIDNET/CCertificate.cpp:495-533 | slices stored in any order, repeated and mixed with refused calls, all verify and concatenate to the data |
| Certificate.VerifiedPiecesAreTheData | GRIDNETCore/GRIDNET/CCertificate.cpp:495-533 | under an injective keyed hash, after any calls whatever, all chunks verify exactly when every piece is the right slice, and the pieces are then the data |
| BerCache.Cache.InsertIntoCache | GRIDNETCore/GRIDNET/CBERCacheManager.cpp:90-119 | stores or replaces the entry, evicts to the limit, and keeps the running size exact |
| BerCache.Cache.CheckAndRetrieve | GRIDNETCore/GRIDNET/CBERCacheManager.cpp:65-87 | drops what expired, evicts, and answers with the stored data, refreshing its time |
| BerCache.Cache.MaintainCache | GRIDNETCore/GRIDNET/CBERCacheManager.cpp:129-147 | leaves an eviction of the entries not expired |
| BerCache.MaintainExactly | GRIDNETCore/GRIDNET/CBERCacheManager.cpp:129-147 | within the limit it drops exactly what is idle beyond the lifetime; a time in the future counts as idle since 2^64 seconds before it |
| BerCache.Cache.EnforceMaxSize | GRIDNETCore/GRIDNET/CBERCacheManager.cpp:150-167 | terminates within the limit, removes nothing newer than a survivor and nothing it need not remove |
| BerCache.EvictionIsDetermined | GRIDNETCore/GRIDNET/CBERCacheManager.cpp:150-167 | with distinct times that description leaves one result |
| BerCache.NewestIsKeptIffItFits | GRIDNETCore/GRIDNET/CBERCacheManager.cpp:90-119 | the entry just stored survives exactly when it fits; one that does not takes all others with it |
| BerCache.RunWithin | GRIDNETCore/GRIDNET/CBERCacheManager.cpp:65-167 | after every call of every run the stored bytes are within the limit |
| BerCache.CacheIsPartOfPlain | GRIDNETCore/GRIDNET/CBERCacheManager.cpp:65-119 | over every run the cache is a part of the unlimited map that never forgets |
| BerCache.HitIsLatestAndFresh | GRIDNETCore/GRIDNET/CBERCacheManager.cpp:65-87 | a hit is the data last inserted under the key, not idle beyond the lifetime |
| BerCache.HitIffFresh | GRIDNETCore/GRIDNET/CBERCacheManager.cpp:65-147 | while everything inserted fits, a lookup hits exactly when its key was inserted and is not idle beyond the lifetime |
| CacheKey.ComputeCacheKey | GRIDNETCore/GRIDNET/CBERCacheManager.cpp:32-54 | the hash of all vectors in order, or in the original mode of the first followed by the last; no vectors give the empty key |
| CacheKey.SameKeyIffSameInput | GRIDNETCore/GRIDNET/CBERCacheManager.cpp:32-54 | under an injective hash two requests share a key if and only if what is hashed of them is the same |
| CacheKey.SplitPointsAreLost | GRIDNETCore/GRIDNET/CBERCacheManager.cpp:40-44 | cutting one vector in two never changes the key |
| CacheKey.MiddleIsLost | GRIDNETCore/GRIDNET/CBERCacheManager.cpp:45-51 | in the original mode nothing between the first and the last vector counts |
| PowProgress.DetectTargetWindowOffset | GRIDNETCore/GRIDNET/CWorkUltimium.cpp:2337-2346 | finds the most significant non-zero 64-bit window |
| PowProgress.CalculatePartialProgress | GRIDNETCore/GRIDNET/CWorkUltimium.cpp:2448-2479 | the windowed computation is the comparison of the two 256-bit numbers with the low windows dropped, and the only value that meets it |
| PowProgress.HighIsQuotient | GRIDNETCore/GRIDNET/CWorkUltimium.cpp:2339-2344 | dropping windows is dividing the 256-bit number by a power of 2^64 |
| PowProgress.ProgressInRange | GRIDNETCore/GRIDNET/CWorkUltimium.cpp:2448-2479 | the percentage is between 0 and 99.99, or 100 |
| PowProgress.ProgressAntitone | GRIDNETCore/GRIDNET/CWorkUltimium.cpp:2448-2479 | a smaller hash never shows less progress |
| PowProgress.ProgressMonotoneInTarget | GRIDNETCore/GRIDNET/CWorkUltimium.cpp:2448-2479 | an easier target never shows less progress |
| PowProgress.HundredExactly | GRIDNETCore/GRIDNET/CWorkUltimium.cpp:2466-2469 | 100 exactly when the quotients by the top window's weight compare, hence whenever the hash meets the target |
| PowProgress.HundredAboveTarget | GRIDNETCore/GRIDNET/CWorkUltimium.cpp:2466-2469 | a hash above the target that shows 100 |
| PowProgress.PartialIsRatio | GRIDNETCore/GRIDNET/CWorkUltimium.cpp:2458-2478 | otherwise the percentage is the ratio, cut off at 99.99, and when it is 0 |
| LogThrottle.Throttle.Report | GRIDNETCore/GRIDNET/CWorkUltimium.cpp:734-770 | the counters start over after a minute, and a line is written while fewer than twenty were and it is at least as good as the last |
| LogThrottle.RecordsAreWritten | GRIDNETCore/GRIDNET/CWorkUltimium.cpp:742-769 | in every run, whatever the clock does: a window ends when an offer comes sixty seconds or more after it began, and an offer is written exactly when its window holds fewer than twenty lines and none of them is better |
| LogThrottle.WindowsAreLimited | GRIDNETCore/GRIDNET/CWorkUltimium.cpp:742-769 | over every run no window holds more than twenty lines and percentages never decrease within one |
| LogThrottle.AnyMinuteHoldsForty | GRIDNETCore/GRIDNET/CWorkUltimium.cpp:742-769 | any sixty consecutive seconds hold at most forty lines |
| LogThrottle.AnyMinuteHoldsThirtyNine | GRIDNETCore/GRIDNET/CWorkUltimium.cpp:742-769 | with a clock past its first minute and percentages that are not negative, at most thirty-nine |
| LogThrottle.ThirtyNineIsReached | GRIDNETCore/GRIDNET/CWorkUltimium.cpp:742-769 | a genuine run with a clock that never runs backwards writes thirty-nine lines in one minute |
| OperatorStats.WelfordStep | GRIDNETCore/GRIDNET/COperatorSecurityInfo.cpp:426-432 | one round of the running update turns mean and sum of squared distances of a sequence into those of the longer one |
| OperatorStats.Operator.CalculateVolatility | GRIDNETCore/GRIDNET/COperatorSecurityInfo.cpp:418-436 | the result is the population standard deviation of the recent deviations |
| OperatorStats.VarianceBounded | GRIDNETCore/GRIDNET/COperatorSecurityInfo.cpp:434-435 | the variance of values within b of zero lies between 0 and b squared, so the clamp never acts |
| OperatorStats.Operator.UpdateMiningStatistics | GRIDNETCore/GRIDNET/COperatorSecurityInfo.cpp:347-416 | one observed block moves rate, deviations, volatility, sums and anomaly counts as the specification function says |
| OperatorStats.OneBlockObserved | GRIDNETCore/GRIDNET/COperatorSecurityInfo.cpp:347-416 | that block in numbers: the rate moves a tenth of the way to one over the gap, the deviation joins the last hundred, and each sum moves by it and half a unit and loses three tenths beyond five units, counting an alarm |
| OperatorStats.FirstBlockObserved | GRIDNETCore/GRIDNET/COperatorSecurityInfo.cpp:350-354 | a block that gives no gap sets only time and height |
| OperatorStats.RunRaises | GRIDNETCore/GRIDNET/COperatorSecurityInfo.cpp:391-405 | in any run, from a zero sum on and while no positive alarm sounds, the positive sum is that of the deviations judged since; the cap never acts |
| OperatorStats.RunLowers | GRIDNETCore/GRIDNET/COperatorSecurityInfo.cpp:396-411 | the same for the negative sum and the mirrored deviations |
| OperatorStats.RunSumIsLargestExcess | GRIDNETCore/GRIDNET/COperatorSecurityInfo.cpp:391-405 | between alarms the positive sum of a run is the largest total excess of any recent stretch of its deviations over their reference values |
| OperatorStats.SumsInRange | GRIDNETCore/GRIDNET/COperatorSecurityInfo.cpp:391-411 | one move keeps both sums within 9.5 of zero, far from the cap |
| OperatorStats.ObservedKeepsBounds | GRIDNETCore/GRIDNET/COperatorSecurityInfo.cpp:347-416 | one observed block keeps all bounds |
| OperatorStats.Operator.ComputeConfidenceLevel | GRIDNETCore/GRIDNET/COperatorSecurityInfo.cpp:61-158 | score and confidence move by one evaluation of the run; nothing changes before the first block, and the answer is then 0 |
| OperatorStats.AnomaliesRaiseScore | GRIDNETCore/GRIDNET/COperatorSecurityInfo.cpp:90-111 | below the cap an evaluation keeps nine tenths of the score, adds a fifth for each global anomaly and both sums over smoothed rate times blocks mined |
| OperatorStats.ScoreIsCapped | GRIDNETCore/GRIDNET/COperatorSecurityInfo.cpp:110-111 | the score never passes a million, and nothing moves before the first block |
| OperatorStats.ConfidenceInFull | GRIDNETCore/GRIDNET/COperatorSecurityInfo.cpp:114-153 | the confidence in closed form: score over one more than the score, and above a tenth one factor for each kind of offence beyond its grace, at most 1 |
| OperatorStats.GlobalsAlone | GRIDNETCore/GRIDNET/COperatorSecurityInfo.cpp:61-158 | one mined block, n global anomalies and one evaluation give score n/5 and confidence n/(n+5), for every n below five million |
| OperatorStats.ConfidenceGrows | GRIDNETCore/GRIDNET/COperatorSecurityInfo.cpp:114-153 | confidence lies between 0 and 1 and never falls when the score or an offence count rises |
| OperatorStats.QuietDecays | GRIDNETCore/GRIDNET/COperatorSecurityInfo.cpp:90-111 | without anomalies each evaluation takes a tenth off the score, down to exactly 0 |
| OperatorStats.RunKeepsBounds | GRIDNETCore/GRIDNET/COperatorSecurityInfo.cpp:61-436 | every interleaving of calls keeps rate, deviations, volatility, score and confidence in range and both sums within 9.5 of zero, so that their cap of a million never acts |
| OperatorStats.RunKeepsLatest | GRIDNETCore/GRIDNET/COperatorSecurityInfo.cpp:380-389 | the queue holds the latest hundred of all deviations ever measured and the volatility is their standard deviation |
| LineMailbox.RunInv | GRIDNETCore/GRIDNET/AsyncGetLine.h:25-125 | every interleaving of reader, caller and destructor keeps the mailbox invariant |
| LineMailbox.HandedIsPrefix | GRIDNETCore/GRIDNET/AsyncGetLine.h:61-124 | the lines handed out are the first lines typed, in order, each once; at most two more were typed |
| LineMailbox.NothingLost | GRIDNETCore/GRIDNET/AsyncGetLine.h:61-124 | until destruction no line is lost, and the reader ends only after handing over exit |
| LineMailbox.FullSlotHandsOutNext | GRIDNETCore/GRIDNET/AsyncGetLine.h:101-125 | a call that finds the slot full returns the next line |
| LineMailbox.SlotIsNeverShared | GRIDNETCore/GRIDNET/AsyncGetLine.h:81-121 | the threads never meet at the slot |
| LineMailbox.AnswersArePrefix | GRIDNETCore/GRIDNET/AsyncGetLine.h:101-125 | the non-empty answers are a prefix of the non-empty lines typed |
| LineMailbox.HolderIsFreed | GRIDNETCore/GRIDNET/AsyncGetLine.h:67-73 | a reader held up by a full slot goes on after one call |
| LineMailbox.SplitJoins | GRIDNETCore/GRIDNET/AsyncGetLine.h:34-59 | splitting the typed text into lines loses nothing, and no line holds a newline |
| BreakpointIndex.Factory.AddBreakpoint | GRIDNETCore/GRIDNET/BreakpointFactory.cpp:9-27 | lists a new breakpoint last and indexes it; one whose number does not convert stays listed and throws |
| BreakpointIndex.Factory.RemoveBreakpoint | GRIDNETCore/GRIDNET/BreakpointFactory.cpp:29-46 | drops the breakpoint from the list and its index, or throws and changes nothing |
| BreakpointIndex.Factory.Lookup | GRIDNETCore/GRIDNET/BreakpointFactory.cpp:171-230 | what is found under a key: exactly the listed breakpoints whose type, condition and value say so, in the order of the list, without repeats; a key of the wrong kind finds nothing |
| BreakpointIndex.PlaceExactly | GRIDNETCore/GRIDNET/BreakpointFactory.cpp:48-85 | for every index and key, which breakpoints are filed there and which throw, index by index |
| BreakpointIndex.LookupIsFilter | GRIDNETCore/GRIDNET/BreakpointFactory.cpp:48-85 | an index holds every matching breakpoint under the key it is filed under |
| BreakpointIndex.FilterIsExact | GRIDNETCore/GRIDNET/BreakpointFactory.cpp:48-85 | found under a key exactly when listed and of the type, condition and value that index finds by that key, each once |
| BreakpointIndex.IndexedWithout | GRIDNETCore/GRIDNET/BreakpointFactory.cpp:87-168 | removing a breakpoint removes its entry and nothing else |
| BreakpointIndex.LookupAfterAdd | GRIDNETCore/GRIDNET/BreakpointFactory.cpp:9-27 | a new breakpoint comes last under its key and changes no other lookup |
| BreakpointIndex.RemoveUndoesAdd | GRIDNETCore/GRIDNET/BreakpointFactory.cpp:9-46 | removing what was just added restores the list |
| BreakpointIndex.ListedIffLastAdded | GRIDNETCore/GRIDNET/BreakpointFactory.cpp:9-46 | over any run a breakpoint is listed exactly when its last call added it, except that one whose number does not convert stays for good and is found nowhere |
| DataConcatenator.Concatenator.AddWord | GRIDNETCore/GRIDNET/DataConcatenator.h:122-144 | eight bytes at the offset, which advances, or a refusal exactly above the size limit that changes nothing |
| DataConcatenator.Concatenator.AddRaw | GRIDNETCore/GRIDNET/DataConcatenator.h:146-152 | the value in its own width at the offset, which stays |
| DataConcatenator.Concatenator.AddVector | GRIDNETCore/GRIDNET/DataConcatenator.cpp:69-81 | the bytes at the offset, which advances, or a refusal exactly above the size limit that changes nothing |
| DataConcatenator.Concatenator.AddVectorOrWordLegacy | GRIDNETCore/GRIDNET/DataConcatenator.cpp:102-114 | an empty vector writes eight zero bytes and leaves the offset |
| DataConcatenator.Concatenator.AddBigLegacy | GRIDNETCore/GRIDNET/DataConcatenator.h:59-67 | a copy of the start of the buffer at the offset, which stays |
| DataConcatenator.RunWrites | GRIDNETCore/GRIDNET/DataConcatenator.h:45-145 | over any run the bytes before the offset are the encodings in order, and length less offset is what the legacy operations left behind |
| DataConcatenator.FixedIsConcatenation | GRIDNETCore/GRIDNET/DataConcatenator.cpp:69-100 | with fixed operations only the buffer is the concatenation of the encodings |
| DataConcatenator.LegacyValuesDoNotCount | GRIDNETCore/GRIDNET/DataConcatenator.h:55-67 | the buffer depends on a legacy big number only through its length |
| DataConcatenator.FixedValuesCount | GRIDNETCore/GRIDNET/DataConcatenator.h:42-53 | two runs that differ in one fixed big number of the same length, anywhere, end in different buffers |

## Left out

- The metadata update's in-progress flag: its reset guard wraps a null pointer (CStateDomainManager.cpp:666-669), so nothing is claimed about it.
- Lost wake-ups at the condition variable: a waiting worker re-checks its predicate. Failures to launch threads, to allocate while publishing, and a pool of zero threads, which divides by zero.
- WorkPool.MarksIncrease: percentages are integer parts of exact quotients, because rounding of doubles is not modelled.
- ChainWork.Block.GetTotalWorkDone: blocks without a header, and the identifiers inside a verification result, are not part of this model; a block above height 0 names one parent one lower, the verified chain answers a height with a block of that height, and difficulties enter by their integer part.
- The header's pointer back to its block, which `prepareForRemoval` also clears: a header is part of its block here.
- `freePath` of a block, which never advances its cursor when only temporary pointers are freed.
- ConnTracker.Tracker.GetTime: addresses stand for their hashes, and one reading of the clock serves one call.
- The forward simulation in `getRenewalTime` (ConnTracker.cpp:200-211): no event lies after now, so it is never entered.
- HeaderCodec.RoundTrip: the Botan library is not part of this model; numbers are unbounded where the library may refuse large ones, indefinite lengths are refused, the tag byte follows X.690, and big numbers are taken as their big-endian bytes. The printed header must fit in a 64-bit address space. Tries are opaque; their hashes are parameters.
- Result codes and error texts of header instantiation, and blockchain modes other than the one that is supported.
- Certificate.Certificate.VerifyChunks: what the undefined copy of a range that runs backwards does. Reading certificates back, signing them and verifying a file chunk by chunk are not part of this model.
- BerCache.Cache.InsertIntoCache: the running size is unbounded; a 64-bit sum of sizes of vectors in memory cannot wrap.
- PowProgress.CalculatePartialProgress: ratios are exact reals, where the source rounds to doubles.
- OperatorStats.Operator.UpdateMiningStatistics: doubles are exact reals and counters are unbounded; statistics loaded from storage are not part of this model.
- BreakpointIndex.Factory.Lookup: within one key the order is that of insertion, as an ordered multimap keeps it; the container's declaration is not part of this model. A breakpoint's values do not change after it was added.
- LineMailbox.RunInv: the detached thread's use of a destroyed object is not part of this model; characters come one at a time from an endless input.
- DataConcatenator.Concatenator.AddBigLegacy: a value longer than the offset is excluded, because the source's copy would overlap itself. Script engine stack elements are not part of this model.
- OpenCL, networking, storage, terminal output and consensus tasks: input and output, or members that would only be easy.
