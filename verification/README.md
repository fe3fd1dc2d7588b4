# Verified models of the exchange core

These Dafny modules model the parts of the trading exchange where correctness is hard to see from the code, and prove what
those parts promise over every input, every run and every interleaving.

| modules | what they model |
|---|---|
| `Orders`, `LevelBook`, `Matching`, `BookRuns`, `Limits`, `PriceTime`, `Depth` | the limit order book as values: sorted price levels, the matching sweep, requests and runs of requests, what they promise the clients in prices, and an independent reference matcher that keeps one plain list of orders per side in arrival order |
| `FlatBook`, `BookMirror`, `BookCoherence`, `OrderBooks` | the book as the code keeps it: mutable order slots shared by reference, flat vectors of levels with a dead prefix and a cached total, an id lookup, a slot pool, the best-bid-and-offer snapshot. Every operation is proved against the value book |
| `EngineEvents`, `MatchingEngines` | the matching engine: requests in, market data events out, a market data queue that may refuse events |
| `Mpmc`, `MpmcProgress`, `MemoryPool`, `PoolWrap`, `Spsc`, `SpscProgress`, `Seqlock`, `Bits` | the lock-free structures as step machines, one step per shared access, any schedule; and the bit tricks that size and index their buffers |
| `RateLimit`, `Risk`, `RiskRuns`, `RiskApprovals`, `RiskManagers` | the pre-trade risk checks, their books, what an approval means, and the class that updates and rolls them back |
| `Framing` | length-prefixed framing of a TCP stream over a fixed read buffer |
| `Crc32`, `CheckValues`, `Polynomials`, `Hexadecimal` | the message checksum, its error detection, and its definition by division of polynomials |
| `Transactions` | all-or-nothing execution of actions |
| `Sequences` | facts about sequences used by the others |

How the pieces fit together:

- `OrderBooks.OrderBook` keeps a ghost field `view`, the value book its vectors and slots represent. `Valid()` ties the two together:
  levels strictly sorted and never empty, cached totals exact, live references found through the lookup, the lookup a bijection with the
  resting orders, the book uncrossed, the slots accounted for. Each method states its new `view` as the value operation of the same name,
  so everything proved about runs of value operations holds of the class.
- `PriceTime.RunRefinesReference` says that over every run the level book prints exactly the trades of the reference matcher, which
  repeatedly takes the best-priced, earliest-arrived resting order, and that its levels are that list sorted into prices.
- Where a class and its specification share a definition, that definition is read back in other terms: crossing prices in `Limits`, the best
  bid and offer in `Depth.BboOfArrivals`, approvals in `RiskApprovals`, queued jobs in `MatchingEngines.JobAsks`, the checksum in
  `Crc32.ChecksumIsFcs`.
- The book returns slots to `OrderBooks.OrderPool`, the pool as one thread sees it between calls: its capacity and the set of slots handed
  out. The lock-free pool behind it is `MemoryPool`.
- The step machines carry history variables (logs, unbounded counters, who holds what). The machine steps never read them, except that
  callers of the slot pool free only slots they were given. A run is any sequence of steps by any threads.

Where the code and its documentation differ, the model follows the code:

- Queue capacities are rounded up to a power of two; `tests/test_queues.cpp:33-40` fills a queue of 1000 expecting exactly 1000 slots.
- The rate limit is called a sliding window (`src/risk_manager.cpp:408-417`) but restarts its window; `RateLimit.TwiceIsReached` shows
  twice the limit within a second, and `RateLimit.SlidingOnlyAtZero` that only a maximum of 0 is kept by every run.
- The configured collar percentage is a fraction and is truncated to a whole number before use, and above 100 the lower bound wraps
  around; `Risk.CollarExactly` says for which percentages the check is the configured band, `Risk.FractionIgnored` gives a price within
  half a percent that is refused. Configuration validation refuses percentages above 100, and accepts fractions.
- Exposure arithmetic wraps at 2^64; `RiskRuns.ApprovalExactly` says when an approval adds the true value, `RiskRuns.ExposureFits` which
  bounds exclude wrapping.
- The order index of the risk manager is keyed by order id alone. Two clients with one id can erase or redirect each other's route, and
  a cancel can then reach another client's order (`RiskRuns.CancelCanGoAstray`); `RiskRuns.DecideRouted`, `RiskRuns.WithdrawnRouted` and
  `RiskRuns.RunRouted` say exactly when, and `Risk.DecideKeepsIndex`, `Risk.WithdrawnKeepsIndex` and `Risk.RollbackExactly` do so for
  the indexed ids.
- A cancel that the engine's queue refuses is counted as accepted and the order forgotten (`RiskRuns.CancelReachesEngine`).
- A failed commit discards the errors of its rollbacks; `Transactions.FailedCommitRestores` says for which actions the world is restored.
- The best price of a side is 0 both when the side is empty and when its best level is at price 0.
- The remainder of a market order rests at its own price field, which happens only when the opposite side is empty.
- An order filled completely on arrival leaves the lookup but its slot is not returned to the pool; the slot accounting states this.
- The generation tag of the slot pool is said to prevent a stale swap of the head (`include/rtes/memory_pool.hpp:67-69`); it has 32 bits,
  so a swap 2^32 changes late succeeds and hands a slot out twice in every pool of two slots or more (`PoolWrap.SafeExactly`), and
  `MemoryPool.TagExactly` says when an equal head word means an unchanged head.
- The gateway accepts messages of up to 4096 bytes, the checksum routines of up to 8192.

## Model

| member | source | states |
|---|---|---|
| `Matching.SweepStops` | src/order_book.cpp:117-186 | a sweep leaves a well-formed side, and stops only when the taker is exhausted, the side is empty or nothing crosses any more; the best price never improves |
| `Matching.SweepPrints` | src/order_book.cpp:151-205 | trade ids count up from the given one, every trade has positive quantity, names the taker on its side and prints at a price the taker crosses |
| `Matching.SweepWithinLimit` | src/order_book.cpp:117-186 | no trade of a sweep is above the limit of a limit buyer, or below the limit of a limit seller |
| `Matching.SweepMaker` | src/order_book.cpp:117-186 | the passive order of every trade is what is left of a known order of the swept side, at the price of the trade |
| `Matching.SweepWithinBest` | src/order_book.cpp:117-186 | no trade of a sweep prints better than the best level it started from |
| `Matching.SweepPricesWorsen` | src/order_book.cpp:117-186 | of any two trades of a sweep the later one never prints at a better price |
| `Matching.SweepAtMakerPrice` | src/order_book.cpp:127-128 | every trade prints at the price at which its passive order was resting |
| `Matching.SweepConserves` | src/order_book.cpp:188-205 | for every order id, quantity before equals quantity left plus quantity traded |
| `Matching.SweepVolume` | src/order_book.cpp:117-205 | the swept side and the taker each lose exactly the traded volume |
| `Matching.SweepTerminates` | src/order_book.cpp:120-177 | every trade but at most the last removes a resting order, so the number of trades is bounded by the number of resting orders plus one |
| `Matching.SweepAddsNoId` | src/order_book.cpp:117-186 | a sweep leaves no order id on the book more often than before |
| `BookRuns.AddFate` | src/order_book.cpp:56-76 | an accepted order ends filled, or faces an empty side, or is a limit order that crosses no level left |
| `BookRuns.AddKeepsUncrossed` | src/order_book.cpp:48-81 | an add never crosses the book, including when the remainder of a market order rests |
| `BookRuns.AddKeepsUnique` | src/order_book.cpp:54-57 | an add keeps every id resting at most once over both sides |
| `BookRuns.CancelKeepsUnique` | src/order_book.cpp:83-100 | so does a cancel |
| `BookRuns.CancelKeepsUncrossed` | src/order_book.cpp:83-100 | a cancel never crosses the book |
| `BookRuns.CancelTotal` | src/order_book.cpp:224-241 | a cancel takes exactly the resting order of that id off the book, in every measure |
| `BookRuns.ApplySound` | src/order_book.cpp:48-100 | every request keeps levels sorted, unique and non-empty, orders positive and on their level's price and side, ids unique and the book uncrossed |
| `BookRuns.After` | src/order_book.cpp:48-100 | the book after any run of adds and cancels has all of that |
| `BookRuns.RunConserves` | src/order_book.cpp:117-205 | over every run and for every order: accepted quantity equals resting plus traded plus cancelled quantity |
| `BookRuns.TapeConsecutive` | src/order_book.cpp:199 | over every run trade ids are 1, 2, 3 and so on without gap, and trades are never empty |
| `BookRuns.AddVolume` | src/order_book.cpp:117-205 | in each add the opposite side's total falls by exactly the traded volume |
| `BookRuns.AddThenCancel` | src/order_book.cpp:83-100 | adding an order that does not trade and cancelling it restores the book exactly |
| `BookRuns.RunTotalsFit` | src/input_validation.cpp:210-226 | with validated order and pool sizes no level total of any reachable book reaches 2^64 |
| `BookRuns.RestingWithin` | src/order_book.cpp:54-57 | a book in which no id rests twice holds at most as many orders as there are ids |
| `Limits.AddWithinLimit` | src/order_book.cpp:151-169 | an add by a limit order makes no trade above its price when it buys, or below it when it sells |
| `Limits.RemainderBeyond` | src/order_book.cpp:56-76 | when some of a limit buy rests, every ask left is above its price; when some of a limit sell rests, every bid left is below it |
| `Limits.MarketTakesAll` | src/order_book.cpp:117-147 | some of a market order rests only when the other side is empty |
| `Limits.AddAnswers` | src/order_book.cpp:48-54 | an add is invalid exactly with nothing to fill, else a duplicate exactly when an order of that id rests on either side, else accepted |
| `Limits.CancelAnswers` | src/order_book.cpp:83-100 | a cancel is accepted exactly when an order of that id rests, and afterwards none does |
| `Limits.RunNoStray` | src/order_book.cpp:188-205 | over every run each resting order has id, side, kind and price of an accepted order of the run |
| `Limits.TapeWithinLimits` | src/order_book.cpp:117-205 | over every run each trade joins an accepted buy and an accepted sell order of the run, named by its two ids, within the limits of both, at the price of the one that came first |
| `Limits.RunRemainder` | src/order_book.cpp:56-76 | over every run, right after its turn, what rests of a limit order faces only prices beyond its limit |
| `Limits.RunOrdered` | src/order_book.cpp:121-123 | over every run bid prices fall, ask prices rise, and every bid is below every ask |
| `PriceTime.FirstBest` | src/order_book.cpp:121-123 | the reference picks the best price and, at that price, the earliest arrival |
| `PriceTime.HeadIsFirstBest` | src/order_book.cpp:121-123 | the front of the best level is that order |
| `PriceTime.SweepIsMatchAll` | src/order_book.cpp:117-186 | the sweep over levels trades, leaves and rests exactly as the reference matcher over the arrival list |
| `PriceTime.AddSimulates` | src/order_book.cpp:48-81 | an add agrees with the reference in trades, acceptance and resulting book |
| `PriceTime.CancelSimulates` | src/order_book.cpp:83-100 | a cancel removes one order of the arrival list and leaves the order of all others |
| `PriceTime.RunRefinesReference` | src/order_book.cpp:48-205 | over every run the tape equals the reference's tape and the book represents the reference's lists |
| `PriceTime.Canonical` | include/rtes/order_book.hpp:134-156 | the queue at every price determines the levels: there is only one sorted book for given queues |
| `Depth.DepthOfArrivals` | src/order_book.cpp:243-255 | depth entries count and sum exactly the orders at their price, run from best to worse, and an order not covered is worse than a full depth |
| `Depth.BestOfArrivals` | src/order_book.cpp:265-272 | of one side: the best price is that of the order first in priority and the best quantity sums the orders at that price |
| `Depth.BboOfArrivals` | src/order_book.cpp:265-272 | bid price and quantity are those of the buy orders resting, ask price and quantity those of the sell orders, with no bid above and no ask below them; 0 for a side without orders |
| `Depth.RunBbo` | src/order_book.cpp:265-272 | so over every run for the orders of the reference matcher |
| `FlatBook.FlatPriceBook.LowerBound` | include/rtes/order_book.hpp:273-289 | the binary search splits the levels into those strictly ahead of the price and the rest |
| `FlatBook.FlatPriceBook.Find` | include/rtes/order_book.hpp:176-190 | finds the level of a price if and only if there is one |
| `FlatBook.FlatPriceBook.FindOrInsert` | include/rtes/order_book.hpp:210-216 | returns the level, inserting an empty one in sorted position exactly when missing |
| `FlatBook.FlatPriceBook.Remove` | include/rtes/order_book.hpp:220-225 | takes out the level of that price and no other |
| `FlatBook.FlatPriceBook.CompactAll` | include/rtes/order_book.hpp:250-256 | changes no live order, price or total, and leaves no level that needs compaction |
| `FlatBook.FlatPriceBook.PruneEmpty` | include/rtes/order_book.hpp:261-266 | keeps exactly the non-empty levels, in order |
| `BookMirror.MirrorsOrdered` | include/rtes/order_book.hpp:134-156 | vectors that represent a well-formed side are strictly sorted and have no empty level |
| `BookMirror.CompactMirrors` | include/rtes/order_book.hpp:123-127 | compaction leaves the represented book unchanged |
| `BookCoherence.FillCoherent` | src/order_book.cpp:127-139 | after one trade the vectors, lookup and slots represent the book after one trade |
| `BookCoherence.RestCoherent` | src/order_book.cpp:207-222 | after resting an order they represent the book with that order |
| `BookCoherence.CancelCoherent` | src/order_book.cpp:224-241 | after erasing a reference they represent the book without that order |
| `OrderBooks.OrderBook.ExecuteTrade` | src/order_book.cpp:188-205 | both orders lose the traded quantity, statuses follow, the trade names buyer and seller, the id counter advances |
| `OrderBooks.OrderBook.Settle` | src/order_book.cpp:130-139 | an exhausted passive order leaves level, lookup and pool and an emptied level leaves the book; otherwise only the cached total falls |
| `OrderBooks.OrderBook.MatchOrder` | src/order_book.cpp:102-186 | the sweep loop produces exactly the trades, remainder and book of the value sweep, and returns exactly the slots that left the lookup |
| `OrderBooks.OrderBook.AddToBook` | src/order_book.cpp:207-222 | the order rests at the back of the level of its price |
| `OrderBooks.OrderBook.Locate` | src/order_book.cpp:226-230 | binary search and scan find the very reference of a resting order |
| `OrderBooks.OrderBook.RemoveFromBook` | src/order_book.cpp:224-241 | exactly that order leaves, and its level if it was the last |
| `OrderBooks.OrderBook.UpdateBbo` | src/order_book.cpp:265-272 | the snapshot is the best bid and offer of the represented book, which `Depth.BboOfArrivals` reads as facts about resting orders; the sequence advances by two |
| `OrderBooks.OrderPool.Allocate` | include/rtes/memory_pool.hpp:188-224 | hands out a slot no caller has, holding the order, or none exactly when all slots of the capacity are out |
| `OrderBooks.OrderBook.TotalsFit` | src/input_validation.cpp:210-226 | with pool capacity and order sizes within their validated maxima no cached level total of the vectors reaches 2^64 |
| `OrderBooks.OrderBook.AddOrder` | src/order_book.cpp:48-81 | error cases change no field of book, pool, order or resting slots; otherwise the effect is that of the value book, no trade is beyond the limit of a limit order, the order ends resting and accepted or filled and unlisted, exactly the exhausted makers' slots go back, makers that traded are marked filled or partially filled, all others keep their status, and the snapshot is rewritten once |
| `OrderBooks.OrderBook.CancelOrder` | src/order_book.cpp:83-100 | error cases change no field of book, pool or resting slots; otherwise the order leaves the book and the lookup, is marked cancelled, its slot alone goes back, and every other slot keeps its status |
| `OrderBooks.OrderBook.GetDepth` | src/order_book.cpp:243-255 | depth is the aggregated prefix of the represented book, at most 20 levels a side |
| `OrderBooks.OrderBook.Compact` | include/rtes/order_book.hpp:439-442 | compaction keeps the whole representation invariant for the same book |
| `OrderBooks.OrderBook.Prune` | include/rtes/order_book.hpp:448-451 | pruning finds nothing to remove |
| `OrderBooks.OrderBook.CancelAll` | src/order_book.cpp:274-279 | every slot of the lookup is marked cancelled and returned once |
| `OrderBooks.OrderBook.Shutdown` | src/order_book.cpp:274-284 | the book ends empty, and of the slots it held only those filled on arrival stay outstanding |
| `EngineEvents.StreamShowsBook` | src/matching_engine.cpp:180-223 | over every run the last best prices published are the book's best prices |
| `EngineEvents.StreamTrades` | src/matching_engine.cpp:226-245 | over every run the trade events, taken alone, are the trades of the run in order |
| `EngineEvents.EveryBboReported` | src/matching_engine.cpp:180-259 | over every run each best-price event is the last event of one request, right behind its trades, shows best prices and quantities of the orders that rest after it, and differs in a price from before |
| `EngineEvents.KeptAt` | src/matching_engine.cpp:234-259 | an event the queue accepts is delivered behind exactly the accepted ones before it |
| `EngineEvents.SubscribersAgree` | src/matching_engine.cpp:180-262 | whatever the queue refuses, a subscriber has the book's best prices unless the latest best-price event was refused, and delivered plus dropped events equal trades plus price changes |
| `EngineEvents.FromEmpty` | src/matching_engine.cpp:152-174 | book and stream computed request by request from the empty book are those of the run |
| `MatchingEngines.MatchingEngine.Publish` | src/matching_engine.cpp:234-262 | an event is delivered or counted as dropped, as the queue decides; nothing happens without a queue |
| `MatchingEngines.MatchingEngine.PublishOutcome` | src/matching_engine.cpp:180-262 | a request publishes its trades in order and then the best bid and offer exactly if a best price changed |
| `MatchingEngines.MatchingEngine.ProcessNewOrder` | src/matching_engine.cpp:180-204 | the book takes the order, the outcome is published, published prices stay in step with the book, and a rejected order is marked and its slot returned |
| `MatchingEngines.MatchingEngine.ProcessCancel` | src/matching_engine.cpp:206-223 | the same for a cancel |
| `MatchingEngines.JobAsks` | src/matching_engine.cpp:159-168 | the requests of a queue are one per job other than a null order, in queue order: a new order with the slot's ticket for an entry, a cancel of its id for a removal |
| `MatchingEngines.LastJob` | src/matching_engine.cpp:159-168 | the last job of a queue enters its order into the book the others leave, or takes its id off it, so that no order of that id rests |
| `MatchingEngines.MatchingEngine.DrainBatch` | src/matching_engine.cpp:152-174 | up to 256 queued requests take effect in order on book and stream; waiting orders are untouched; after a final removal no order of that id rests |
| `MatchingEngines.MatchingEngine.MaybeCompact` | src/matching_engine.cpp:288-293 | maintenance changes neither book nor stream |
| `Mpmc.DoKeeps` | include/rtes/mpmc_queue.hpp:149-270 | every step of every thread keeps the queue invariant |
| `Mpmc.Fifo` | include/rtes/mpmc_queue.hpp:149-270 | over every interleaving: no position is returned by two pushes or two pops, a pop returns the very item pushed at its position by a push that had returned, and calls that do not overlap get positions in the order they were made |
| `MpmcProgress.PushCompletes` | include/rtes/mpmc_queue.hpp:149-181 | after any run a push left undisturbed returns within seven steps: with success at the next position unless all cells are occupied or one is being released, and then with the report that the queue is full |
| `MpmcProgress.PushReturns` | include/rtes/mpmc_queue.hpp:149-181 | and so it does from any point before its compare-and-swap, with a stale position or about to reload it |
| `MpmcProgress.PopCompletes` | include/rtes/mpmc_queue.hpp:237-270 | after any run a pop left undisturbed returns within seven steps: with the item pushed at the next position unless that is not published, and then with the report that there is none |
| `MpmcProgress.PopReturns` | include/rtes/mpmc_queue.hpp:237-270 | and so it does from any point before its compare-and-swap |
| `Mpmc.OneOwner` | include/rtes/mpmc_queue.hpp:159-164 | no two threads ever work on the same position |
| `Mpmc.NoOverwrite` | include/rtes/mpmc_queue.hpp:177-182 | a producer writes only a cell whose earlier items have all been popped |
| `Mpmc.PushFailsWhenFull` | include/rtes/mpmc_queue.hpp:167-169 | a push gives up only when all cells are taken or the pop of the position one lap back is in flight |
| `Mpmc.PopFailsWhenEmpty` | include/rtes/mpmc_queue.hpp:253-255 | a pop gives up only when the queue is empty or the push of the next position is in flight |
| `Mpmc.Quiescent` | include/rtes/mpmc_queue.hpp:149-270 | with no call in flight the pushes returned are exactly the positions below the enqueue position, the pops those below the dequeue position, and the cells hold the rest in order |
| `Mpmc.CapacityHolds` | include/rtes/mpmc_queue.hpp:101-117 | the queue keeps to its capacity over every run if and only if it has at least two cells |
| `Mpmc.OneCellOverwrites` | include/rtes/mpmc_queue.hpp:101-117 | with one cell, for any two items, some run pushes both and then pops the second at the position of the first |
| `Mpmc.FifoExactly` | include/rtes/mpmc_queue.hpp:149-270 | over every run positions are used once and every pop returns the item pushed at its position, if and only if the queue has at least two cells |
| `Mpmc.RequestedCapacity` | include/rtes/mpmc_queue.hpp:101-107 | at least two cells means a requested capacity of at least two |
| `MemoryPool.PackRoundTrip` | include/rtes/memory_pool.hpp:76-85 | packing index and generation into the head word and unpacking are inverse, both ways |
| `MemoryPool.SwapMeansUnchanged` | include/rtes/memory_pool.hpp:188-296 | an allocating swap by a thread that has not slept through 2^32 changes succeeds only if the head has not changed since it was loaded, so the successor read earlier is the true one; a freeing swap that succeeds has linked its slot to the head it replaces, however long it slept |
| `MemoryPool.SwapExactly` | include/rtes/memory_pool.hpp:188-213 | a successful allocating swap keeps the pool in order if and only if the successor it installs is the true one |
| `MemoryPool.TagExactly` | include/rtes/memory_pool.hpp:60-74 | an equal head word means an unchanged head if and only if fewer than 2^32 changes lie in between |
| `PoolWrap.SleeperBreaksPool` | include/rtes/memory_pool.hpp:188-213 | in every pool of two slots or more some run gives a slot two holders; the witness lets one thread swap the head exactly 2^32 changes after loading it |
| `PoolWrap.SafeExactly` | include/rtes/memory_pool.hpp:60-74 | over every run whatsoever no slot has two holders, if and only if the pool has a single slot |
| `MemoryPool.DoKeeps` | include/rtes/memory_pool.hpp:188-296 | every step of every thread keeps free list, held slots and slots in transit a partition, flags and counters in agreement, as long as a swap installs the true successor |
| `MemoryPool.SoloSafe` | include/rtes/memory_pool.hpp:188-296 | a pool of one slot keeps all of that over every run, however long its threads sleep |
| `MemoryPool.OneHolder` | include/rtes/memory_pool.hpp:216-221 | over every interleaving of prompt threads, and every interleaving at all with one slot, no slot has two holders and neither ownership assertion fires |
| `PoolWrap.AllocateAlone` | include/rtes/memory_pool.hpp:188-224 | an allocation left undisturbed on a pool with a free slot returns with the slot at the head, which its successor replaces |
| `PoolWrap.FreeAlone` | include/rtes/memory_pool.hpp:246-296 | a free left undisturbed returns with the slot at the head, linked to the one that was there |
| `MemoryPool.HeldApart` | include/rtes/memory_pool.hpp:188-296 | a held slot is neither on the free list nor being moved by any thread |
| `MemoryPool.Acyclic` | include/rtes/memory_pool.hpp:128-136 | following the links from the head ends after the free slots, each met once |
| `MemoryPool.NullMeansExhausted` | include/rtes/memory_pool.hpp:194-197 | an allocation gives up only when no slot is free |
| `MemoryPool.QuiescentStatistics` | include/rtes/memory_pool.hpp:420-436 | with no call in flight the count is the number of held slots, all others are free, and the high-water mark is the peak |
| `MemoryPool.PeakIsHighest` | include/rtes/memory_pool.hpp:420-432 | that peak is the largest value the count ever had in the run |
| `Bits.RoundsUp` | include/rtes/spsc_queue.hpp:82-92 | rounding gives the least power of two not below its argument if and only if the argument is at most 2^63, and 0 above |
| `Bits.SmearDoubles` | include/rtes/spsc_queue.hpp:85-90 | each shift-and-or doubles the number of leading bits set |
| `Bits.MaskWraps` | include/rtes/spsc_queue.hpp:154-155 | masking with the capacity minus one is the place in the ring |
| `Bits.WrapTwice` | include/rtes/spsc_queue.hpp:142-160 | an index that wraps at 2^64 keeps its place in the ring |
| `Spsc.DoKeeps` | include/rtes/spsc_queue.hpp:142-211 | every step of producer and consumer keeps the ring invariant |
| `Spsc.RefinesQueue` | include/rtes/spsc_queue.hpp:142-211 | over every interleaving, wherever indices wrap, the outcomes are those of a bounded queue of the ring's capacity, items leave in order, and cached indices lag without letting the ring overfill |
| `SpscProgress.PushSucceeds` | include/rtes/spsc_queue.hpp:142-160 | a push begun after any run on a ring with room publishes its item within three of its own steps, whatever the consumer does in between |
| `SpscProgress.PushReportsFull` | include/rtes/spsc_queue.hpp:142-160 | on a full ring with the consumer at rest it reports so |
| `SpscProgress.PopSucceeds` | include/rtes/spsc_queue.hpp:193-211 | a pop begun after any run on a ring with an item releases the oldest one within three of its own steps, whatever the producer does in between |
| `SpscProgress.PopReportsEmpty` | include/rtes/spsc_queue.hpp:193-211 | on an empty ring with the producer at rest it reports so |
| `Spsc.NoOverwrite` | include/rtes/spsc_queue.hpp:154-160 | a write never hits a slot whose item has not been released |
| `Spsc.LookKeeps` | include/rtes/spsc_queue.hpp:239-246 | the consumer's emptiness test answers as the bounded queue would |
| `Spsc.RequestedCapacity` | include/rtes/spsc_queue.hpp:110-117 | every requested capacity up to 2^63 gives a ring of a power of two of slots, at least as many |
| `Seqlock.ReadsAreWhole` | src/order_book.cpp:257-272 | over every interleaving of one writer and any readers, a read that succeeds returned all four fields of one completed update or of the initial snapshot |
| `Seqlock.VersionsAreUpdates` | src/order_book.cpp:265-272 | the completed snapshots are the updates begun, in order, except one under way |
| `Seqlock.QuietReadSucceeds` | src/order_book.cpp:257-263 | a read undisturbed by updates succeeds with the current fields |
| `RateLimit.AtMostTwice` | src/risk_manager.cpp:418-433 | with a clock that never runs back, every half-open second holds at most twice the maximum of admitted orders |
| `RateLimit.TwiceIsReached` | src/risk_manager.cpp:418-433 | that bound is reached for every maximum |
| `RateLimit.SlidingExactly` | src/risk_manager.cpp:418-433 | within one call: the second ending now splits at the window start into the gate's count and the admissions before it, which decides whether the call respects the sliding reading |
| `RateLimit.SlidingOnlyAtZero` | src/risk_manager.cpp:418-433 | every second of every run with a monotone clock holds at most the maximum, if and only if the maximum is 0 |
| `Risk.CollarIsBand` | src/risk_manager.cpp:382-406 | for whole percentages up to 100 the integer check is the percentage band in exact arithmetic |
| `Risk.CollarExactly` | src/risk_manager.cpp:382-406 | the check is the configured band, for all prices and references, if and only if the configured percentage is a whole number from 0 to 100 |
| `Risk.FractionIgnored` | src/risk_manager.cpp:394 | half a percent admits the reference price 10000 only, although 10020 is within the band |
| `Risk.CollarNeverWider` | src/risk_manager.cpp:382-406 | what the check admits is within the configured band, for every percentage from 0 up to 101, whole or not |
| `Risk.CollarClosed` | src/risk_manager.cpp:394-405 | above 100 percent the lower bound wraps around; no price passes for any reference, if and only if the percentage is below 2^63 or at least 2^64 - 100 |
| `Risk.RejectionKeeps` | src/risk_manager.cpp:242-316 | a rejection leaves every client's orders and exposure and everything sent as they were |
| `Risk.RollbackExactly` | src/risk_manager.cpp:301-316 | undoing a failed hand-over restores the index if and only if the id was not indexed before |
| `Risk.DecideKeepsIndex` | src/risk_manager.cpp:292-316 | a new order keeps the set of indexed ids equal to the set of active ids if and only if it is not rolled back while another client owns that id |
| `Risk.WithdrawnKeepsIndex` | src/risk_manager.cpp:328-358 | a cancel does so if and only if no other client owns that id |
| `RiskRuns.ExposureIsSum` | src/risk_manager.cpp:281-294 | over every run a client's exposure is the 64-bit sum of the notionals of all its approved orders, cancelled or not, and within the limit |
| `RiskRuns.ExposureExactly` | src/risk_manager.cpp:450-455 | it is the true sum if and only if that is below 2^64 |
| `RiskRuns.ApprovalExactly` | src/risk_manager.cpp:281-294 | one approval adds the order's true value if and only if exposure plus price times quantity is below 2^64 |
| `RiskRuns.ExposureFits` | src/risk_manager.cpp:281-294 | over every run of orders priced within a bound, exposure is the true sum and within the limit, whenever limit plus bound times largest order size is below 2^64 |
| `RiskRuns.ExposureCanWrap` | src/risk_manager.cpp:450-455 | an order that wraps to nothing |
| `RiskRuns.DecideRouted` | src/risk_manager.cpp:289-316 | from books in which every active order is indexed under the engine that got it, a new order keeps that if and only if it does not take another client's active id while being rolled back or going to another engine than the one indexed |
| `RiskRuns.WithdrawnRouted` | src/risk_manager.cpp:328-358 | a cancel keeps it if and only if no other client has an active order of that id |
| `RiskRuns.RunRouted` | src/risk_manager.cpp:292-358 | every active order is routed to its own engine throughout a run if and only if no request of the run clashes in one of these ways |
| `RiskRuns.OwnIdsClashFree` | src/risk_manager.cpp:292-358 | a run in which no two clients use one id has no such clash |
| `RiskRuns.RunIndexed` | src/risk_manager.cpp:292-358 | without clashes the index holds exactly the active ids |
| `RiskRuns.CancelReachesEngine` | src/risk_manager.cpp:343-357 | over every run a client's cancel of an active order is accepted and the order forgotten; it arrives at the engine that got this client's order if and only if the index still names that engine and its queue has room |
| `RiskRuns.IndexCanBreak` | src/risk_manager.cpp:328-358 | a run with a shared id that loses an active order from the index |
| `RiskRuns.CancelCanGoAstray` | src/risk_manager.cpp:292-348 | a run with a shared id in which a client's cancel is sent to the engine of another client's order |
| `RiskRuns.RateBound` | src/risk_manager.cpp:263-266 | over every run with a monotone clock no second holds more than twice the maximum of a client's admitted orders |
| `RiskManagers.RiskManager.UpdateReferencePrice` | src/risk_manager.cpp:156-158 | the reference price of one symbol changes and nothing else |
| `RiskManagers.RiskManager.CheckRateLimit` | src/risk_manager.cpp:418-433 | admits and counts as the gate does |
| `RiskManagers.RiskManager.CheckPriceCollar` | src/risk_manager.cpp:382-406 | passes without a reference price, otherwise as the collar says of the truncated percentage |
| `RiskManagers.RiskManager.GetOrCreateClient` | src/risk_manager.cpp:468-478 | a new client starts empty with a window beginning now; a known one is untouched |
| `RiskManagers.RiskManager.PassesChecks` | src/risk_manager.cpp:242-287 | the checks in order decide as specified, with exactly the rate limit updated; `RiskApprovals.ApprovedExactly` says what passing means |
| `RiskManagers.RiskManager.Route` | src/risk_manager.cpp:289-316 | a failed hand-over leaves clients as they were and the id unindexed; a successful one records order, exposure and route |
| `RiskApprovals.ApprovedExactly` | src/risk_manager.cpp:235-320 | after any run a request is approved if and only if its symbol is configured and has an engine with room, its quantity is from 1 to the maximum, the client has no open order of that id, what the client spent plus price times quantity is within the limit as a 64-bit word, the price is within the collar of the last reference price if the collar is on, and the client's rate limit has room; all read off the requests of the run |
| `RiskApprovals.EverySubmitEarned` | src/risk_manager.cpp:289-316 | over every run each order handed to an engine comes from a request that met all of these when its turn came |
| `RiskApprovals.SubmitWithinBand` | src/risk_manager.cpp:275-278 | so none is outside the configured band while the collar is on and a reference price is known, for percentages from 0 to below 101 |
| `RiskApprovals.EarnedIsSubmitted` | src/risk_manager.cpp:289-319 | and a request that meets them is handed to the engine of its symbol and stays open |
| `RiskApprovals.GatesAre` | src/risk_manager.cpp:242-266 | a client's rate limit has counted exactly the orders with a configured symbol and a size within bounds, approved or not |
| `RiskManagers.RiskManager.ProcessNewOrder` | src/risk_manager.cpp:235-320 | the books, the statistics and the order's status end as specified for every verdict |
| `RiskManagers.RiskManager.ProcessCancel` | src/risk_manager.cpp:328-358 | the books and statistics end as specified, whether or not the engine's queue takes the cancel |
| `RiskManagers.TasksAsk` | src/risk_manager.cpp:201-211 | queued tasks act as one request each, in order: a new order with the slot's data for an entry, a cancel of its id by its client for a revocation |
| `RiskManagers.LastTask` | src/risk_manager.cpp:201-211 | after a final revocation its client has no active order of that id; a final entry, if approved, is active and sent to the engine of its symbol |
| `RiskManagers.RiskManager.DrainBatch` | src/risk_manager.cpp:197-216 | up to 128 requests take effect in order and each is counted once |
| `Framing.ChunkIndependent` | src/tcp_gateway.cpp:239-279 | however a stream is cut, the frames delivered are those of the one-shot parse up to the first malformed length |
| `Framing.ParseAppend` | src/tcp_gateway.cpp:265-279 | parsing more bytes goes on from the leftover |
| `Framing.ParseDead` | src/tcp_gateway.cpp:269-272 | a malformed length is final |
| `Framing.ParseKeepsBytes` | src/tcp_gateway.cpp:265-279 | frames and leftover put together are the stream |
| `Framing.ParseWellFormed` | src/tcp_gateway.cpp:266-278 | every frame delivered has the length its header announces, within bounds |
| `Framing.ParseRoundTrip` | src/tcp_gateway.cpp:265-279 | well-formed frames sent back to back are delivered exactly |
| `Framing.LengthRoundTrip` | include/rtes/protocol.hpp:12-17 | a length written as four bytes, least significant first, behind the type field is the length read |
| `Framing.MessageDelivered` | src/tcp_gateway.cpp:265-279 | a message is delivered whole if and only if it announces its own size, within bounds |
| `Framing.ScanExactly` | src/tcp_gateway.cpp:265-275 | bytes are refused exactly when their length field is below 28 or above 4096, else hold a message once that many are there |
| `Framing.RestIsShort` | src/tcp_gateway.cpp:274 | on a live stream less than 4096 bytes are left over |
| `Framing.ReadBuffer.Append` | include/rtes/tcp_gateway.hpp:105-110 | appends if and only if it fits |
| `Framing.ReadBuffer.Consume` | include/rtes/tcp_gateway.hpp:112-119 | drops the first bytes and moves the others to the front in place |
| `Framing.Connection.TryProcessMessage` | src/tcp_gateway.cpp:265-279 | delivers the first complete message, hangs up on a malformed length, otherwise waits |
| `Framing.Connection.ProcessMessages` | src/tcp_gateway.cpp:247-249 | delivers every complete message of the buffer and counts them |
| `Framing.Connection.Receive` | src/tcp_gateway.cpp:244-249 | delivery and pending bytes agree with the one-shot parse of everything received |
| `Framing.Connection.RoomToReceive` | src/tcp_gateway.cpp:244 | more than half the buffer is free before every receive |
| `Framing.Connection.HandleClientData` | src/tcp_gateway.cpp:239-259 | the receive loop takes everything waiting unless the peer sends a malformed length, keeps that agreement, and the connection lives on if and only if no length was malformed and the last receive neither found the stream closed nor failed |
| `Crc32.FeedLinear` | src/protocol.cpp:36-45 | the register is linear in its start and in the message |
| `Crc32.FeedInjective` | src/protocol.cpp:36-45 | the same message leads different registers to different registers |
| `Crc32.BurstDetected` | src/protocol.cpp:28-48 | two messages of equal length that differ within 32 consecutive bits have different checksums, at any length and bit offset |
| `Crc32.Burst33` | src/protocol.cpp:28-48 | a burst of 33 bits goes unnoticed if and only if it is the generator polynomial |
| `Crc32.Residue` | src/protocol.cpp:36-45 | a message followed by its own register leaves the register empty |
| `CheckValues.FixedResidue` | src/protocol.cpp:31-48 | every message followed by its checksum leaves the word 0xDEBB20E3 in a register started from all ones |
| `CheckValues.CheckValue` | src/protocol.cpp:31-48 | the checksum of the characters 1 to 9 is 0xCBF43926, the check value published for this code |
| `CheckValues.EmptyValue` | src/protocol.cpp:34-47 | the checksum of the empty message is 0 |
| `Crc32.Generator` | src/protocol.cpp:40 | the constant holds the generator of section 3.2.9 of IEEE Std 802.3, powers 32, 26, 23, 22, 16, 12, 11, 10, 8, 7, 5, 4, 2, 1 and 0, below its leading term and highest power in the lowest bit |
| `Crc32.FeedDivides` | src/protocol.cpp:36-45 | whatever the register holds, feeding it a message leaves the remainder of a division of polynomials, for any generator |
| `Polynomials.RemainderUnique` | src/protocol.cpp:36-45 | division by a polynomial of full degree leaves one remainder |
| `Crc32.ChecksumIsFcs` | src/protocol.cpp:31-48 | the checksum is the frame check sequence of section 3.2.9 of IEEE Std 802.3: the message times x^32 with its first 32 bits complemented, divided by the generator, the remainder complemented |
| `Crc32.EnterByte` | src/protocol.cpp:37-44 | the inner loop is eight division steps on the bits of the byte, least significant first |
| `Crc32.CalculateChecksum` | src/protocol.cpp:31-48 | the loops on machine words compute the checksum, and with it that frame check sequence |
| `Crc32.AcceptsExactly` | src/protocol.cpp:61-78 | accepted are exactly a length from 28 to 8192, a payload present, and in the checksum field the frame check sequence of the payload |
| `Crc32.ValidateChecksum` | src/protocol.cpp:61-78 | answers accordingly |
| `Crc32.SetChecksum` | src/protocol.cpp:88-98 | validation succeeds afterwards for every payload and length in range, and only then; otherwise the field is 0 |
| `Crc32.CorruptionRejected` | src/protocol.cpp:61-78 | an accepted payload is rejected after any burst of up to 32 bits |
| `Transactions.UndoRestores` | src/transaction.cpp:62-91 | undoing what was executed restores the world, whatever the rollbacks report, when each action's rollback takes its execution back and its failed execution changes nothing |
| `Transactions.FailedCommitRestores` | src/transaction.cpp:40-50 | every failed commit of every list drawn from a menu of actions restores the world, if and only if every action of the menu undoes itself in that sense |
| `Transactions.Transaction.AddAction` | src/transaction.cpp:22-30 | actions are added only while the transaction is active |
| `Transactions.PlayExactly` | src/transaction.cpp:40-52 | execution stops at the first action that fails and reports its error; every action before it succeeded |
| `Transactions.UndoReports` | src/transaction.cpp:68-85 | a rollback reports the failure of the earliest action that could not be rolled back, and success exactly if none failed |
| `Transactions.Transaction.Commit` | src/transaction.cpp:32-60 | executes all, or stops at the first failure, undoes what succeeded and reports that failure; an inactive transaction is refused |
| `Transactions.Transaction.Rollback` | src/transaction.cpp:62-91 | undoes in reverse order going on after failures, reports the last one met, and does nothing the second time |
| `Transactions.CommitThenRollback` | src/transaction.cpp:32-91 | commit and then rollback is the identity for actions that undo themselves, and for actions whose successful rollbacks do when both calls report success |
| `Transactions.RollbackTwice` | src/transaction.cpp:62-65 | rolling back twice is rolling back once |
| `Transactions.RunScope` | src/transaction.cpp:309-331 | an uncommitted scope leaves no effect, a committed one reports and leaves what its commit does, and a failed commit of actions that undo themselves leaves none |
| `Transactions.FailedRollbackShows` | src/transaction.cpp:40-50 | a rollback that fails inside commit leaves the world changed and is not reported |

## Left out

- The step machines (`Mpmc`, `MemoryPool`, `Spsc`, `Seqlock`) are values and functions, not classes with loops: one call of the code is many steps between which other threads run. Retry loops appear as returning to an earlier step.
- Weak memory order: steps are sequentially consistent. The snapshot fields read under the sequence lock are plain memory in the code.
- Wrap-around of the positions of the multi-producer queue and of the snapshot sequence at 2^64, which no run reaches in practice.
- MemoryPool.RunSafe: with everything that rests on it, assumes for pools of more than one slot that no allocating thread sleeps through 2^32 changes of the head between loading and swapping it, the width of the generation tag; `PoolWrap.SafeExactly` shows that this is needed. Pool statistics are claimed only with no call in flight.
- Order quantities, level totals and trade ids are unbounded numbers in the book model; `OrderBooks.OrderBook.TotalsFit` and `BookRuns.RunTotalsFit` are why totals cannot wrap.
- Exceptions and allocation failure: the catch blocks of the book and the errors they return.
- The branches of the sweeps that skip an already empty level: the invariant has none, and `OrderBooks.OrderBook.Prune` finds none.
- Trades are published after the add returns instead of by a callback during the sweep; no step of the engine reads the events in between.
- MatchingEngines.MatchingEngine.constructor: the market data queue is attached, or not, once and for all at construction. Attached later, a subscriber learns the best prices only with the next change.
- Counters of accepted and rejected orders and cancels in the matching engine, flushing of statistics, prefetching, back-off and latency tracking.
- Reading the clock, sockets, the kernel's choice of how many bytes a receive returns and whether a queue has room are parameters.
- RiskManagers.RiskManager.Route: an engine is its symbol, and whether its queue has room comes with the request. The notional limit is given as the scaled word the constructor computes from the configured amount.
- Matching of message types, decoding of order messages, authentication, HTTP, dashboards, configuration, logging and deployment.
- The token bucket of the network layer, deadlock and race heuristics, circuit breakers and histograms.
- The concrete transaction actions, which only log.
