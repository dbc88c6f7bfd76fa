# Verification of the storage and query core

This project models the core of the database engine in Dafny and proves what its parts promise to each
other. It has three connected parts.

**Buffer pool.** `BufferPoolManager.BufferPoolManagerInstance` and `LruKReplacer.LRUKReplacer` are classes
with the fields of the code, updated in place. Every method of the pool is proved equal to a function on a
pool value (`BufferPoolStates`), and keeps the joint invariant `Valid`: frames are either blank and on the
free list or hold the page the page table maps to them, and the replacer tracks exactly the resident frames,
evictable being those that nobody has pinned. The replacer is specified by a log of everything that happened
to it (`AccessLog`): the log alone determines the victim, and `EvictionPolicies` says exactly on which logs
that victim is the one the header describes. `BufferPoolLaws` says of every operation which pages enter and leave,
which frame is taken or freed, what becomes dirty and what is written. Theorems about whole runs (`BufferPoolRuns`)
say that the pool looks like a plain map from page ids to bytes, that pinned pages do not move, and that pin counts
balance. `BufferPoolHistory` states LRU-K without the replacer, by the times at which the pool handed out each page,
and proves that the page evicted is the one so determined. `BufferPoolReplay` serves the requests of clients with an
object of the class, so that all this holds of it: the requests alone determine the run.

**Query plans.** A plan has a set of allowed outcomes (`Plans.Allowed`), because sorting leaves ties open and
the order of groups is not prescribed. The executors are classes with `Init` and `Next` (`Executors`); each
is proved to hand out exactly what the plan allows. The optimizer is proved to narrow what a plan may produce,
exceptions included, without losing any of the rows it may yield (`OptimizerProofs`), to lose failures only by
dropping filters that never hold (`OptimizerExactness`), to leave nothing that any rule would rewrite
(`OptimizerNormalForm`), and to throw exactly on the plans that
`OptimizerFailures` describes; optimizer and executors meet in `ExecutionEngine.RunOptimized`. Planning of grouped queries (`AggregationPlans`,
`AggregationPlanner`, `AggregationMeaning`) is proved to preserve the meaning of HAVING and of the select list.
The meaning of a statement is defined on the bound expressions and the rows of the child, without the planner; what
operators mean is spelled out on values in `SqlOperators`, by the names they have in SQL.
A planned query yields exactly the results the statement asks for and fails exactly where it should
(`GroupedQueries`), the planner throws exactly for the statements that `StatementTyping` describes, its plan is
well-formed exactly if the statement is typed, and planner,
optimizer and executors together run it in `QueryExecution.RunGroupedQuery`.

**Arithmetic and timestamps.** Checked integer arithmetic of all sixteen width pairs with C++ promotions and
wrap-around, SQL aggregates on top of it, and packing and printing of timestamps.

## How to read the model

- `None` as a result of an operation stands for an exception, `Outcome.Throws` for a query that ends with
  one, `Outcome.Undefined` for behaviour the C++ code leaves undefined (a comparator that is not a strict weak
  order, hash table keys that do not equal themselves, a row shorter than its schema).
- NULL of an integer type is its smallest number, as in `include/type/limits.h`; a NULL that is read with
  `GetAs<bool>` is true or false according to its lowest byte.
- `std::sort` and `std::priority_queue` are used by contract: `ExecutorLoops.StdSort` may return any sorted
  arrangement and `ExecutorLoops.PopTop` any row that precedes none of the others.
- Each method of the pool is one step; the latch is what makes it one.
- The size of frame ids, page ids and row numbers is not bounded.

## Conditions the code imposes

- `k >= 2` for the replacer: with `k == 1` the first access erases a list node that does not exist.
- Callers of the pool fetch only ids that were given out, change only pages they have pinned, and pass the
  dirty flag on some unpin after a change, at the latest on the one that drops the last pin.
- `Optimizer.RulesApply` collects what the rewrite rules need of the rows: filters that end up in scans yield no
  NULL that reads as true on the table, filters that end up in joins on true or NULL agree with the merged join on
  every left row (`MergeAgrees`), a filter that is dropped as never true is above a plan that may yield rows, and a
  left join on an equality of columns is over rows for which every non-empty bucket probed holds an equal key. For
  each of these conditions it is proved that the rewrite is right on given rows exactly if it holds
  (`MergedScanIsFilterIff`, `FilterOverJoinIff`, `FalseFilterRefinesIff`, `LeftHashJoinIsNestedLoopIff`), and inputs
  that violate it are given in `Counterexamples` and `OptimizerFailures`.
- Every aggregate column is declared INTEGER, so a well-formed plan has INTEGER inputs for SUM, MIN and MAX;
  COUNT and COUNT(*) take any type (`Plans.AggregatesTyped`). The planner does not test this: the statements
  whose plans are well-formed are those of `PlanIsWellFormedIff`.
- Group keys without NULL, and no single GROUP BY column without any aggregate over an empty input: such queries
  have no defined result (`QueryFailsIff`).
- Executors are initialised once.

## Where the code differs from its own documentation

- `FlushPgImp` leaves the dirty flag set, though its header says it is unset. Nothing is lost by that.
- The replacer's header promises the order of the k-th previous accesses. The cache list keeps the order of
  the latest accesses (`HeaderOrderIsNotKept`). For frames with fewer than k accesses the comment on the class
  promises classical LRU and the comment on `Evict` the earliest access; the code does the latter
  (`ClassicalLruIsNotKept`). `PolicyKeptIff` says for either comment on exactly which logs it is kept.
- The optimizer throws on plans that run without it: an inner join `ON 1` under a filter (`JoinOnOneThrows`), or an
  unmerged filter that compares constants one of which does not fit INTEGER (`BigComparisonThrows`; the binder
  makes no such constant, src/binder/bind_select.cpp:446-464).
  `OptimizerThrowsIff` says exactly when. It also turns exceptions into empty results
  (`FalseFilterHidesException`).
- `SUM` restarts when a partial sum meets the number that encodes NULL (`SumIsSqlSumIff`, `SumStartsAgain`).
- `COUNT` of no rows is NULL, and several aggregates of no rows yield no row (`AggregationOfNothing`).
- The timestamp parser accepts zone offsets from 15 to 26 and below -12, which do not survive
  (`PrintParseIff`, `ZoneOverflows`): the last second of 2024 in zone +15 comes back as day 0 of month 13
  (`NewYearsEveOverflows`). Comparing packed timestamps compares the month before the year
  (`PackedOrder`).

## Model

| member | source | states |
|---|---|---|
| AccessLog.VictimIsUnique | src/buffer/lru_k_replacer.cpp:18-52 | The log of accesses leaves no choice of victim |
| AccessLog.EvictableIsTracked | src/buffer/lru_k_replacer.cpp:85-102 | Only frames with a history are ever evictable |
| EvictionPolicies.PolicyKeptIff | include/buffer/lru_k_replacer.h:28-34 | For each of the header's two comments: whichever frames are made evictable, the victim is the one described, exactly if no two frames the comment orders have nested windows of accesses |
| EvictionPolicies.HeaderOrderIsNotKept | include/buffer/lru_k_replacer.h:59-64 | A log on which the victim is not the frame with the largest backward k-distance |
| EvictionPolicies.ClassicalLruIsNotKept | include/buffer/lru_k_replacer.h:32-33 | A log with fewer than k accesses per frame on which the victim is the earliest used frame and not the least recently used one |
| LruKReplacer.LRUKReplacer.constructor | src/buffer/lru_k_replacer.cpp:16 | A replacer without history |
| LruKReplacer.LRUKReplacer.Evict | src/buffer/lru_k_replacer.cpp:18-52 | The victim is the one the log determines; none exactly if no frame is evictable; the victim's history is dropped |
| LruKReplacer.LRUKReplacer.RecordAccess | src/buffer/lru_k_replacer.cpp:54-83 | Throws exactly above the size; otherwise lists and counters follow the log with the access added |
| LruKReplacer.LRUKReplacer.SetEvictable | src/buffer/lru_k_replacer.cpp:85-102 | Flags and size follow the log with the request added; a frame without history is left alone |
| LruKReplacer.LRUKReplacer.Remove | src/buffer/lru_k_replacer.cpp:104-129 | Throws exactly for ids above the size and for tracked frames that are not evictable; otherwise drops the history |
| LruKReplacer.LRUKReplacer.Size | src/buffer/lru_k_replacer.cpp:131-134 | The number of frames that the log says are evictable |
| LruKReplacer.LRUKReplacer.CountAndMove | src/buffer/lru_k_replacer.cpp:61-82 | Counter and lists become what the specification of an access says, in all three cases |
| LruKReplacer.DroppedOk | src/buffer/lru_k_replacer.cpp:28-33 | Forgetting a frame keeps lists, counters, flags and size in step with the log |
| LruKReplacer.AccessedOk | src/buffer/lru_k_replacer.cpp:61-82 | So does an access |
| LruKReplacer.RequestedOk | src/buffer/lru_k_replacer.cpp:91-101 | So does a change of evictability, and the size never drops below zero |
| LruKReplacer.HistoryAccess | src/buffer/lru_k_replacer.cpp:63-82 | The history list stays ordered by first access |
| LruKReplacer.CacheAccess | src/buffer/lru_k_replacer.cpp:63-76 | The cache list stays ordered by latest access |
| LruKReplacer.YoungVictim | src/buffer/lru_k_replacer.cpp:25-36 | The last evictable frame of the history list is the victim |
| LruKReplacer.OldVictim | src/buffer/lru_k_replacer.cpp:38-49 | If there is none, the last evictable frame of the cache list is |
| BufferPoolProofs.UnpinnedIsCandidate | src/buffer/buffer_pool_manager_instance.cpp:42-63 | When the pool reaches for a victim there is one |
| BufferPoolProofs.EvictFrame | src/buffer/buffer_pool_manager_instance.cpp:62-73 | Evicting keeps the invariant on all other frames and blanks this one |
| BufferPoolProofs.EvictionKeepsContents | src/buffer/buffer_pool_manager_instance.cpp:62-73 | Eviction changes the logical contents of no page |
| BufferPoolProofs.NewKeepsOk | src/buffer/buffer_pool_manager_instance.cpp:39-85 | New keeps the joint invariant |
| BufferPoolProofs.FetchKeepsOk | src/buffer/buffer_pool_manager_instance.cpp:87-138 | Fetch keeps it |
| BufferPoolProofs.UnpinKeepsOk | src/buffer/buffer_pool_manager_instance.cpp:140-163 | Unpin keeps it if changes are declared before the last pin is dropped |
| BufferPoolProofs.FlushKeepsOk | src/buffer/buffer_pool_manager_instance.cpp:165-178 | Flush keeps it |
| BufferPoolProofs.FlushAllKeepsOk | src/buffer/buffer_pool_manager_instance.cpp:180-185 | Flushing everything keeps it |
| BufferPoolProofs.DeleteKeepsOk | src/buffer/buffer_pool_manager_instance.cpp:187-211 | Delete keeps it |
| BufferPoolProofs.StepKeepsOk | src/buffer/buffer_pool_manager_instance.cpp:39-211 | Every operation keeps the joint invariant |
| BufferPoolRuns.StepContents | src/buffer/buffer_pool_manager_instance.cpp:39-185 | Only a write of the page itself changes the logical contents of a page that is not deleted |
| BufferPoolRuns.NewPageHandsOutZeros | src/buffer/buffer_pool_manager_instance.cpp:39-85 | New hands out a fresh id on a zeroed frame pinned once, and changes nothing if every frame is pinned |
| BufferPoolRuns.FetchHandsOutContents | src/buffer/buffer_pool_manager_instance.cpp:87-138 | Fetch hands out the logical contents, and changes nothing if it fails |
| BufferPoolRuns.DeleteContents | src/buffer/buffer_pool_manager_instance.cpp:187-211 | Deleting an unpinned page leaves what is on disk, and touches no other page |
| BufferPoolRuns.DeleteLosesOnlyChanges | src/buffer/buffer_pool_manager_instance.cpp:201-207 | Deletion can lose contents only of an unpinned dirty page |
| BufferPoolRuns.StepPins | src/buffer/buffer_pool_manager_instance.cpp:78-163 | What each operation does to the pin count of each page |
| BufferPoolRuns.PinnedStaysInFrame | src/buffer/buffer_pool_manager_instance.cpp:87-163 | A pinned page is in the same frame after any operation |
| BufferPoolRuns.RunKeepsContents | src/buffer/buffer_pool_manager_instance.cpp:39-185 | After every run each page that was not deleted holds what was last written to it |
| BufferPoolRuns.PoolIsAPlainStore | include/storage/disk/disk_manager_memory.h:71-106 | From the start on the pool reads like a plain map of pages, zeros where nothing was written |
| BufferPoolRuns.RunBalancesPins | src/buffer/buffer_pool_manager_instance.cpp:78-163 | Over every run a pin count is the number of hand-outs minus the number of successful unpins |
| BufferPoolRuns.PinnedPageIsStable | src/buffer/buffer_pool_manager_instance.cpp:87-163 | Over every run that does not release it, a page stays in its frame and only its own writes change its bytes |
| BufferPoolRuns.StartedIsOk | src/buffer/buffer_pool_manager_instance.cpp:19-31 | A new pool over any disk satisfies the invariant |
| BufferPoolRuns.FlushAllSavesEverything | src/buffer/buffer_pool_manager_instance.cpp:180-185 | After flushing, disk and memory agree on every page, and a new pool over that disk shows the same pages |
| BufferPoolLaws.FrameTakenResidence | src/buffer/buffer_pool_manager_instance.cpp:54-79 | A new or fetched page enters the first free frame, or the victim's, whose page leaves; no other page enters, leaves or moves |
| BufferPoolLaws.DeletedResidence | src/buffer/buffer_pool_manager_instance.cpp:187-211 | A deleted page is gone, its frame blank and last on the free list; nothing else changes |
| BufferPoolLaws.ResidenceUnchanged | src/buffer/buffer_pool_manager_instance.cpp:87-185 | No other operation makes a page resident or lets one go |
| BufferPoolLaws.NextIds | src/buffer/buffer_pool_manager_instance.cpp:213 | Ids are given out one after the other, only by New and only when it succeeds |
| BufferPoolLaws.StepDirty | src/buffer/buffer_pool_manager_instance.cpp:140-178 | A page becomes dirty exactly by an unpin that says so and stays it until it leaves |
| BufferPoolLaws.StepDisk | src/buffer/buffer_pool_manager_instance.cpp:62-73 | The disk changes only by a dirty victim or by what is flushed, and gets the bytes in memory |
| BufferPoolHistory.LruKIsUnique | include/buffer/lru_k_replacer.h:21-34 | LRU-K by the times at which pages were handed out leaves no choice of page |
| BufferPoolHistory.VictimIsLruK | src/buffer/buffer_pool_manager_instance.cpp:60-62 | The frame the replacer picks holds the page that LRU-K picks by the pool's own hand-outs |
| BufferPoolHistory.HandedOutIff | src/buffer/buffer_pool_manager_instance.cpp:76-134 | The pin count that grows is that of the page handed out, and only one does |
| BufferPoolHistory.StepCorresponds | src/buffer/buffer_pool_manager_instance.cpp:81-134 | What an operation tells the replacer keeps its log in agreement with what the pool handed out |
| BufferPoolHistory.RunIsDetermined | src/buffer/buffer_pool_manager_instance.cpp:39-211 | Two runs on the same requests that follow LRU-K end alike |
| BufferPoolReplay.Serve | src/buffer/buffer_pool_manager_instance.cpp:39-211 | Any request a client may make, served by the object, is an enabled step of the state machine, told to the replacer as specified |
| BufferPoolReplay.Replay | src/buffer/buffer_pool_manager_instance.cpp:39-211 | Any requests that keep the promises, served in turn, leave the object where a run of the state machine ends, and every page evicted on the way is the one that LRU-K picks by the hand-outs so far |
| BufferPoolReplay.ReplayFromStart | src/buffer/buffer_pool_manager_instance.cpp:19-211 | A new object, after any such requests, holds for every page that was not deleted what was last written to it, zeros by default, and its run follows LRU-K |
| BufferPoolManager.BufferPoolManagerInstance.constructor | src/buffer/buffer_pool_manager_instance.cpp:19-31 | All frames free, nothing resident, replacer in step |
| BufferPoolManager.BufferPoolManagerInstance.HasFreePage | src/buffer/buffer_pool_manager_instance.cpp:42-48 | The scan finds out whether some frame is unpinned |
| BufferPoolManager.BufferPoolManagerInstance.TakeFrame | src/buffer/buffer_pool_manager_instance.cpp:56-74 | First free frame or the LRU-K victim, written back if dirty; the ignored result of Evict is never false |
| BufferPoolManager.BufferPoolManagerInstance.NewPgImp | src/buffer/buffer_pool_manager_instance.cpp:39-85 | The state becomes that of the specification with the victim the access log determines |
| BufferPoolManager.BufferPoolManagerInstance.FetchPgImp | src/buffer/buffer_pool_manager_instance.cpp:87-138 | Likewise for Fetch, resident or not; every hand-out is recorded as an access |
| BufferPoolManager.BufferPoolManagerInstance.UnpinPgImp | src/buffer/buffer_pool_manager_instance.cpp:140-163 | Likewise for Unpin; true exactly if the page was pinned |
| BufferPoolManager.BufferPoolManagerInstance.FlushPgImp | src/buffer/buffer_pool_manager_instance.cpp:165-178 | Likewise for Flush; true exactly if the page is resident |
| BufferPoolManager.BufferPoolManagerInstance.FlushAllPgsImp | src/buffer/buffer_pool_manager_instance.cpp:180-185 | The loop over the frames writes every resident page and nothing else |
| BufferPoolManager.BufferPoolManagerInstance.DeletePgImp | src/buffer/buffer_pool_manager_instance.cpp:187-211 | Likewise for Delete; Remove never throws here; false exactly if the page is pinned |
| CheckedArithmetic.AddIsExact | include/type/integer_parent_type.h:77-98 | For all width pairs: throws exactly if the sum does not fit the wider type, else returns it |
| CheckedArithmetic.SubtractIsExact | include/type/integer_parent_type.h:100-120 | The same for differences |
| CheckedArithmetic.MultiplyIsExact | include/type/integer_parent_type.h:122-142 | The same for products |
| CheckedArithmetic.DivisionTestIsExact | include/type/integer_parent_type.h:131-141 | The wrapped product divided by an operand gives the other operand exactly if nothing overflowed |
| CheckedArithmetic.DivideAndModuloAreExact | include/type/integer_parent_type.h:144-172 | Quotient and remainder truncate toward zero and always fit the wider type; only division by zero fails |
| Expressions.EvaluateJoinIsSound | include/execution/expressions/logic_expression.h:46-57 | A typed expression evaluates on typed rows, without an exception, to a value of its type |
| Expressions.RewriteSucceedsIff | src/optimizer/merge_filter_nlj.cpp:18-37 | The rewrite throws exactly for columns out of range or of another tuple |
| Expressions.RewritePreservesValue | src/optimizer/merge_filter_nlj.cpp:18-37 | The rewritten expression on two rows is the original on their concatenation, NULL and failures included |
| Expressions.RewritePreservesTypes | src/optimizer/merge_filter_nlj.cpp:18-37 | The rewritten expression is typed over the two children |
| SqlOperators.ComparisonMeans | include/execution/expressions/comparison_expression.h:61-78 | The six comparisons are those of the numbers, unknown for NULL; mixed kinds throw |
| SqlOperators.LogicMeans | include/execution/expressions/logic_expression.h:80-100 | AND and OR are those of three-valued logic |
| SqlOperators.ArithmeticMeans | include/execution/expressions/arithmetic_expression.h:68-82 | Sums and differences are taken modulo 2^32, and NULL if an operand is |
| SqlOperators.BinaryMeans | include/execution/expressions/logic_expression.h:46-57 | An expression is its operator on the values of its operands, in their order, over one row as over two |
| SqlOperators.FilterOnAnd | include/execution/expressions/logic_expression.h:83-90 | A filter on p AND q is a filter on p above one on q |
| SqlOperators.FilterOnOr | include/execution/expressions/logic_expression.h:91-98 | A filter on p OR q keeps what either filter keeps, each row once |
| Types.HalfIsPower | include/type/limits.h:24-36 | The numbers of each type are those of its size in two's complement |
| Types.GetAsBoolVersusIsTrue | include/type/value.h:91-130 | Which values read as true though they are not true |
| Ordering.LessIsLexicographic | src/execution/sort_executor.cpp:17-45 | The mixed ASC and DESC comparator compares signed keys lexicographically |
| Ordering.LessIsStrictWeakOrder | src/execution/topn_executor.cpp:12-38 | Without NULL keys the comparator is a strict weak order |
| Ordering.ReflexiveIffNullKey | src/execution/topn_executor.cpp:18-24 | A row precedes itself exactly if one of its keys is NULL |
| Ordering.SmallestRowsAreTopN | src/execution/topn_executor.cpp:42-54 | Sorted rows that no dropped row precedes are a prefix of some sort of all rows |
| RowOperators.MergedScanIsFilterIff | src/execution/seq_scan_executor.cpp:25-37 | A scan with a merged predicate equals the filter exactly if no row yields a NULL that reads as true |
| Counterexamples.NullComparisonPassesScan | src/execution/seq_scan_executor.cpp:25-37 | A row whose x is NULL passes x = 1 in the merged scan and not in the filter |
| RowOperators.EqualValuesHashAlike | include/common/util/hash_util.h:62-83 | Values that compare equal have equal hashes, across widths, for any hash of the bytes |
| RowOperators.KeyBytesAgreeIff | include/common/util/hash_util.h:62-83 | What is hashed agrees exactly for values that compare equal, NULLs aside |
| RowOperators.NestedLoopMembers | src/execution/nested_loop_join_executor.cpp:42-80 | The rows of a join are the matching pairs and, for a left join, each left row without a match, padded |
| RowOperators.EquiJoin.ProbeFindsMatches | src/execution/hash_join_executor.cpp:44-62 | Probing a bucket finds the matches of the nested loop in order, whatever else collides |
| RowOperators.EquiJoin.InnerHashJoinIsNestedLoop | src/execution/hash_join_executor.cpp:33-79 | The inner hash join outputs the same rows in the same order, in both operand orders |
| RowOperators.EquiJoin.LeftHashJoinIsNestedLoopIff | src/execution/hash_join_executor.cpp:46-75 | The left hash join does so exactly if every non-empty bucket probed holds an equal key |
| Counterexamples.NullKeysDropLeftRow | src/execution/hash_join_executor.cpp:46-75 | With NULL keys on both sides the left hash join drops the row that the loop pads, whatever the hash function |
| RowOperators.FilterOverJoinIff | src/optimizer/merge_filter_nlj.cpp:46-75 | A filter over an inner or left join on the constant true or NULL is the join on the rewritten predicate exactly if every left row meets a stated condition, none for inner joins on true; otherwise it keeps no more rows |
| Counterexamples.UnmatchedRowIsPadded | src/optimizer/merge_filter_nlj.cpp:63-71 | A left row without a partner that passes: dropped by the filter, padded by the merged join |
| Aggregates.CountStarCountsRows | include/execution/executors/aggregation_executor.h:75-77 | COUNT(*) is the number of rows, and throws exactly if that is 2^31 or more |
| Aggregates.CountCountsNonNulls | include/execution/executors/aggregation_executor.h:78-85 | COUNT is the number of values that are not NULL, throws exactly if that is 2^31 or more, and is NULL for no rows |
| Aggregates.SumIsSqlSumIff | include/execution/executors/aggregation_executor.h:86-92 | SUM is the SQL sum exactly if no partial sum overflows or meets the number that encodes NULL |
| Counterexamples.SumStartsAgain | include/execution/executors/aggregation_executor.h:86-92 | Three inputs whose partial sum meets the number that encodes NULL: the sum is the last input |
| Aggregates.MinAndMaxAreExtreme | include/execution/executors/aggregation_executor.h:93-106 | MIN and MAX are the smallest and largest value that is not NULL |
| Aggregates.FoldIgnoresOrder | include/execution/executors/aggregation_executor.h:72-109 | All five aggregates ignore the order of their inputs while sums fit, exceptions included; only SUM, MIN and MAX ask for integers |
| AggregationTable.KeyEqualsIffSame | include/execution/plans/aggregation_plan.h:104-111 | Keys are equal exactly if they are the same and hold no NULL |
| AggregationTable.TableHasAllKeys | include/execution/executors/aggregation_executor.h:116-121 | One entry per distinct key |
| AggregationTable.TableHoldsGroupFold | include/execution/executors/aggregation_executor.h:72-121 | Every entry holds the aggregates over exactly the rows of its group |
| AggregationTable.GroupSizesAddUp | src/execution/aggregation_executor.cpp:26-37 | The sizes of the groups add up to the number of rows |
| AggregationTable.CountStarIsGroupSize | include/execution/executors/aggregation_executor.h:75-77 | COUNT(*) of an entry is the size of its group |
| AggregationTable.CountsAddUp | src/execution/aggregation_executor.cpp:26-37 | The COUNT(*) values of all entries of the table add up to the number of rows inserted |
| AggregationTable.TableIgnoresOrder | src/execution/aggregation_executor.cpp:26-37 | Permuting the rows leaves the table, or the exception, as it is while sums fit, whatever types COUNT counts |
| AggregationHashTable.SimpleAggregationHashTable.GenerateInitialAggregateValue | include/execution/executors/aggregation_executor.h:45-63 | Zero for COUNT(*), NULL for the others |
| AggregationHashTable.SimpleAggregationHashTable.CombineAggregateValues | include/execution/executors/aggregation_executor.h:72-109 | Overwriting one aggregate after the other computes the combination of all, or throws where it does |
| AggregationHashTable.SimpleAggregationHashTable.InsertCombine | include/execution/executors/aggregation_executor.h:116-121 | Only the entry of the key changes, starting from the initial values |
| AggregationHashTable.SimpleAggregationHashTable.InsertIntialCombine | include/execution/executors/aggregation_executor.h:123 | The entry for no rows |
| AggregationHashTable.SimpleAggregationHashTable.Begin | include/execution/executors/aggregation_executor.h:159-163 | An iterator visits every entry once, in no prescribed order |
| PlanTyping.OutcomesAreTyped | src/execution/plan_node.cpp:25-80 | Every row a well-formed plan may produce has the types of its schema |
| Executors.Executor.Init | include/execution/execution_engine.h:57-59 | Initialising any executor leaves it ready to hand out rows its plan allows, typed; or throws where the plan allows it |
| Executors.Executor.Next | include/execution/execution_engine.h:83-89 | Each call hands out the next of these rows, or nothing once there are none |
| Executors.Drain | include/execution/execution_engine.h:81-90 | Polling until exhausted yields exactly these rows, and terminates |
| Executors.SeqScanExecutor.Init | src/execution/seq_scan_executor.cpp:21-23 | The rows of the table that pass the merged predicate are to come |
| Executors.SeqScanExecutor.Next | src/execution/seq_scan_executor.cpp:25-37 | Skips to the next row that passes |
| Executors.FilterExecutor.Init | src/execution/filter_executor.cpp:13-16 | The child's rows that pass are to come |
| Executors.FilterExecutor.Next | src/execution/filter_executor.cpp:18-34 | Pulls from the child until a row passes |
| Executors.ValuesExecutor.Next | src/execution/values_executor.cpp:10-27 | The next row of constants |
| Executors.ProjectionExecutor.Next | src/execution/projection_executor.cpp:15-35 | The expressions on the child's next row |
| Executors.LimitExecutor.Next | src/execution/limit_executor.cpp:25-36 | The child's first rows, up to the limit |
| Executors.SortExecutor.Init | src/execution/sort_executor.cpp:9-48 | Some sort of the child's rows is to come |
| Executors.SortExecutor.Next | src/execution/sort_executor.cpp:50-60 | The next row of that sort |
| Executors.TopNExecutor.Init | src/execution/topn_executor.cpp:9-55 | The first rows of some sort of the child's rows are to come |
| Executors.TopNExecutor.FetchTop | src/execution/topn_executor.cpp:40-54 | The capped heap, reversed through the stack, is such a prefix |
| Executors.TopNExecutor.Next | src/execution/topn_executor.cpp:57-66 | Pops the next of them |
| Executors.FillHeap | src/execution/topn_executor.cpp:42-49 | The heap holds at most N rows, and no row dropped precedes one of them |
| Executors.NestedLoopJoinExecutor.Init | src/execution/nested_loop_join_executor.cpp:32-40 | The rows of the join are to come |
| Executors.NestedLoopJoinExecutor.Next | src/execution/nested_loop_join_executor.cpp:42-73 | The cursor over both sides hands them out left-major, padding left rows without a match; it terminates |
| ExecutorLoops.Matched | src/execution/nested_loop_join_executor.cpp:75-80 | A pair matches if the predicate is neither NULL nor false |
| ExecutorLoops.MatchFrom | src/execution/nested_loop_join_executor.cpp:46-70 | What the cursor finds for one left row, and where it stands then, leaves the rest still to come |
| Executors.HashJoinExecutor.Init | src/execution/hash_join_executor.cpp:33-79 | The rows of the hash join are to come |
| Executors.HashJoinExecutor.Next | src/execution/hash_join_executor.cpp:81-88 | The next of them |
| Executors.BuildTable | src/execution/hash_join_executor.cpp:39-42 | Each bucket holds the right rows of its hash in arrival order |
| ExecutorLoops.ProbeOne | src/execution/hash_join_executor.cpp:45-75 | One left row's contribution, padded only if its bucket does not exist |
| ExecutorLoops.PopTop | src/execution/topn_executor.cpp:46-53 | Any row that precedes none of the others leaves the heap |
| Executors.AggregationExecutor.Init | src/execution/aggregation_executor.cpp:26-37 | The groups are to come, or the exception of a sum that does not fit |
| Executors.AggregationExecutor.InsertRows | src/execution/aggregation_executor.cpp:30-32 | The table becomes the fold over all rows; throws exactly if some insertion does |
| Executors.AggregationExecutor.Next | src/execution/aggregation_executor.cpp:39-51 | Key and aggregates of the next group |
| ExecutionEngine.CreateExecutor | src/execution/executor_factory.cpp:48-175 | A tree of new executors in the shape of the plan |
| ExecutionEngine.Execute | include/execution/execution_engine.h:48-69 | The rows, or the exception, are an outcome the plan allows |
| ExecutionEngine.RunOptimized | src/optimizer/optimizer_custom_rules.cpp:357-373 | Optimizing and executing ends as the original plan may end: rows with its types, or its exception; the plan executed may yield all rows the original may; the optimizer adds an exception of its own exactly for the plans described |
| OptimizerProofs.MergeProjectionRefines | src/optimizer/merge_projection.cpp:12-55 | Removing an identity projection neither adds nor removes an outcome, whatever the columns are called |
| OptimizerProofs.MergeFilterScanRefines | src/optimizer/merge_filter_scan.cpp:15-37 | Nor does merging a filter into a scan |
| OptimizerProofs.MergeFilterNLJRefines | src/optimizer/merge_filter_nlj.cpp:46-75 | Nor does merging a filter into an inner or left join on a constant that reads as true, NULL included; that rewrite never throws on a well-formed plan |
| OptimizerProofs.FalseFilterRefines | src/optimizer/optimizer_custom_rules.cpp:190-225 | Replacing a filter that is never true, over a plan that may yield rows, keeps the rows and adds no failure |
| OptimizerProofs.FalseFilterRefinesIff | src/optimizer/optimizer_custom_rules.cpp:208-225 | It does so exactly if the plan below may yield rows at all |
| OptimizerProofs.NLJAsHashJoinRefines | src/optimizer/nlj_as_hash_join.cpp:20-63 | Hashing an inner join on an equality of columns, or a left one whose probed buckets hold equal keys, changes no outcome |
| OptimizerProofs.SortLimitAsTopNRefines | src/optimizer/sort_limit_as_topn.cpp:8-31 | Nor does computing a limit over a sort with the top-N operator |
| OptimizerProofs.RuleIsSound | src/optimizer/optimizer_custom_rules.cpp:357-373 | Unless it throws, each rule, applied bottom up to a whole plan, keeps the rows it may yield, adds no failure and, but for FalseFilter, loses none, and keeps types and conditions of every node |
| OptimizerProofs.RuleLeavesNoMatch | src/optimizer/optimizer_custom_rules.cpp:208-225 | One bottom-up pass of any rule leaves no node the rule would rewrite |
| OptimizerProofs.OptimizerIsSound | src/optimizer/optimizer_custom_rules.cpp:357-373 | The same of all rules in their order: the optimized plan may yield exactly the rows of the original and fails only as the original may |
| OptimizerExactness.OptimizerIsExact | src/optimizer/optimizer_custom_rules.cpp:357-373 | If no filter compares two different constants, the optimized plan ends in exactly the ways of the original, failures included |
| OptimizerNormalForm.OptimizedIsNormal | src/optimizer/optimizer_custom_rules.cpp:357-373 | In an optimized plan no rule finds anything: no identity projection, filter over a bare scan or a join on true, filter that never holds, nested loop join on a column equality, or limit over a sort |
| OptimizerNormalForm.NothingComesBack | src/optimizer/optimizer_custom_rules.cpp:357-373 | What a rule has removed is not brought back by a later rule |
| OptimizerNormalForm.IdentityIsMerged | src/optimizer/merge_projection.cpp:12-55 | The projection of all columns in order is recognised under whatever names |
| OptimizerNormalForm.EquiJoinIsHashed | src/optimizer/nlj_as_hash_join.cpp:20-63 | An equality of a left and a right column is hashed on these columns, whichever side it is written on |
| OptimizerNormalForm.TrueTestIff | src/optimizer/merge_filter_nlj.cpp:39-44 | The test holds of exactly the constants true and NULL and throws for exactly those of integer types |
| OptimizerNormalForm.FalseTestIff | src/optimizer/optimizer_custom_rules.cpp:190-206 | The test throws exactly for constants that do not fit INTEGER, and holds exactly if the equality passes no row, both being NULL aside |
| OptimizerFailures.OptimizerThrowsIff | src/optimizer/optimizer_custom_rules.cpp:190-225 | Optimizing throws exactly for plans with a filter above a join on a constant that is no boolean, a filter merged into a join that lacks its columns, or an unmerged filter that compares constants one of which cannot be cast to INTEGER |
| OptimizerFailures.JoinOnOneThrows | src/optimizer/merge_filter_nlj.cpp:39-61 | A plan with an inner join ON 1 that is well-formed and never fails by itself, but throws in the optimizer |
| OptimizerFailures.BigComparisonThrows | src/optimizer/optimizer_custom_rules.cpp:190-206 | So does comparing 5000000000 with 1 above anything but a table scan or a nested loop join |
| OptimizerFailures.FalseFilterHidesException | src/optimizer/optimizer_custom_rules.cpp:208-225 | A plan whose only outcome is the exception of a sum, rewritten to one whose only outcome is no rows |
| EdgeCases.RootSchemaKept | src/optimizer/merge_projection.cpp:36-50 | Every rule but one keeps the root's schema with its names |
| EdgeCases.FalseFilterSchema | src/optimizer/optimizer_custom_rules.cpp:216-223 | Unless it throws, that one hands out the schema below the removed filters |
| EdgeCases.AggregationOfNothing | src/execution/aggregation_executor.cpp:33-36 | Exactly what aggregating no rows yields |
| AggregationPlans.NamedOnce | src/planner/plan_expression.cpp:42-53 | The first column of a name, where there is one |
| AggregationPlans.LookupIff | src/planner/plan_expression.cpp:42-53 | A name is found exactly if it is that of one column and of no other, and then as that column |
| AggregationPlans.ReplacementIsInvisible | src/planner/plan_expression.cpp:101-109 | Planning an expression with pseudo calls is planning the original |
| AggregationPlans.PlanningConsumesCalls | src/planner/plan_expression.cpp:136-141 | Planning consumes one entry per call, in the order of collection |
| AggregationPlans.NamedOperatorMeans | src/planner/expression_factory.cpp:38-75 | The planner takes each name for the operator it names in SQL, and refuses all others |
| AggregationPlans.PlannedMeansOriginal | src/planner/plan_expression.cpp:133-163 | A planned expression is the original with each call replaced by the value of its entry and each operator by what its name means on values |
| AggregationPlans.NothingCollected | src/planner/plan_aggregation.cpp:31-40 | Where no aggregate is allowed, a list that is planned contains no call and consumes nothing |
| AggregationMeaning.PlanningConsumesAllCalls | src/planner/plan_aggregation.cpp:141-156 | HAVING and the select list together consume every entry once |
| AggregationMeaning.PlannedKeyMeans | src/planner/plan_aggregation.cpp:86-90 | The group key of a row consists of the meanings of the bound group-by expressions on it |
| AggregationMeaning.PlannedCallMeans | src/planner/plan_aggregation.cpp:25-43 | A planned call is the aggregate its name stands for, not DISTINCT, over the meaning of its bound argument, or over 1 if it has none |
| AggregationMeaning.GroupColumnMeans | src/planner/plan_aggregation.cpp:107-123 | What a planned call aggregates for a group are the values of its bound argument on the rows of the group |
| AggregationMeaning.ColumnHoldsFold | src/planner/plan_aggregation.cpp:124-130 | Each aggregate column of a group's row holds that aggregate over the group |
| AggregationMeaning.Query.GroupsAreKeys | src/execution/aggregation_executor.cpp:26-37 | There is a group for exactly the keys of the rows; over no rows there is none, or one for a single call without GROUP BY |
| AggregationMeaning.Query.CallsAreConsumedOnce | src/planner/plan_aggregation.cpp:92-130 | Every collected call is planned once and consumed once |
| AggregationMeaning.Query.PhasesPreserveMeaning | src/planner/plan_aggregation.cpp:78-161 | Each planned expression, on a group's row, is the original for that group |
| AggregationMeaning.Query.ColumnIsGroupKey | src/planner/plan_aggregation.cpp:86-90 | A column that resolves to a group-by expression means what this expression means on every row of the group |
| AggregationMeaning.Query.PlanComputesResult | src/planner/plan_aggregation.cpp:134-161 | Filter and projection turn the groups into the rows the statement asks for |
| GroupedQueries.TypedQueryAggregates | src/planner/plan_aggregation.cpp:102-137 | On typed rows only an exception of a sum keeps a planned query from being aggregated |
| GroupedQueries.QueryYieldsResult | src/planner/plan_aggregation.cpp:48-162 | Whatever rows a planned query yields are the result the statement asks for, on some rows its child may yield and for some order of the groups |
| GroupedQueries.ResultIsYielded | src/planner/plan_aggregation.cpp:48-162 | Conversely, every such result may be yielded |
| GroupedQueries.AggregatingThrowsIff | include/execution/executors/aggregation_executor.h:72-121 | Filling the table throws exactly if some call of the statement has no value for the group of some row |
| GroupedQueries.QueryFailsIff | src/planner/plan_aggregation.cpp:48-162 | A planned query throws or is undefined exactly as its child may be, or because of a call without a value, a NULL key, or a lone key over no rows |
| StatementTyping.PlannedHasType | src/planner/plan_expression.cpp:133-163 | A planned expression is typed exactly if the bound one has a type, and then has this type |
| StatementTyping.PlanIsWellFormedIff | src/planner/plan_aggregation.cpp:48-162 | The plan is well-formed exactly if the child is, group-by expressions and calls are typed over its columns, and HAVING and the select list over those of the aggregation |
| StatementTyping.PlannedIff | src/planner/plan_expression.cpp:133-163 | An expression is planned exactly if its columns are found, its operators known and its logic and arithmetic applied to operands they take, with an entry for each call |
| StatementTyping.SeenIsSupported | src/planner/plan_expression.cpp:99-131 | Collecting calls refuses no expression for which the planner sees a type |
| StatementTyping.CallPlannedIff | src/planner/plan_aggregation.cpp:25-43 | A call is planned exactly if it is not DISTINCT, names an aggregate of as many arguments, and nests no call |
| StatementTyping.PlanSelectAggIff | src/planner/plan_aggregation.cpp:48-162 | Exactly which statements are planned |
| StatementTyping.ResultColumns | src/planner/plan_expression.cpp:154-158 | The columns of the result have the names and types of the select list, aliases included |
| StatementTyping.GroupedColumns | src/planner/plan_aggregation.cpp:86-132 | HAVING and the select list see the group-by expressions under their names and one INTEGER column for each call |
| StatementTyping.DecimalsDiffer | src/planner/plan_aggregation.cpp:126 | No two calls share a column name |
| QueryExecution.RunGroupedQuery | src/planner/plan_aggregation.cpp:48-162 | Planned, optimized and executed, a grouped query yields the result the statement asks for, or ends in an exception for one of the stated reasons |
| AggregationPlanner.Planner.AddAggCallToContext | src/planner/plan_expression.cpp:99-131 | Collects the calls left to right through aliases and leaves pseudo calls; throws exactly for unsupported kinds |
| AggregationPlanner.Planner.PlanColumnRef | src/planner/plan_expression.cpp:36-54 | The column of that name; throws for none and for duplicates |
| AggregationPlanner.Planner.PlanExpression | src/planner/plan_expression.cpp:133-163 | Plans as the specification says, stepping the counter of the context |
| AggregationPlanner.Planner.PlanAggCall | src/planner/plan_aggregation.cpp:25-43 | Plans arguments in a context without aggregates and restores the context; throws for DISTINCT, nested calls and unknown functions |
| AggregationPlanner.Planner.PlanSelectAgg | src/planner/plan_aggregation.cpp:48-162 | The context-driven planner computes the two-phase plan and restores the context |
| Timestamps.PackFits | include/type/limits.h:39 | Packed fields with a zone from -12 to 14 stay within the documented maximum |
| Timestamps.MaximumIsReached | include/type/limits.h:39 | The maximum is the last microsecond of the year 9999 in the last zone |
| Timestamps.UnpackPack | src/type/timestamp_type.cpp:98-115 | Unpacking recovers every field |
| Timestamps.PrintParseIff | src/type/timestamp_type.cpp:94-132 | Printing a parsed text gives it back exactly if the zone lies between -12 and 14 and is not minus zero |
| Timestamps.ZoneOverflows | include/type/value_factory.h:449-458 | A larger zone carries into the day, and on the 31st into the month, which comes back with day 0 |
| Timestamps.ParsePrint | include/type/value_factory.h:401-465 | The printed text of any fields is parsed exactly if they are a date in a zone up to 26, and packed as that date |
| Timestamps.ParsedTexts | include/type/value_factory.h:401-465 | Nothing is parsed but such texts, with or without six digits of fraction, and with either sign for a zone of zero |
| Timestamps.ParseShort | include/type/value_factory.h:403-405 | The text without a fraction is parsed in the same cases, as microsecond 0 |
| Timestamps.LeapDaysCount | include/type/value_factory.h:442 | Leap years are those of the Gregorian rule, counted as year/4 - year/100 + year/400 |
| Timestamps.DateOkIff | include/type/value_factory.h:436-448 | The dates accepted are those of the Gregorian calendar, with the lengths of months and leap years from formulas, at every time of the day |
| Timestamps.NewYearsEveOverflows | include/type/value_factory.h:449-458 | The text of a date that is parsed and comes back as day 0 of month 13 |
| Timestamps.PackedOrder | include/type/value_factory.h:453-463 | Packed timestamps compare month, day, zone, year, second, microsecond in this order |
| Timestamps.PackedOrderIsNotChronological | include/type/value_factory.h:453-463 | Two dates that packed compare against their order in time |
| Timestamps.CastAsTimestamp | include/type/value_factory.h:401-465 | The tests and the packing in steps compute the specified parse, wrap-around included |
| Timestamps.HasFormat | include/type/value_factory.h:406-422 | Accepts exactly the texts of the format |
| Timestamps.ToString | src/type/timestamp_type.cpp:94-132 | Taking the digits off in steps prints the unpacked fields |

## Left out

- Types other than BOOLEAN and the integers in plans: DECIMAL is floating point, VARCHAR needs LIKE and out-of-row storage, and timestamps are modelled as texts and numbers of their own.
- Rules and executors that use indexes, and the rules for removing joins and columns, pushing predicates down and reordering joins: they rest on code that is not part of this model or fit particular queries only.
- Threads, latches, the log and recovery; the page table is a map and a table is a sequence of rows, so the extendible hash table, the table heap and the page layouts are not part of this model.
- Parsing and binding of statements, and planning of joins, subqueries and statements that change tables.
- Memory management of values and tuples, and the iterators of `std::list`: the replacer's maps from frames to list nodes are modelled as the sets of their keys.
- Insert, update and delete executors.
- BufferPoolRuns.RunKeepsContents: says nothing about a page after its deletion, because deletion leaves whatever is on disk and ids are not given out again.
- AggregationTable.KeyEqualsIffSame: group keys with a NULL do not equal themselves and break the hash table's contract; plans that meet one have the outcome Undefined.
- QueryExecution.RunGroupedQuery: the child is any plan, since planning of tables and joins is not part of this model.
- AggregationPlans.PlannedMeansOriginal: LIKE counts as an unsupported operator.
- Ordering.ReflexiveIffNullKey: sorting rows with a NULL key is Undefined in the model even where a single row makes the order irrelevant.
