# Job graphs, transfers and stock of an Odoo e-commerce integration, verified

This project models the decision-making code of a set of Odoo add-ons in Dafny and proves
what that code guarantees, for all inputs, all runs and all reachable states.

* **Job graphs** (`queue_job`). Delayables, chains and groups are flattened into one
  directed graph, sorted, and stored as jobs that wake each other. `Graphs.dfy` holds the
  graph class, Kahn's sort and the path generator. `Delayables.dfy` is the flattening
  worklist, and `Ordering.dfy` and `Nesting.dfy` say when the flattened graph means what the
  documentation promises. `Jobs.dfy`, `JobSafety.dfy`, `JobRuns.dfy` and `JobStore.dfy` are
  the job table as a state machine: workers, crashes at any moment, manual buttons and wake-ups
  interleave freely. `Delay.dfy` joins the two halves, and `Witnesses.dfy` holds concrete failures.
* **Transfers** (`integration`). `Transfers.dfy` gives the squash loop a closed form and
  derives conservation and exclusivity from it; `TransferSerializers.dfy` has the objects
  that are changed in place and proves them against it.
* **Stock of assembled products** (`integration`). `BillOfMaterials.dfy`: the guarded
  recursion over bills of materials that may be cyclic, and the closure over parents.
* **Small algorithms.** `JsonExtraction.dfy`, `RetryWrapper.dfy`, `Pricelists.dfy`,
  `Rounding.dfy` (`integration`) and `DangerousGoods.dfy` (Geodis shipping).

Objects that Python identifies by reference, and records that Odoo identifies by id, are
numbers here. Loops over sets and dictionaries pick their next element arbitrarily, so
every result holds for every iteration order. `View()` functions connect a class with the
value its specification talks about.

## Where the code and its documentation differ

* `DelayableChain._head()` asks its first element for its *tail*, and `_tail()` its last
  element for its *head*, and an object without leaves, such as the empty group `split()`
  gives for an empty recordset, cuts the chain it is in. `Ordering.KeepsOrder` is the
  condition under which no documented order is lost: leaves adjoin only where elements of a
  chain do, and the tails and heads that get linked hold all leaves that come last or first.
  `Ordering.FlatteningIsExact` proves the promise under it for all forests, with shared
  objects and `on_done()` cycles too; `Nesting.ExactForTrees` proves that it is necessary
  wherever no object is used twice. Without empty groups the nesting alone decides
  (`Ordering.LinksExposed`, `Nesting.ExactByNesting`). `Witnesses.NestedChainEscapes` and
  `Witnesses.EmptyGroupCutsChain` are instances.
* What only the `on_done()` of an empty group received is dropped
  (`Nesting.EmptyGroupForgets`).
* Cancelling is documented to reach all dependent jobs. It reaches direct children only
  (`JobSafety.CancelReachesChildrenOnly`, `Witnesses.CancelStopsAtChildren`);
  `JobSafety.CancelReachesAllExactly` says when that is enough.
* A finished parent is documented to release its children. With every transaction taken as
  one step, there are exactly three ways in which a child is forgotten
  (`JobSafety.StepStrandsExactly`), and then it waits for ever unless somebody steps in
  (`JobRuns.LostForEver`). The controller stores DONE and wakes the children later, so that
  giving up after failed tries, or being killed in between, loses them. A worker that is
  retried decides with the parents it loaded when it started. And `action_run_now()` looks
  for children before it stores DONE.
* If all delayables with an identity key have an existing job, `delay()` is meant to hand
  out all of these. The loop returns after the first, and delayables without a key do not
  count (`Delay.StoreGraph`).
* `max_retries` bounds neither database conflicts nor uncounted retries, and a job whose
  worker keeps dying is started two times more (`JobRuns.FinishStaysTidyExactly`,
  `JobRuns.StartsAreBounded`, `JobRuns.KilledUntilFailed`).
* Squashed transfers are documented to show each order line at most once. Lines that are
  finished nowhere, or finished in several pickings, are still shown several times;
  `Transfers.SharedExactly` says when.
* A component that has bills of materials but none of the manufacturing type counts its
  stock twice (`BillOfMaterials.SupplyIsStockExactly`, `BillOfMaterials.StockCountsTwice`).
* The validation of pricelist items lets rounding steps, maximum margins and percentages of
  another price through, which are lost on export; `Pricelists.ReimportKeepsPricesExactly`
  says when that changes a price. A maximum margin on a discount changes only prices of
  negative list prices, unless it is itself negative
  (`Pricelists.ReimportKeepsSalePricesExactly`).

## Model

| member | source | states |
|---|---|---|
| Graphs.Graph.AddVertex | queue_job/delay.py:69-74 | the vertex is there afterwards and no edge changes |
| Graphs.Graph.AddEdge | queue_job/delay.py:76-82 | exactly the one edge is new, both ends are vertices, and a closed graph stays closed |
| Graphs.Graph.Edges | queue_job/delay.py:88-94 | every edge exactly once |
| Graphs.Graph.RootVertices | queue_job/delay.py:147-155 | exactly the vertices without a parent |
| Graphs.Graph.CountDependencies | queue_job/delay.py:132-134 | the counter of every vertex is its number of parents |
| Graphs.Graph.ReleaseNeighbours | queue_job/delay.py:142-145 | sorted and queued vertices are always exactly those whose parents are all sorted, none twice |
| Graphs.Graph.TopologicalSort | queue_job/delay.py:125-145 | stops on every closed graph; no vertex twice, parents first; lists exactly the vertices not on or below a cycle; on an acyclic graph, all of them |
| Graphs.SortedExactly | queue_job/delay.py:125-145 | any exhausted parents-first order, whatever the set order, has exactly the vertices without a cyclic ancestor-or-self |
| Graphs.OrderedBeforeDescendants | queue_job/delay.py:128-130 | every ancestor, not only every parent, comes before its descendant |
| Graphs.PathSearch.Search | queue_job/delay.py:110-121 | path and seen are restored; what was found is all maximal simple continuations of the path, each once |
| Graphs.Paths | queue_job/delay.py:98-123 | stops on cyclic graphs too and yields exactly the maximal simple paths from the vertex, each once |
| Delayables.OnDone | queue_job/delay.py:340-348 | every source is linked to every target and nothing else changes |
| Delayables.ChainGraph | queue_job/delay.py:319-328 | the vertices are the elements, the edges exactly the consecutive pairs |
| Delayables.GroupGraph | queue_job/delay.py:376-380 | the vertices are the members, without any edge |
| Delayables.OwnGraph | queue_job/delay.py:392-401 | the graph an object keeps after its construction and its on_done() calls |
| Delayables.MergeGraph | queue_job/delay.py:172-186 | exactly the tails of the vertices are new vertices, and exactly tail-to-head pairs of edges are new edges |
| Delayables.MergedTwice | queue_job/delay.py:194-210 | merging the graph of an object already merged changes nothing |
| Delayables.Visit | queue_job/delay.py:199-210 | one visit keeps: everything merged is reachable from the start, and every object is seen or queued |
| Delayables.ConnectGraphs | queue_job/delay.py:188-212 | the worklist stops even when on_done() links form cycles, and has merged exactly the graphs of the objects reachable from the start |
| Ordering.EndsAreLeaves | queue_job/delay.py:382-386 | heads and tails of any nesting are leaves inside it |
| Ordering.FlatteningIsOnLeaves | queue_job/delay.py:172-212 | the flattened graph has exactly the reachable leaves as vertices, and every neighbour is a vertex |
| Ordering.NothingUndocumented | queue_job/delay.py:172-212 | whatever the nesting, every edge of the flattened graph is an order the documentation asks for |
| Ordering.ExtremesCover | queue_job/delay.py:330-348 | under the condition, each leaf of an object is reached from its first leaves and reaches some of its last ones |
| Ordering.DemandIsRespected | queue_job/delay.py:298-315 | under the condition, every pair a chain or on_done() orders is connected in the flattened graph |
| Ordering.FlatteningIsExact | queue_job/delay.py:172-212 | under the condition, a leaf reaches another exactly when chains, groups and on_done() put it before the other; objects may be shared, groups empty, and on_done() cyclic |
| Ordering.ExposedIsExact | queue_job/delay.py:330-386 | read off the nesting alone: if no group is empty and linked objects face each other with exposed sides (leaves, groups of exposed members, chains whose outer element offers the same leaves at its other side), a leaf waits for exactly what is documented |
| Nesting.UsedOnceIsTree | queue_job/delay.py:188-212 | what an unused object leads to is a tree as soon as nothing in it is used twice |
| Nesting.ExtremeIsLast | queue_job/delay.py:298-309 | no leaf of an object lies beyond its first or last leaves in the documented order |
| Nesting.ChainEdge | queue_job/delay.py:330-334 | an edge between leaves of two elements of a chain exists only between neighbours, from a tail to a head |
| Nesting.LosesOrder | queue_job/delay.py:330-334 | wherever the condition fails in a tree, some documented pair is not connected |
| Nesting.ExactForTrees | queue_job/delay.py:298-401 | on trees, empty groups and on_done() included, flattening keeps the documented order if and only if the condition holds |
| Nesting.ExactByNesting | queue_job/delay.py:330-386 | on trees without empty groups, every leaf waits for exactly what is documented if and only if linked objects face each other with exposed sides |
| Nesting.EmptyGroupForgets | queue_job/delay.py:392-401 | nothing inside a target that only the on_done() of an empty group received is a vertex of the flattened graph |
| Witnesses.NestedChainEscapes | queue_job/delay.py:330-334 | what delay() flattens of chain(p, chain(chain(a, b), c)): a is documented after p and does not wait for it |
| Witnesses.GroupInChainWaits | queue_job/delay.py:382-386 | chain(a, group(b, c), d): b waits for a, and d for c |
| Witnesses.EmptyGroupLeavesNothing | queue_job/delay.py:392-401 | group().on_done(t) flattens to nothing, t included |
| Witnesses.EmptyGroupCutsChain | queue_job/delay.py:382-386 | what delay() flattens of chain(a, group(), b): b is documented after a and does not wait for it |
| Delay.ExecuteGraphDirect | queue_job/delay.py:293-295 | nothing is performed twice, and the first job that raises ends it; under the condition, without a cycle, every job comes after everything documented before it, and all are performed if none raises |
| Delay.StoreGraph | queue_job/delay.py:226-291 | an error without jobs or with a job depending on itself; one existing job handed out and nothing stored exactly if all keyed vertices, at least one, have an existing job; otherwise exactly one row per vertex with both directions of every edge and roots pending |
| Delay.ExistingMapping | queue_job/delay.py:270-280 | all keyed vertices if all of them have an existing job, none otherwise |
| Delay.InitialDependencies | queue_job/delay.py:263-264 | the stored dependencies are the flattened graph, in both directions |
| Delay.GraphIsShared | queue_job/delay.py:226-246 | all jobs of a graph share its uuid, and a single job has none |
| Delay.InitialQueueIsSound | queue_job/delay.py:248-291 | the table right after delay() has every invariant the queue keeps |
| Delay.InitialQueueHasRetries | queue_job/delay.py:248-291 | with positive max_retries every job of a delayed graph has all its attempts and starts left, and no worker holds an old copy |
| Delay.DelayedJobsAreBounded | queue_job/delay.py:248-291 | so the limits on performances, starts and steps hold of every delayed graph |
| Delay.RunsKeepDoneBelow | queue_job/controllers/main.py:29-46 | over all runs without manual completion, a job that was done had all its parents done |
| Delay.DoneBySuccess | queue_job/controllers/main.py:113-158 | in a run by workers only, a job is done at some time if and only if some attempt of it returned or found nothing to do |
| Delay.QueueRespectsDocumentedOrder | queue_job/delay.py:298-309 | at every moment of every such run, a job is released or done only after everything chains, groups and on_done() put before it |
| JobStore.Store.AddDepends | queue_job/job.py:498-507 | refuses a self dependency and changes nothing; otherwise parents and child know each other and the child waits unless all new parents are done |
| JobStore.Store.RunDependentsQuery | queue_job/job.py:536-564 | changes exactly the waiting children in the same graph all of whose parents have the wanted state |
| Jobs.SelectedMeaning | queue_job/job.py:536-564 | between linked rows the join selects exactly the waiting children with all parents in the wanted state |
| Jobs.StepsKeepStructure | queue_job/job.py:789-834 | every step changes states and retry counters only |
| Jobs.PerformMeaning | queue_job/job.py:509-534 | an attempt ends in DONE exactly if it returns or finds nothing to do, in FAILED exactly on any other exception or a retry with no retry left, and is counted unless the retry is ignored |
| JobStore.Store.SetEnqueued | queue_job/jobrunner/runner.py:317-325 | whatever the state of the job, only this row changes; the table stays release-safe if and only if all parents of the job were done at some time; a pending job loses no wake-up |
| JobStore.Store.StartJob | queue_job/controllers/main.py:31-33 | only this row changes, all parents of the job were done at some time, the worker holds its retry counter and whether its parents are done, and no wake-up is lost |
| JobStore.Store.FinishJob | queue_job/controllers/main.py:113-158 | only this row changes: DONE and owing a wake-up exactly after a success, FAILED exactly after a failure or the last retry, else put back; a wake-up is lost if and only if the worker retries with stale parents |
| JobStore.Store.EnqueueWaiting | queue_job/job.py:566-569 | afterwards no child whose parents are all done waits any more; only such children changed |
| JobStore.Store.AbandonWaiting | queue_job/controllers/main.py:55-68 | giving up loses a wake-up if and only if some waiting job has no other parent that owes one |
| JobStore.Store.RequeueDeadJob | queue_job/jobrunner/runner.py:327-390 | only this row changes: failed exactly if it was retried more than max_retries times, otherwise pending, with one more retry exactly if it was started; no wake-up is lost |
| JobStore.Store.MarkJobDone | queue_job/models/queue_job.py:322-326 | the job is done; afterwards no child whose parents are all done waits any more, and no wake-up is lost |
| JobStore.Store.RequeueJob | queue_job/models/queue_job.py:348-351 | only this row changes: pending or waiting as its parents are all done or not, with the retry counter reset, and no wake-up is lost |
| JobStore.Store.CancelJob | queue_job/models/queue_job.py:330-334 | another row changes if and only if it is a waiting direct child all of whose other parents are cancelled |
| JobStore.Store.RunJobNow | integration/models/queue_job.py:349-361 | the job is done with one more retry if it returned, otherwise nothing changes; no other row changes, and a wake-up is lost if and only if the job was the last missing parent of a waiting job |
| JobStore.Store.PerformJob | queue_job/controllers/main.py:29-46 | when nothing interferes, the outcome of the attempt decides the row in the same way, by the parents as they are, and no wake-up is lost |
| JobStore.Store.RunJob | queue_job/controllers/main.py:84-164 | only an enqueued job is run; exactly after a success all children whose parents are done are released and nothing is owed for it; otherwise no other row changes; no wake-up is lost |
| JobStore.Store.TakeAll | queue_job/controllers/main.py:84-164 | the methods, in any interleaving, stay release-safe and follow the runs of the model |
| JobStore.GetRetrySeconds | queue_job/job.py:839-854 | drawn from the pattern entry with the greatest retry count reached, nothing for an empty range; the default interval if none is reached, an explicit number first of all |
| JobSafety.StepIsSafe | queue_job/job.py:498-574 | every step, requeue, manual done, cancel, crash and revival included, keeps: released jobs have only parents that were done at some time |
| JobSafety.RunsAreReleaseSafe | queue_job/job.py:566-574 | release safety over all runs |
| JobSafety.RunNowWakesNobody | integration/models/queue_job.py:357-359 | a manual run changes no other row |
| JobSafety.StepStrandsExactly | queue_job/job.py:566-569 | a step loses a wake-up if and only if it is a retry with stale parents, a manual run of the last missing parent, or gives up the only wake-up owed to a waiting job |
| JobSafety.RunsLoseNoWakeUp | queue_job/controllers/main.py:48-75 | over all runs without those steps, a waiting job whose parents are all done has a parent that still owes its wake-up |
| JobSafety.ForwardStaysUpToDate | queue_job/job.py:722-726 | while no job leaves DONE, none is run by hand and no wake-up is given up, loaded copies of parents stay right and no step strands |
| JobSafety.ForwardRunsNeverStrand | queue_job/job.py:789-802 | such runs never lose a wake-up |
| JobSafety.WaitsForReason | queue_job/README.rst:272-281 | in an acyclic graph every waiting job has, among its own ancestors, one that is pending, enqueued, started, failed, cancelled or owes a wake-up; jobs that do not depend on a failed one are not held up by it |
| JobSafety.NoDeadlock | queue_job/job.py:536-569 | so with no wake-up owed, all jobs are done or some job is pending, enqueued, started, failed or cancelled |
| JobSafety.CancelReachesChildrenOnly | queue_job/job.py:571-574 | a cancel changes another job if and only if that is a waiting direct child all of whose other parents are cancelled |
| JobSafety.CancelReachesAllExactly | queue_job/README.rst:278-279 | all descendants are cancelled afterwards if and only if each of them was before or is such a child |
| Witnesses.RequeueAndRetryLoseWakeUp | queue_job/controllers/main.py:88-94 | a run from a freshly delayed chain of two jobs that leaves the second one waiting, whatever happens next by itself |
| Witnesses.AbandonedChildIsLost | queue_job/controllers/main.py:42-68 | the same from a worker that dies between storing DONE and waking the children |
| Witnesses.CreatedByDelay | queue_job/delay.py:248-291 | the table these runs start from is the one delay() stores, and is sound |
| Witnesses.RunNowLosesWakeUp | integration/models/queue_job.py:357-359 | running a parent by hand leaves its child waiting with nothing owed |
| Witnesses.CancelStopsAtChildren | queue_job/README.rst:278-281 | a grandchild stays waiting for a cancelled job |
| JobRuns.CounterIsExact | queue_job/job.py:514-519 | over all unattended runs, crashes and conflicts included, the retry counter grows by the attempts that ended, less the uncounted ones, plus the deaths |
| JobRuns.FinishStaysTidyExactly | queue_job/controllers/main.py:116-125 | after an attempt all jobs are within max_retries if and only if that was no conflict on a last counted attempt |
| JobRuns.PerformedAtMostMaxRetries | queue_job/job.py:514-531 | over all unattended runs in which a job is not found dead, it is performed more than max_retries times, uncounted attempts aside, only after a conflict on a last counted attempt |
| JobRuns.StartsAreBounded | queue_job/jobrunner/runner.py:331-346 | over all unattended runs, deaths included, without a conflict beyond max_retries, a job is started at most max_retries + 2 times, uncounted attempts aside |
| JobRuns.KilledUntilFailed | queue_job/jobrunner/runner.py:331-346 | that bound is attained by a job whose worker is killed every time |
| JobRuns.UnattendedRunsEnd | queue_job/job.py:509-534 | every such run is bounded by a measure of the table, plus its uncounted attempts and revivals of jobs that were only enqueued |
| JobRuns.RevivalGoesRound | queue_job/jobrunner/runner.py:367-369 | reviving an enqueued job brings the whole table back to where it was |
| JobRuns.LostForEver | queue_job/job.py:566-569 | a waiting job that nobody owes a wake-up stays so over every unattended run |
| JobRuns.IgnoredRetryGoesRound | queue_job/job.py:518-520 | an uncounted retry brings the whole table back to where it was |
| JobRuns.ConflictIsAlwaysRetried | queue_job/controllers/main.py:116-125 | a database conflict is retried whatever the retry counter says |
| TransferSerializers.PickingSerializer.constructor | integration/tools.py:1231-1237 | a new serializer has one best line per external id approved |
| TransferSerializers.PickingSerializer.ApproveLines | integration/tools.py:1289-1297 | exactly one line per external id, in order of first occurrence, each the last one with the greatest quantity; of lines that are no kits, the one with the most done |
| TransferSerializers.PickingSerializer.DropLines | integration/tools.py:1285-1287 | exactly the lines of the given ids leave, the others keep their order |
| TransferSerializers.Arrange | integration/tools.py:1370-1371 | every picking once: dropships after the others, among each the backorders after the others, among these by id |
| TransferSerializers.SaleTransferSerializer.constructor | integration/tools.py:1370-1376 | the sequence is the place in the arranged list, and no picking's lines or tracking change |
| TransferSerializers.SaleTransferSerializer.DropDuplicatedKitLines | integration/tools.py:1384-1389 | kit lines another picking has as a kit leave this picking |
| TransferSerializers.SaleTransferSerializer.DropDuplicatedDoneLines | integration/tools.py:1391-1396 | unfinished lines another picking has finished leave this picking |
| TransferSerializers.SaleTransferSerializer.ReassignTracking | integration/tools.py:1398-1403 | the approved picking with the lowest sequence receives the tokens, if there is one |
| TransferSerializers.SaleTransferSerializer.Squash | integration/tools.py:1345-1353 | the objects end as the specified squash of their views |
| TransferSerializers.SaleTransferSerializer.Dump | integration/tools.py:1355-1364 | exactly the approved pickings, in the order of the list |
| Transfers.SquashIsClosedForm | integration/tools.py:1345-1353 | which lines stay is read off the state before: a kit stays only in its first holder, and an unfinished line gives way to a finished one |
| Transfers.PlainLineStaysExactly | integration/tools.py:1391-1396 | of an id without kit lines, a picking keeps its line if and only if the done quantity is the demanded one, or no other picking can say so |
| Transfers.KitLineStaysExactly | integration/tools.py:1213-1219 | in the tracking export a kit line stays if and only if no earlier picking has a kit line of its id, whatever was done of it |
| Transfers.NoIdIsLost | integration/tools.py:1384-1396 | every approved external id stays approved in some picking |
| Transfers.HoldersAreExclusive | integration/tools.py:1384-1396 | no id is a kit in two pickings, or unfinished in one and finished in another; a kit that stays is in its lowest-sequence holder |
| Transfers.SquashIsExclusive | integration/tools.py:1345-1396 | all pairs of pickings are compatible afterwards, and the set of approved ids is unchanged |
| Transfers.SharedExactly | integration/models/stock_picking.py:200-203 | an id is still shown by two pickings if and only if both keep it, and it is finished in both or in no earlier or staying holder |
| Transfers.UnfinishedLinesStayShared | integration/models/stock_picking.py:200-203 | an unfinished line finished nowhere stays in every picking that has it |
| Transfers.TrackingIsConserved | integration/tools.py:1345-1364 | all tracking tokens end in dumped pickings, also when a receiver is emptied later, if and only if some picking had a line or there were no tokens |
| TransferSerializers.SquashAndDump | integration/models/stock_picking.py:211-212 | the dump has all tokens, all ids, and no contradicting pickings |
| TransferSerializers.ExportTransfers | integration/models/stock_picking.py:197-212 | the same from the list of serializers, whatever its order |
| BillOfMaterials.QtyComputer.ComputeQtyProducible | integration/models/product_product.py:354-473 | stops on cyclic bills of materials and restores the visited set; the result is nothing for a product on the path, the stock without a manufacturing bill, and otherwise the most batches for which there is enough of everything times the size of a batch |
| BillOfMaterials.QuantityIsExact | integration/models/product_product.py:404-469 | the recursion gives that quantity, with what limits and what is enough read off the products |
| BillOfMaterials.GuardIsHarmless | integration/models/product_product.py:383-388 | on acyclic bills of materials the guarded recursion equals the unguarded one |
| BillOfMaterials.BatchCountIsBottleneck | integration/models/product_product.py:404-451 | k batches fit every constraining line if and only if k is at most the count; there is no count exactly if no line constrains |
| BillOfMaterials.ProducibleIsMonotone | integration/models/product_product.py:400-469 | more stock of anything never lowers the producible quantity of anything |
| BillOfMaterials.SupplyIsStockExactly | integration/models/product_product.py:399-400 | the supply of a product without a manufacturing bill is its stock, except exactly if it has other bills, is not on the path, and has stock |
| BillOfMaterials.ProducibleCountsOnce | integration/models/product_product.py:421-427 | the recursion equals the one that counts each stock once if no product it descends to has stock, bills and no manufacturing bill |
| BillOfMaterials.SuppliesCountOnceExactly | integration/models/product_product.py:421-427 | all supplies in all paths count each stock once if and only if no product of the catalog is of that kind |
| BillOfMaterials.StockCountsTwice | integration/models/product_product.py:421-427 | from n units of such a component, 2 n products are promised |
| BillOfMaterials.TemplatesAreExact | integration/models/product_product.py:234-256 | the result is exactly the templates reachable upward through any number of levels, cyclic ones included |
| JsonExtraction.NumberSelects | integration/tools.py:1671-1678 | on a list the decimal text of n, with leading zeros or without, goes on with element n counted from 0, and misses beyond the end |
| JsonExtraction.OtherKeyCollects | integration/tools.py:1680-1684 | on a list any other key collects, in order, what is found along the path in each element |
| JsonExtraction.KeySelects | integration/tools.py:1686-1697 | on an object a key goes on with its field or misses; on anything else it misses |
| JsonExtraction.MissedStaysMissed | integration/tools.py:1661-1697 | a path that misses still misses when it is made longer |
| JsonExtraction.ExtractionComposes | integration/tools.py:1661-1697 | extracting p and then q is extracting p + q, for q that does not start with a number or p that does not fan out |
| JsonExtraction.CompositionIsExact | integration/tools.py:1671-1684 | composition holds for all continuations of p if and only if p meets no list with a key that is no number |
| RetryWrapper.CatchFollows | integration/tools.py:1863-1899 | the two counters are always the current runs of failures plus one |
| RetryWrapper.CatchIsExact | integration/tools.py:1863-1899 | the wrapper stops at attempt n if and only if that is the first to return, to raise something not retried, to be the ninth client failure with no server failure in between, or the sixth server failure in a row |
| RetryWrapper.AlternatingNeverGivesUp | integration/tools.py:1880-1894 | alternating failures are retried for ever |
| Rounding.RoundHalfEvenIsNearest | integration/models/product_pricelist.py:466 | rounding is to a nearest step, halves to the even one |
| Pricelists.ValidExactly | integration/models/product_pricelist.py:507-546 | fixed prices, percentages, and formulas on the list price without minimum margin and with either a negative fee or a discount may be exported, nothing else, and each error says why |
| Pricelists.ImportedFee | integration/models/product_pricelist.py:236-255 | between integrations with different tax settings, the fee with taxes is taken off where prices include them, and the fee without elsewhere |
| Pricelists.BackPrice | integration/models/product_pricelist.py:227-269 | an exported item is imported if and only if its value is not zero, and its price follows from that value |
| Pricelists.PriceIsFromExactValue | integration/models/product_pricelist.py:447-479 | the value and reduction type chosen for export determine the price of an item without rounding step, maximum margin or other base |
| Pricelists.ReimportSucceedsExactly | integration/models/product_pricelist.py:399-430 | a valid item comes back if and only if its value does not round to zero |
| Pricelists.ReimportKeepsPricesExactly | integration/models/product_pricelist.py:399-430 | the item that comes back prices every list price within list times 0.00005, or 0.00005, if and only if percentages are of the list price or total, discounts are neither rounded nor limited, or total, and the fee, rounded and limited, is within the tolerance |
| Pricelists.ReimportKeepsSalePricesExactly | integration/models/product_pricelist.py:399-430 | the same for list prices that are not negative; there a maximum margin on a discount does no harm if and only if it is not negative |
| Pricelists.NegativeDiscountIsLost | integration/models/product_pricelist.py:528-530 | a formula with a negative discount is valid for export and always refused at import |
| DangerousGoods.GetPackagedQuantities | geodis_dangerous_goods_integration/models/stock_picking.py:36-53 | exactly the packaged products, each with the sum of its done quantities in that package |
| DangerousGoods.OneMorePair | geodis_dangerous_goods_integration/models/stock_picking.py:79 | one more product in a package adds its whole quantity times its unit weight |
| DangerousGoods.AddProduct | geodis_dangerous_goods_integration/models/stock_picking.py:61-80 | all ADR lines of one product add their weight, package and, if new, details |
| DangerousGoods.AggregateByOnu | geodis_dangerous_goods_integration/models/stock_picking.py:55-82 | for any iteration order: exactly the UN numbers of packaged products, each with its exact weight and set of packages |
| DangerousGoods.BuildList | geodis_dangerous_goods_integration/models/stock_picking.py:84-105 | exactly one line per UN number that packed move lines carry, in strictly increasing order, with the rounded exact weight, the number of packages that carry it, and details given by one of their ADR lines |
| DangerousGoods.LessMeaning | geodis_dangerous_goods_integration/models/stock_picking.py:89 | the order is that of strings: after what two have in common, one ends or has the smaller character |

## Left out

- Nesting.ExactForTrees: that the condition is necessary is proved where no object is used twice; that it suffices is proved in general. Where an object is shared, another link may make up for a missing one.
- Delay.StoreGraph: jobs that were generated by an earlier call of delay() are not reused.
- JobStore.Store.RunJobNow: the row counts as started when the query runs, as the stored write before it is flushed by then.
- JobSafety.StepStrandsExactly: transactions are taken one after the other; what two transactions that overlap do not see of each other is not modelled.
- JobRuns.StartsAreBounded: max_retries is positive; zero means no limit.
- Pricelists.ReimportKeepsPricesExactly: export and import use the same tax setting, as one integration does; for different ones see ImportedFee. Odoo computes prices itself: discount, rounding to the step with halves away from zero, fee, then the margins. Numbers are exact.
- BillOfMaterials.QtyComputer.ComputeQtyProducible: one unit of measure and exact numbers; conversion and the tolerance of zero tests are left out.
- BillOfMaterials.BatchCountIsBottleneck: one unit of measure and exact numbers, as above.
- BillOfMaterials.ProducibleIsMonotone: assumes batch sizes and required quantities that are not negative.
- RetryWrapper.CatchIsExact: the waiting times and the sleep between attempts are left out.
- Priorities, dates and channels of jobs. Runs enqueue pending jobs only, as the channel manager offers no others; it is not part of this model.
- Deletion of job rows while their graph is running (autovacuum, unlinking).
- Row locks: a job may even have several workers. A job that finds its lock row gone is the same step as an uncounted retry.
- Explosion of phantom kits into lines: the exploded lines are given.
- Digits outside ASCII in JSON paths, and the default value and type conversion around the extractor.
- Tracking numbers are sequences of tokens; joining them with commas is left out.
- Taxes are an arbitrary function in the pricelist import.
- HTTP, SOAP and GraphQL calls, webhooks, labels, dashboards, partner matching and Shopify fulfilment orders: plumbing, or resting on search semantics that are not part of this model.
