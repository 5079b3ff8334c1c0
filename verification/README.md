# HPCToolkit analysis core, modelled and verified in Dafny

This project models the stateful algorithms at the heart of `hpcprof` and of the support
library below it, and proves what they promise for all inputs, all reachable states and
all interleavings:

- **Call-path reconstruction** (`Paths`, `FlowGraph`, `InteriorSpec`, `InteriorFactors`,
  `InteriorCounts`, `ExteriorFactors`, `Redistribution`, `Rescaling`, `Attribution`,
  `FlowRedistribution`, `RescaledShares`, `RedistributionExamples`). Values with an unknown calling path are
  split over candidate paths. The documented weight of a path is a product of call ratios over
  the paths that share its suffix; the code splits contiguous ranges of sorted paths round by
  round. Both give the same factors and the factors sum to one. When redistribution stops,
  when it divides by zero and what every context receives are stated exactly, from the
  measured data, and what arrives is the whole value of whatever was called.
- **Propagation** (`SubtreeSums`, `Propagation`, `ThreadFinalize`). The ancestor closure and the
  post-order accumulation with an explicit stack compute recursive sums over subtrees; together
  with redistribution, every context ends with its three sums, over the contexts below it whose
  ways up pass no call, or no call and no loop, and the root with all that was attributed to
  contexts and to whatever was called.
- **Hash table and word sets** (`Probing`, `IndexTable`, `HashTable`, `WordSet`,
  `QuickSort`, `SortedIterator`). A two-level open-addressing table refines a finite map over whole
  runs; probing by 16 visits every slot because the size is odd; set difference deletes while
  it walks; the sorted iterator yields every entry once.
- **Tree iteration** (`SiblingRing`, `TreeWalks`, `IteratorStack`, `LeafStack`, `TreeIterator`, `VisitOrder`). Linking
  and unlinking keep the ring of a node's children a sequence, and over any tree of such linked
  nodes a stack of iterators enumerates the recursive traversal orders, for which the order of
  all visits is stated order by order.
- **Wavefronts** (`Wavefronts`, `WavefrontRuns`, `WavefrontInvariants`, `WavefrontTheorems`,
  `WavefrontSignals`, `WavefrontDoubleSignal`, `WavefrontOrder`). The worker threads of the pipeline are a machine
  whose steps are atomic pieces of code taken in any order by any number of threads; safety,
  completeness, ordering, absence of deadlock and termination hold in every run.
- **Packed identifiers** (`ByteFormat`, `Nonces`, `PackedIds`, `UnpackedIds`, `IdRoundTrip`). Packing
  and unpacking give every context and metric its own identifier back.
- **Rank balancing** (`Rebalance`) and **thread numbering** (`ThreadIds`, `Numbering`,
  `NumberingProtocol`, `NumberingRuns`). An allocator with a bound, and a client/server message protocol.

Metric values are `real`, sizes are unbounded integers except where a width matters, scopes
are numbers of which only equality and order are used, sets of data classes are finite sets,
and hash functions are arbitrary functions. Objects the code changes in place are classes
(`ContextFlowGraph`, `HashTable`, `WordSet`, tree nodes, `TreeIterator`, `SortedIterator`,
`IdUnpacker`, `FinalizeState`); loops over local state are methods with loops.

What the code does not guarantee by itself is stated exactly:

- The denominators of exterior factors are exact if and only if the chosen call metric
  does not change after values were summed (`ExteriorFactors.TotalsExactIff`, with a failing
  input in `LateSwitchExample`).
- Redistribution of a flow graph's values divides by zero exactly if an entry has the call
  metric and its total is zero, or if a physical call count to rescale by is zero; it stops
  exactly if no call metric was seen, if the interior factors cannot be computed, or if
  rescaling stops for a reconstruction that has factors (`FlowRedistribution.RedistributeFlow`,
  for one call metric `FlowRedistribution.OneMetricOutcome`, with a zero total in
  `RedistributionExamples.ZeroTotalExample`).
- Rescaling gives up exactly if the first visited entry with data has no metric that counts
  calls, or if an entry lacks one of two call metrics seen by then (`Rescaling.EntryRescale`); so
  it depends on the order of the entries (`RedistributionExamples.OrderMattersExample`).
- Values of flow graphs and reconstructions that were never called are dropped, and nothing
  else is (`FlowRedistribution.FlowConserves`, `ReconstConserves`, `ThreadFinalize.Finalize`).
- Interior factors need the counts of exactly those calls that templates still undecided make;
  a call that has values but no count stops the calculation (`InteriorCounts.Compute`, with an
  input in `InteriorCounts.MissingCountExample`).
- Word comparison narrows to 32 bits; it decides equality if and only if no two words of the
  universe agree in their lower 32 bits (`WordSets.CompareDecidesIff`), which words below 2^32
  do (`SmallWordsSeparated`) and larger ones need not: a set that holds one word answers "present"
  for every word that shares its lower 32 bits and its slot (`LoneWordFound`, `LargeWordsCollide`).
- Probing reaches every slot if and only if the size of the table is odd (`Probing.AllReachedIff`).
- Leaving the root out of a tree iteration works if and only if nodes are visited once
  (`IteratorStacks.NonRootsOmitRoot`).
- A source's `wavesComplete` is signalled at most once in all runs if and only if no wave makes
  the source read more after its own waves are read
  (`WavefrontDoubleSignal.SignalledOnceIff`); a second signal is an error of `util::Once`. Some
  connected pipeline does that (`WavefrontDoubleSignal.OvershootExample`); the measurement-file
  source never does (`WavefrontSignals.MeasurementsSignalOnce`).
- Metrics are identified by name if and only if the names differ and contain no NUL
  (`IdRoundTrip.MetricsIdentifiedIff`).

`dafny verify dfyconfig.toml` checks everything.

## Model

| member | source | states |
|---|---|---|
| `Paths.NeighboursDecideSuffixFree` | src/hpcprof/context.cpp:145-157 | on reverse-lexicographically sorted paths, the check of adjacent pairs succeeds exactly when no path is a suffix of, or equal to, any other |
| `Paths.SuffixFreeIsOrderless` | src/hpcprof/context.cpp:138-157 | whether some path is a suffix of another does not depend on the order of the templates, so checking after the sort checks what was added |
| `Paths.Between` | src/hpcprof/context.cpp:346-347 | paths sorted between two that share a suffix share it too: groupings by suffix are contiguous |
| `Paths.NextCallOrdered` | src/hpcprof/context.cpp:346-347 | among paths sharing a suffix, the next calls appear in order |
| `FlowGraph.SortSorts` | src/hpcprof/context.cpp:138-144 | the sort gives a sorted permutation of the templates |
| `FlowGraph.NeighbourPass` | src/hpcprof/context.cpp:147-157 | the loop over adjacent pairs accepts exactly the template lists without suffix conflicts between any two |
| `FlowGraph.SortAndScan` | src/hpcprof/context.cpp:138-157 | sort and scan together accept exactly the conflict-free template collections and then return them sorted |
| `FlowGraph.ContextFlowGraph.constructor` | src/hpcprof/context.cpp:115-116 | a new graph has no templates, entries or siblings |
| `FlowGraph.ContextFlowGraph.Add` | src/hpcprof/context.cpp:124-129 | appends one template |
| `FlowGraph.ContextFlowGraph.Freeze` | src/hpcprof/context.cpp:135-180 | which of the failures stops it, and otherwise: templates sorted and suffix-free, entries and siblings exactly those of the templates |
| `FlowGraph.ContextFlowGraph.CollectSiblings` | src/hpcprof/context.cpp:159-173 | collects all entries and calls, or stops at a call without a flow graph |
| `InteriorSpec.CallShareFair` | src/hpcprof/context.cpp:421-430 | shares by call count, or even ones when the total is zero, are non-negative and sum to one over the calls that remain |
| `InteriorSpec.WeightShared` | src/hpcprof/context.hpp:302-311 | templates that share a suffix have the same product of ratios up to it |
| `InteriorSpec.ClassGetsWeight` | src/hpcprof/context.hpp:302-311 | the factors of all possible templates sharing a suffix sum to the weight of that suffix |
| `InteriorSpec.EndedIsAlone` | src/hpcprof/context.cpp:436-446 | without suffix conflicts, a path that has ended shares its suffix with no other possible template |
| `InteriorSpec.AloneKeepsWeight` | src/hpcprof/context.cpp:436-446 | stopping early at a group of one template gives the full product |
| `InteriorSpec.NothingStaysNothing` | src/hpcprof/context.cpp:436-446 | stopping early at a factor of zero gives the full product |
| `InteriorSpec.FactorsSumToOne` | src/hpcprof/context.hpp:302-311 | the documented factors are non-negative, zero for impossible templates, and sum to exactly one if any template is possible |
| `InteriorFactors.FirstTwo` | src/hpcprof/context.cpp:305-321 | finds the first two possible templates, or that there is at most one |
| `InteriorFactors.ScanNext` | src/hpcprof/context.cpp:382-408 | one more possible template extends the current run or closes it with its call count |
| `InteriorFactors.ScanGroup` | src/hpcprof/context.cpp:369-419 | the cursors cut a group into maximal runs with the same next call, covering all possible templates; the total is the sum of their call counts |
| `InteriorFactors.Divide` | src/hpcprof/context.cpp:421-430 | every sub-group gets its share of the group's factor, an even one if nothing is known |
| `InteriorFactors.SplitGroup` | src/hpcprof/context.cpp:368-431 | splitting one group gives groups that are exactly the suffix classes one call longer, with the documented weights |
| `InteriorFactors.SplitAll` | src/hpcprof/context.cpp:364-433 | the same for all groups of a round; no possible template is lost |
| `InteriorFactors.Resolve` | src/hpcprof/context.cpp:435-447 | groups that stop assign the documented factor to each of their possible templates; the others still hold two possible ones |
| `InteriorFactors.Shortcut` | src/hpcprof/context.cpp:302-321 | with at most one possible template, and only then, the factors are known without any counts, and are the documented ones for every rule of sharing |
| `InteriorFactors.Rounds` | src/hpcprof/context.cpp:346-449 | the rounds end, bounded by the longest path, with all factors as documented; the counts looked up are exactly those of calls made by templates that share a suffix with another and have something left to share |
| `InteriorCounts.FindInterior` | src/hpcprof/context.cpp:323-344 | the metric that counts calls between functions among all metrics of the siblings; stops if and only if there are two |
| `InteriorCounts.FlowForMeasured` | src/hpcprof/context.cpp:398-430 | in every round, a template's share times the sum of the measured counts of all calls possible there is the measured count of its own call; without counts the shares are even |
| `InteriorCounts.Compute` | src/hpcprof/context.cpp:293-450 | for suffix-free sorted templates, any siblings' values and any mask: when it stops for two metrics or a missing count, and otherwise the documented product for every template, with shares measured by the siblings' values, shortcuts included, and the internal assertions holding |
| `InteriorCounts.MissingCountExample` | src/hpcprof/context.cpp:398-418 | an input whose calculation stops because a call has values but not the count |
| `InteriorCounts.FrozenFactors` | src/hpcprof/context.cpp:293-450 | the factors of a frozen graph are products of measured shares, non-negative, zero for templates not entered, and sum to one if any was |
| `InteriorCounts.FreezeAndCompute` | src/hpcprof/context.cpp:135-450 | from any collection of templates: freezing succeeds exactly without conflicts, missing siblings and recursion, and then the factors sum to one unless the calculation stops |
| `ExteriorFactors.Query` | src/hpcprof/context.cpp:221-236 | which metric is preferred after looking at all metrics of an entry; stops only if two of those seen count the same kind of calls, and surely if no order avoids the conflict |
| `ExteriorFactors.CountVisit` | src/hpcprof/context.cpp:218-245 | one visited entry: the choice may change, and only the metric chosen by then is added to the entry's total |
| `ExteriorFactors.EntryTotals` | src/hpcprof/context.cpp:211-252 | stops only for conflicting metrics, and surely where no order avoids it; otherwise the chosen metric is the preferred one of all seen, and the totals are what summing with the choice of the moment gives |
| `ExteriorFactors.TotalsExactIff` | src/hpcprof/context.cpp:217-243 | all totals equal the sums of the finally chosen metric if and only if nothing was summed before the choice changed |
| `ExteriorFactors.LateSwitchExample` | src/hpcprof/context.cpp:217-243 | an input with two call metrics whose total is too large |
| `ExteriorFactors.TallyLogical` | src/hpcprof/context.cpp:237-243 | with one call metric the totals are exact |
| `Redistribution.FactorRow` | src/hpcprof/context.cpp:260-275 | one reconstruction's factors: value over total where the entry has the metric, zero elsewhere, and whether it has factors at all |
| `Redistribution.ExteriorRows` | src/hpcprof/context.cpp:254-277 | the factors of all reconstructions, and which templates were entered at all |
| `Redistribution.ComputeExterior` | src/hpcprof/context.cpp:206-278 | the whole computation: stops exactly where the source does, otherwise rows as expected and the mask of entered templates |
| `Redistribution.EnteredColumnIsOne` | src/hpcprof/context.cpp:254-277 | the exterior factors of an entered template sum to one over all reconstructions |
| `Redistribution.FactorsConserve` | src/hpcprof/accumulators.cpp:219-225 | exterior times interior factors sum to one over all reconstructions and templates, or to zero if nothing was entered |
| `Rescaling.QueryRoles` | src/hpcprof/context.cpp:539-561 | finds the physical and the logical call metric; stops if and only if two of the metrics seen have the same role |
| `Rescaling.EntryRescale` | src/hpcprof/context.cpp:528-578 | how it ends: at the first entry with data if nothing there counts calls, at an entry that lacks one of two call metrics seen by then, or with the factor of every entry that has data |
| `Rescaling.RescalingFactors` | src/hpcprof/context.cpp:523-592 | how it ends, and the factor of every template: logical calls per physical call, one as long as one call metric was seen, zero without data |
| `Rescaling.OneMetricRescale` | src/hpcprof/context.cpp:523-592 | with one call metric nothing is rescaled, and only the first entry with data can stop it |
| `Rescaling.CompleteRescale` | src/hpcprof/context.cpp:523-592 | if entries with data hold all call metrics, every entry is rescaled by its own counts |
| `Attribution.Add` | src/hpcprof/accumulators.cpp:148-152 | adds to one context and metric and changes nothing else; zeros leave no trace |
| `Attribution.Attribute` | src/hpcprof/accumulators.cpp:164-172 | every final context receives its factor's part of every metric |
| `Attribution.AttributeFlow` | src/hpcprof/accumulators.cpp:222-242 | the same over all reconstructions with the product of the three factors |
| `Attribution.ProductsConserve` | src/hpcprof/accumulators.cpp:222-242 | products that sum to a total give all contexts together that part of the value |
| `FlowRedistribution.OneEachIff` | src/hpcprof/context.hpp:346-366 | the metrics chosen for the roles are the only ones exactly if some choice is |
| `FlowRedistribution.FlowInterior` | src/hpcprof/accumulators.cpp:221-221 | the interior factors for the mask of entered templates, or that they cannot be computed |
| `FlowRedistribution.RescaleListed` | src/hpcprof/accumulators.cpp:196-202 | rescaling factors for exactly the reconstructions that have factors; stops exactly if it stops for one of them |
| `FlowRedistribution.FlowFactors` | src/hpcprof/accumulators.cpp:219-230 | the three kinds of factors of a flow graph, or exactly why there are none |
| `FlowRedistribution.FlowConserves` | src/hpcprof/accumulators.cpp:205-243 | with one call metric, all contexts together receive the whole value if some entry was called and nothing otherwise |
| `FlowRedistribution.RedistributeFlow` | src/hpcprof/accumulators.cpp:205-243 | one flow graph's values: exactly when it stops or divides by zero, and otherwise every context receives its parts and nothing else |
| `FlowRedistribution.OneMetricOutcome` | src/hpcprof/accumulators.cpp:205-243 | with one call metric: stops exactly without a call metric, without interior factors, or if a reconstruction with factors has a first entry without call metric; divides by zero exactly if a total in use is zero |
| `FlowRedistribution.ReconstConserves` | src/hpcprof/accumulators.cpp:154-173 | with one call metric, all contexts together receive the whole value if an entry has data and nothing otherwise |
| `FlowRedistribution.RedistributeReconstruction` | src/hpcprof/accumulators.cpp:154-173 | one reconstruction's values: exactly when it stops or divides by zero, and otherwise every context receives its parts and nothing else |
| `FlowRedistribution.OneMetricReconst` | src/hpcprof/accumulators.cpp:154-173 | with one call metric it stops exactly if the first entry with data has no call metric or the interior factors cannot be computed, and never divides by zero |
| `RescaledShares.RescaleIsRatio` | src/hpcprof/context.cpp:563-592 | a template's rescaling factor is the entry's logical calls over its physical ones once both have been shown, one before, nothing without data; it is not a number exactly if there are no physical calls |
| `RescaledShares.SharesAreParts` | src/hpcprof/accumulators.cpp:222-236 | also with two call metrics, every template's part of a value is its entry's part of the calls, times its interior factor, times logical calls for each physical one |
| `RescaledShares.FlowTotal` | src/hpcprof/accumulators.cpp:222-242 | all contexts together receive the value times the sum of these parts |
| `RescaledShares.ReconstSharesAre` | src/hpcprof/accumulators.cpp:154-173 | a reconstruction's parts are interior factors times logical calls for each physical one |
| `RescaledShares.PathsMeasured` | src/hpcprof/accumulators.cpp:221-221 | the interior factors in use are products of shares measured by the siblings' values |
| `RedistributionExamples.ZeroTotalExample` | src/hpcprof/context.cpp:260-275 | an input whose total is zero: the outcome is not a number |
| `RedistributionExamples.UnlistedIsLeftAlone` | src/hpcprof/accumulators.cpp:222-230 | a reconstruction without factors is left alone even if rescaling it would stop |
| `RedistributionExamples.UnlistedExample` | src/hpcprof/accumulators.cpp:222-230 | an input with such a reconstruction |
| `RedistributionExamples.OrderMattersExample` | src/hpcprof/context.cpp:528-578 | entries that stop rescaling in one order and not in the other |
| `SubtreeSums.SubSumByKids` | src/hpcprof/accumulators.cpp:321-344 | a subtree sum is the node's own value plus the sums of the children it is reached through without a call, or without a call or loop |
| `SubtreeSums.RootSumTo` | src/hpcprof/accumulators.cpp:321-344 | the root's execution sum is the total of all points |
| `SubtreeSums.ReachIffWay` | src/hpcprof/accumulators.cpp:329-344 | a context is counted exactly if its way up, parent by parent, exists, passes no called context, or passes no called context and no loop, not counting the end of the way |
| `SubtreeSums.SumsByWays` | src/hpcprof/accumulators.cpp:321-344 | the three sums are sums over exactly these contexts |
| `SubtreeSums.LoopAddsNothing` | src/hpcprof/accumulators.cpp:333-340 | what lies below a loop adds nothing to its parent's sum outside of loops, and what lies below a call nothing to either sum inside the function |
| `Propagation.Climb` | src/hpcprof/accumulators.cpp:269-280 | climbing until a known parent adds exactly the missing ancestors |
| `Propagation.FindAncestors` | src/hpcprof/accumulators.cpp:262-282 | the children table lists exactly the contexts with data below them, although climbs stop early |
| `Propagation.Restart` | src/hpcprof/accumulators.cpp:321-327 | the three sums start from the point value |
| `Propagation.MergeChild` | src/hpcprof/accumulators.cpp:329-344 | a settled child's execution sum is always added, its function sum unless it is called, and the sum outside of loops unless it is called or a loop |
| `Propagation.Settle` | src/hpcprof/accumulators.cpp:315-344 | a context is settled from its settled children |
| `Propagation.SettleTop` | src/hpcprof/accumulators.cpp:315-366 | popping the top frame settles its context and reports it to the frame below |
| `Propagation.Propagate` | src/hpcprof/accumulators.cpp:284-367 | the stack traversal ends with every marked context holding its three subtree sums and no other context changed |
| `Propagation.FinalHoldsSums` | src/hpcprof/accumulators.cpp:321-344 | a final accumulator holds, field by field, the sums over the contexts below, in the same function, and outside of inner loops |
| `Propagation.Finalize` | src/hpcprof/accumulators.cpp:262-367 | closure and traversal together: every context above data holds its three sums field by field, others are unchanged, and the root's execution sum is the total of all points |
| `ThreadFinalize.Fold` | src/hpcprof/accumulators.cpp:254-259 | adds one set of values to another, context by context and metric by metric; zeros leave no trace |
| `ThreadFinalize.FoldGroups` | src/hpcprof/accumulators.cpp:176-193 | the sums are exactly the call counts of all groups together, without entries for zeros, and the context data grows by the same |
| `ThreadFinalize.RedistributeReconsts` | src/hpcprof/accumulators.cpp:154-173 | all reconstructions: ends with the first that does not succeed, otherwise every context receives exactly its parts of each |
| `ThreadFinalize.RedistributeFlows` | src/hpcprof/accumulators.cpp:206-243 | the same for all flow graphs of a group; graphs without reconstructions are skipped |
| `ThreadFinalize.RedistributeGroups` | src/hpcprof/accumulators.cpp:204-251 | the same over all groups |
| `ThreadFinalize.ReconstsConserve` | src/hpcprof/accumulators.cpp:154-173 | with one call metric per handler, what contexts receive is the sum over the called reconstructions |
| `ThreadFinalize.FlowsConserve` | src/hpcprof/accumulators.cpp:206-243 | likewise over the called flow graphs of a group |
| `ThreadFinalize.GroupsConserve` | src/hpcprof/accumulators.cpp:204-251 | likewise over all groups, together with what they attribute to contexts directly |
| `ThreadFinalize.PointsConserve` | src/hpcprof/accumulators.cpp:142-259 | after redistribution and folding, the point values of all contexts together are those given for contexts plus those of whatever was called |
| `ThreadFinalize.RedistributeAll` | src/hpcprof/accumulators.cpp:142-260 | how redistribution ends, and otherwise the point value of every context and metric |
| `ThreadFinalize.SumAllIsTotal` | src/hpcprof/accumulators.cpp:254-259 | the total over the tree is the sum over its contexts |
| `ThreadFinalize.Finalize` | src/hpcprof/accumulators.cpp:142-367 | the whole finalisation: how it ends; every context above data holds its three subtree sums of the redistributed values, all others are unchanged; with one call metric per handler the root's execution sum is the context data plus the values of the called reconstructions, groups and flow graphs |
| `Probing.ProbesDiffer` | src/common/HashTable.cpp:824-838 | with an odd size, fewer than size steps of 16 never come back to a slot |
| `Probing.ProbeWraps` | src/common/HashTable.cpp:534-611 | size steps of 16 come back to the first slot |
| `Probing.ProbeReaches` | src/common/HashTable.cpp:824-838 | with an odd size every slot is reached within size steps |
| `Probing.EvenSizeStalls` | src/common/HashTable.cpp:824-838 | with an even size, only slots of one parity are ever probed |
| `Probing.AllReachedIff` | src/common/HashTable.cpp:824-838 | every slot is reached within size steps if and only if the size is odd |
| `IndexTable.EmptyMeansAbsent` | src/common/HashTable.cpp:534-611 | an EMPTY slot on the probe path means the key is not stored, despite DELETED marks |
| `IndexTable.WrapMeansAbsent` | src/common/HashTable.cpp:534-611 | coming back to the first slot means the key is not stored |
| `IndexTable.PutKeeps` | src/common/HashTable.cpp:225-230 | writing a new entry's index into a free slot of its probe path keeps the table consistent |
| `IndexTable.DeleteKeeps` | src/common/HashTable.cpp:272-325 | moving the last entry into the hole and marking the slot DELETED keeps the table consistent |
| `IndexTable.RoomLeft` | src/common/HashTable.cpp:655-703 | a table with fewer entries than slots has a slot to put a key in |
| `HashTables.IndexSizeFor` | src/common/HashTable.cpp:108-128 | the chosen index size is one less than four times the highest power of two in the number of slots, or than that power from 2^20 on; it is odd and at least 31 |
| `HashTables.HashTable.constructor` | src/common/HashTable.cpp:99-150 | a new table is consistent and empty |
| `HashTables.HashTable.Scan` | src/common/HashTable.cpp:534-611 | the probe loop ends, finds the key exactly if it is stored, reports INVALID_INDEX only for an absent key without an EMPTY slot, and never wraps to the first DELETED slot |
| `HashTables.FoundIffStored` | src/common/HashTable.cpp:534-611 | a query finds exactly the stored keys if comparison decides equality with them |
| `HashTables.HashTable.OverflowIndexSet` | src/common/HashTable.cpp:655-703 | rebuilding a larger index keeps the entries and ends in a consistent table with odd size |
| `HashTables.HashTable.OverflowEntries` | src/common/HashTable.cpp:707-735 | growing the entry array keeps everything else |
| `HashTables.HashTable.AddEntry` | src/common/HashTable.cpp:210-252 | adds or replaces one binding of the map; replacing keeps the entry's position, adding appends |
| `HashTables.HashTable.SwapWithLast` | src/common/HashTable.cpp:285-309 | exchanges the entry with the last one and their index slots |
| `HashTables.HashTable.RemoveAt` | src/common/HashTable.cpp:272-325 | the last entry takes the deleted one's place, nothing else moves |
| `HashTables.HashTable.DeleteEntry` | src/common/HashTable.cpp:256-352 | removes one binding of the map, or nothing if the key is absent |
| `HashTables.HashTable.QueryEntry` | src/common/HashTable.cpp:356-382 | returns the bound value exactly for stored keys |
| `HashTables.Run` | src/common/HashTable.cpp:210-382 | any run of additions, deletions and queries, with whatever rebuilds, answers like a finite map |
| `WordSets.CompareSeesLowBits` | src/common/WordSet.cpp:61-64 | words compare equal exactly if their lower 32 bits agree |
| `WordSets.CompareDecidesIff` | src/common/WordSet.cpp:61-64 | comparison is an equality test on a set of words if and only if no two of them agree in the lower 32 bits |
| `WordSets.SmallWordsSeparated` | src/common/WordSet.cpp:61-64 | words below 2^32 are told apart |
| `WordSets.LoneWordFound` | src/common/WordSet.cpp:55-64 | a set that holds one word answers "present" for exactly the words that share its lower 32 bits and its slot |
| `WordSets.LargeWordsCollide` | src/common/WordSet.cpp:55-64 | a new set that holds 0 answers "present" for 31 * 2^32 |
| `WordSets.WordSet.Add` | src/common/WordSet.cpp:67-70 | adds one word to the set |
| `WordSets.WordSet.Delete` | src/common/WordSet.cpp:73-76 | removes one word from the set |
| `WordSets.WordSet.IsMember` | src/common/WordSet.cpp:79-83 | decides membership |
| `WordSets.WordSet.UnionWith` | src/common/WordSet.cpp:139-145 | the union, also with itself |
| `WordSets.WordSet.DifferenceWith` | src/common/WordSet.cpp:183-195 | the difference; every original word is tested exactly once, last one first, although deletions move entries |
| `WordSets.WordSet.IntersectWith` | src/common/WordSet.cpp:158-180 | the intersection |
| `WordSets.WordSet.Intersects` | src/common/WordSet.cpp:86-103 | decides whether two sets meet |
| `WordSets.WordSet.Equals` | src/common/WordSet.cpp:121-136 | decides equality of sets |
| `WordSets.WordSet.Clear` | src/common/WordSet.cpp:106-112 | makes the set empty |
| `QuickSorts.ScanDown` | src/common/QuickSort.cpp:76-78 | the scan from above stops inside the range at a value that is not too large, or at its lower end |
| `QuickSorts.ScanUp` | src/common/QuickSort.cpp:79-81 | the scan from below, likewise |
| `QuickSorts.Exchange` | src/common/QuickSort.cpp:74-86 | one round leaves smaller values below and larger ones above, or ends with a correct split |
| `QuickSorts.Partition` | src/common/QuickSort.cpp:65-90 | for every pivot, min <= mid < max, everything up to mid is at most the pivot and everything after at least the pivot, and only the range was permuted |
| `QuickSorts.Sort` | src/common/QuickSort.cpp:92-106 | for every total preorder and every pivot choice, terminates with the range sorted and permuted, the rest unchanged |
| `SortedIterators.Collect` | src/common/HashTable.cpp:883-917 | the plain iterator gives all entries, last one first |
| `SortedIterators.SortedIterator.Reset` | src/common/HashTableSortedIterator.cpp:88-111 | collects the table's entries in order |
| `SortedIterators.Enumerate` | src/common/HashTableSortedIterator.cpp:60-111 | iterating yields every binding of the table exactly once, in order |
| `TreeWalks.WalkReports` | src/common/IteratorStack.cpp:64-119 | a recursive walk reports every node once, twice, or only if it is a leaf |
| `IteratorStacks.FromCurrent` | src/common/NonUniformDegreeTree.hpp:196-256 | stepping along the siblings in either direction visits the rest of the children and stops after a full turn |
| `SiblingRings.Node.constructor` | src/common/NonUniformDegreeTree.hpp:165-179 | a new node is alone in its ring and has no children |
| `SiblingRings.Node.Link` | src/common/NonUniformDegreeTree.cpp:57-73 | the node becomes the last child; ring, first child and count of the parent fit the new sequence of children; a null parent changes nothing |
| `SiblingRings.Node.LinkAfter` | src/common/NonUniformDegreeTree.cpp:77-94 | the node follows its sibling in the ring, whether or not the ring has a parent |
| `SiblingRings.Node.LinkBefore` | src/common/NonUniformDegreeTree.cpp:98-105 | the node precedes its sibling in the ring, and becomes the first child before the first one |
| `SiblingRings.Node.Unlink` | src/common/NonUniformDegreeTree.cpp:112-139 | the sequence of children loses exactly this node, which is alone again; a node without a parent stays as it is |
| `SiblingRings.Walk` | src/common/NonUniformDegreeTree.hpp:196-256 | once around the ring in either direction visits the sequence of children, or its reverse, and stops |
| `TreeIterators.NextKid` | src/common/NonUniformDegreeTree.hpp:214-227 | following the sibling pointers leads to the node at the next position, or to null after a full turn |
| `TreeIterators.TreeIterator.constructor` | src/common/NonUniformDegreeTree.cpp:194-216 | over any tree of linked nodes, a fresh iterator has the whole recursive order ahead |
| `TreeIterators.TreeIterator.Push` | src/common/IteratorStack.cpp:64-76 | pushes nothing for an empty iterator, and in post-order the way down to the first leaf |
| `TreeIterators.TreeIterator.IteratorToPushIfAny` | src/common/NonUniformDegreeTree.cpp:219-239 | the child iterator, and the second visit where nodes are visited twice |
| `TreeIterators.TreeIterator.PushTwice` | src/common/IteratorStack.cpp:64-76 | for leaves in pre-and-post-order, the way down with every node on it twice |
| `LeafStacks.DownHolds` | src/common/IteratorStack.cpp:64-76 | that way holds exactly the leaves below its node, each once |
| `TreeIterators.TreeIterator.Advance` | src/common/IteratorStack.cpp:79-119 | each step drops exactly the first of the remaining visits, in every order |
| `TreeIterators.TreeIterator.Current` | src/common/IteratorStack.cpp:148-186 | the current node and kind of visit are the first of the remaining visits, and the iterator is invalid when none remain |
| `TreeIterators.TreeIterator.Drain` | src/common/IteratorStack.cpp:79-119 | stepping until invalid reports exactly the visits that remained |
| `TreeIterators.Enumerate` | src/common/IteratorStack.cpp:64-119 | over any tree of linked nodes, for every order and way of enumerating, the nodes reported are exactly those of the recursive pre-order, post-order, reversed or doubled order, or the leaves |
| `VisitOrders.OrderLaw` | src/common/IteratorStack.cpp:193-208 | in each of the five orders: all visits below a child come before those below a later child, or after them in the two reverse orders; a node's own visit comes before them, after them, or on both sides; nothing else is visited |
| `VisitOrders.SubtreeIsBlock` | src/common/IteratorStack.cpp:64-119 | the visits of every subtree form one block of the whole, so that the order law holds at every node |
| `IteratorStacks.NonRootsOmitRoot` | src/common/NonUniformDegreeTree.cpp:194-239 | enumerating without the root omits it if and only if nodes are visited once |
| `Wavefronts.GrantedIsComplete` | src/hpcprof/pipeline.cpp:60-72 | class by class, which accepted classes bring it into a sink's limit; its wavefronts are those it asks for within the limit |
| `Wavefronts.ConnectSinks` | src/hpcprof/pipeline.cpp:60-72 | what each sink gets, class by class, and waits for, what is requested and announced, and each ordered sink's delay: the waves of all earlier ordered sinks |
| `Wavefronts.Connect` | src/hpcprof/pipeline.cpp:192-229 | a class is scheduled exactly if a source provides it and a sink requests it; announced classes are split into scheduled and unscheduled ones |
| `Wavefronts.ConnectionHolds` | src/hpcprof/pipeline.cpp:192-229 | no source provides an unscheduled wave, and delays grow along the ordered chain |
| `WavefrontInvariants.NotifyKeeps` | src/hpcprof/pipeline.cpp:301-321 | notifying keeps a sink's delivered set within what has passed, complete once its delay is over, and strictly growing |
| `WavefrontInvariants.UnlockKeeps` | src/hpcprof/pipeline.cpp:341-358 | a source is signalled exactly when the waves served so far cover all waves it provides |
| `WavefrontInvariants.InvKept` | src/hpcprof/pipeline.cpp:301-387 | every step of every thread keeps the invariant of the whole machine |
| `WavefrontTheorems.Safety` | src/hpcprof/pipeline.cpp:301-367 | in every run, what a sink was told of has been read by every source that provides it, and successive deliveries strictly grow |
| `WavefrontTheorems.LogRecords` | src/hpcprof/pipeline.cpp:305-320 | every change of a delivered set is one delivery |
| `WavefrontTheorems.OrderedChain` | src/hpcprof/pipeline.cpp:882-891 | in every run, once an ordered sink was told anything, every earlier ordered sink has been told all its scheduled waves |
| `WavefrontTheorems.ReadingOrder` | src/hpcprof/pipeline.cpp:328-387 | in every run, a source reads each class at most once, and its finishing read comes after all its scheduled waves |
| `WavefrontTheorems.NoDeadlock` | src/hpcprof/pipeline.cpp:328-387 | until all threads are through, some thread can move: every wait for a source's waves is released |
| `WavefrontTheorems.RunsEnd` | src/hpcprof/pipeline.cpp:322-397 | every run is finite, with a bound from the first state |
| `WavefrontTheorems.Completeness` | src/hpcprof/pipeline.cpp:322-397 | when all threads are through, every sink was told exactly the waves it asked for and every source has read all it provides that is scheduled |
| `WavefrontTheorems.RunsComplete` | src/hpcprof/pipeline.cpp:322-397 | a run cannot go on exactly when all threads are through, and then it is complete |
| `WavefrontOrder.OneWaveEach` | src/hpcprof/pipeline.cpp:364-367 | exactly attributes, references, threads and contexts have waves, one each |
| `WavefrontOrder.WaveOrder` | src/hpcprof/pipeline.cpp:364-379 | in every run, a wave is begun only when all sources have been handed out for the waves before it, in the order attributes, references, threads, contexts, and the finishing wave after all |
| `WavefrontOrder.ReadExactly` | src/hpcprof/pipeline.cpp:336-379 | in every run, a source reads only what it provides and is requested for a scheduled wave or at the end, and when all threads are through exactly that |
| `WavefrontSignals.SignalledOnce` | src/hpcprof/util/once.cpp:21-33 | if no wave overshoots, no run signals a source twice |
| `WavefrontSignals.ClosedNeverOvershoots` | src/hpcprof/source.hpp:50-55 | requests closed under their own dependencies never overshoot |
| `WavefrontSignals.MeasurementRequestIs` | src/hpcprof/sources/hpcrun4.cpp:150-158 | class by class, what a measurement file reads for a request |
| `WavefrontSignals.MeasurementsSignalOnce` | src/hpcprof/sources/hpcrun4.cpp:150-158 | measurement files' requests cover what is asked for and never overshoot |
| `WavefrontDoubleSignal.OvershootSignalsTwice` | src/hpcprof/pipeline.cpp:328-358 | if a wave overshoots, some run signals its source twice |
| `WavefrontDoubleSignal.SignalledOnceIff` | src/hpcprof/pipeline.cpp:328-358 | a source is signalled at most once in all runs if and only if no wave overshoots |
| `WavefrontDoubleSignal.OvershootExample` | src/hpcprof/pipeline.cpp:328-358 | a connected pipeline with covering requests, one source of which some run signals twice |
| `ByteFormat.PackNumber` | src/hpcprof/packedids.cpp:28-32 | appends the eight little-endian bytes of a number |
| `ByteFormat.ByteAt` | src/hpcprof/packedids.cpp:28-32 | byte i holds the bits from 8i on |
| `ByteFormat.UnpackNumber` | src/hpcprof/packedids.cpp:119-128 | reads back the number that was packed |
| `ByteFormat.PackString` | src/hpcprof/packedids.cpp:20-27 | appends the string with a question mark for every NUL in it, and a NUL |
| `ByteFormat.UnpackString` | src/hpcprof/packedids.cpp:112-118 | reads up to the first NUL |
| `Nonces.FindNonce` | src/hpcprof/packedids.cpp:56-79 | the first of twenty nonces under which all children hash differently, or that there is none; the children come sorted by hash |
| `PackedIds.PackContext` | src/hpcprof/packedids.cpp:45-91 | appends the record of one context, or fails exactly if no nonce separates its children |
| `PackedIds.PackTree` | src/hpcprof/packedids.cpp:43-91 | the stack-based visit appends the records of all contexts in pre-order and counts them |
| `PackedIds.VisitNext` | src/hpcprof/context.cpp:70-96 | visiting the next child takes exactly the first of the contexts still ahead |
| `PackedIds.Backpatch` | src/hpcprof/packedids.cpp:92-97 | overwrites eight bytes and nothing else |
| `PackedIds.Pack` | src/hpcprof/packedids.cpp:36-108 | the packed bytes in the documented format; fails exactly if some context's children cannot be separated |
| `UnpackedIds.ReadRecord` | src/hpcprof/packedids.cpp:142-150 | reads back one record into the table |
| `UnpackedIds.ReadRecords` | src/hpcprof/packedids.cpp:140-151 | reads back all records |
| `UnpackedIds.ReadMetrics` | src/hpcprof/packedids.cpp:153-159 | reads back all metrics |
| `UnpackedIds.RecordFound` | src/hpcprof/packedids.cpp:142-150 | with distinct identifiers, every parent's record is found under its identifier |
| `UnpackedIds.MetricFound` | src/hpcprof/packedids.cpp:155-159 | a name leads to the first metric packed under it |
| `IdRoundTrip.IdUnpacker.constructor` | src/hpcprof/packedids.cpp:130-133 | the global identifier is read at once |
| `IdRoundTrip.IdUnpacker.Unpack` | src/hpcprof/packedids.cpp:135-162 | the tables hold what was packed |
| `IdRoundTrip.IdUnpacker.IdentifyContext` | src/hpcprof/packedids.cpp:164-173 | unpacks at the first call and looks a child up by its parent's identifier and its scope |
| `IdRoundTrip.IdUnpacker.IdentifyMetric` | src/hpcprof/packedids.cpp:175-180 | unpacks at the first call and looks a metric up by name |
| `IdRoundTrip.KidIdentified` | src/hpcprof/packedids.cpp:164-173 | from a parent's own identifier, each child's own identifier is found |
| `IdRoundTrip.Transfer` | src/hpcprof/packedids.cpp:36-173 | after packing and unpacking, going down from the root by scopes finds every context's own identifier; there is no result exactly if packing fails |
| `IdRoundTrip.TransferMetric` | src/hpcprof/packedids.cpp:36-180 | likewise for every metric |
| `IdRoundTrip.MetricsIdentifiedIff` | src/hpcprof/packedids.cpp:153-180 | all metrics are identified by name if and only if names differ and contain no NUL |
| `Rebalance.GiveAway` | src/hpcprof/args.cpp:644-655 | a rank keeps its first limit + 1 inputs and gives away the others |
| `Rebalance.FindSlot` | src/hpcprof/args.cpp:669-678 | while slots are left the search succeeds, so its assertion holds; a last slot is used only when no rank has two |
| `Rebalance.Allocate` | src/hpcprof/args.cpp:660-683 | every extra input goes to exactly one rank, none gets more than it has room for |
| `Rebalance.EnoughRoom` | src/hpcprof/args.cpp:642-643 | the ranks together have room for everything given away |
| `Rebalance.Spread` | src/hpcprof/args.cpp:640-701 | for every distribution: every input is kept exactly once, no rank has more than floor(total / size) + 1, ranks lose only what is beyond that, and no rank is filled up while another is below the average |
| `ThreadIds.BuildKey` | src/hpcprof/attributes.cpp:124-133 | the flattened key, word by word |
| `ThreadIds.KeyInjective` | src/hpcprof/attributes.cpp:124-133 | different prefixes or kinds have different keys |
| `ThreadIds.KeysTellApart` | src/hpcprof/attributes.cpp:102-148 | two elements share a numbering exactly if they have the same kind and, for local ones, the same places before them |
| `Numbering.GotIsDense` | src/hpcprof/attributes.cpp:170-178 | numbers stay consecutive and one-to-one, and none is taken back |
| `Numbering.NumberFits` | src/hpcprof/attributes.cpp:170-178 | numbers always fit into 64 bits |
| `Numbering.FinalizeState.Get` | src/hpcprof/attributes.cpp:170-178 | looks a number up, adding the next one if necessary |
| `Numbering.FinalizeState.Finalize` | src/hpcprof/attributes.cpp:102-148 | on rank 0, every element that needs a number gets the one of its key, although earlier elements were rewritten meanwhile; exactly these numbers are added |
| `Numbering.FinalizedNeedsNothing` | src/hpcprof/attributes.cpp:102-148 | finalized elements need no number and keep their places |
| `Numbering.SameNumberIff` | src/hpcprof/attributes.cpp:102-148 | under the same key, numbers are equal exactly if physical indices are |
| `NumberingRuns.ScopeIsKey` | src/hpcprof/attributes.cpp:109-148 | by the ranges of the kind word: global elements share a numbering if they have the same kind, local ones if moreover the same kinds and indices come before them, and no others do |
| `NumberingRuns.FinalizeAll` | src/hpcprof/attributes.cpp:102-178 | for any sequence of tuples: only local and global elements change; elements numbered together have equal numbers exactly if their physical indices are equal; and every smaller number was given before |
| `NumberingRuns.FirstGetsZero` | src/hpcprof/attributes.cpp:170-178 | the first element of its kind, or of its kind below a new prefix, gets 0 |
| `NumberingProtocol.ServeStep` | src/hpcprof/attributes.cpp:152-160 | the server takes a request's messages in the right order and answers with the number of that request |
| `NumberingProtocol.Protocol` | src/hpcprof/attributes.cpp:102-178 | in every interleaving the server is never confused, the next message of any rank to an idle server starts a request, numbers are consecutive and one-to-one, and answers are those numbers |
| `NumberingProtocol.EqualAnswersIff` | src/hpcprof/attributes.cpp:102-178 | in every interleaving, requests under one key get equal answers exactly if they ask for the same index |
| `NumberingProtocol.Progress` | src/hpcprof/attributes.cpp:113-118 | a rank that has asked is never stuck |
| `NumberingRuns.ElementCanBeAsked` | src/hpcprof/attributes.cpp:113-147 | every local or global element can be asked for by an idle rank and numbered by rank 0 |
| `NumberingRuns.ElementsAnswered` | src/hpcprof/attributes.cpp:102-178 | in every interleaving, elements numbered together get equal answers exactly if their physical indices are equal, whichever ranks ask |

## Left out

- File access, MPI transport and OpenMP itself: threads take atomic steps in any order, iterations of a worksharing loop are handed out in any order, and messages between two ranks arrive in order; memory ordering is not modelled.
- Floating-point rounding: metric values and factors are real numbers; a division by a zero total is an explicit outcome.
- Allocation, destruction and user callbacks of the hash table, and 32-bit overflow of its sizes.
- Options, path resolution and directory scanning around the balancing of inputs; a path and its argument travel as one value instead of in two parallel vectors.
- Splay maps, streaming timepoint sorting, expression operators, and the command line parser.
- Minimum and maximum statistics, the `isLoop` flag and the getter that depends on it.
- Changing a tree while it is iterated over, and resetting an iterator.
- The delivery callback of a sink runs after its lock is released and may be out of order; the model records the order in which deliveries are decided.
- Second signals: the machine counts them instead of stopping at the first one.
- ExteriorFactors.EntryTotals: the totals are stated for handlers that name at most one metric for each kind of calls, as their documentation demands; for others only when it stops is bounded, because the order of a hash map decides.
- Rescaling.EntryRescale: assumes such a handler too.
- FlowRedistribution.RedistributeFlow: assumes such a handler, and takes the siblings' values as given for each flow graph instead of finding them among the group's inputs.
- FlowRedistribution.RedistributeReconstruction: likewise.
- FlowRedistribution.FlowConserves: stated for one call metric, because two call metrics rescale values on purpose; `RescaledShares.FlowTotal` gives what all contexts receive for any number of them.
- InteriorCounts.Compute: a missing count is reported after the rounds, where the source throws in the round that needs it.
- ThreadFinalize.Finalize: the root's total is stated for one call metric per handler, for the same reason; how it ends and all subtree sums are stated for all.
- WordSets.WordSet.UnionWith: two sets share storage only if they are one object.
- Rebalance.Spread: the number of free slots is 32 bits wide in the source, so the average number of inputs must fit into it.
- PackedIds.Pack: numbers of contexts and metrics must fit into 64 bits.
- IdRoundTrip.IdUnpacker.IdentifyContext: assumes the parent and the scope are known, where the source throws.
- TreeIterators.TreeIterator.Current: the modelled answer is None where the source returns a null pointer.
