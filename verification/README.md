# CACTI design-space search, verified

A Dafny model of the discrete search inside CACTI 7 (`cacti/`): the enumeration, pruning, selection
and traversal code around the circuit formulas. The formulas themselves enter as arbitrary functions.
`dafny verify dfyconfig.toml` checks everything.

## What is modelled

**Memory configurations (MemCAD).** `Channels` holds the price and bandwidth tables, the constructors
and the clones; `ChannelSearch` the candidates that `find_all_channels` meets in its nested loops, and
`Offers` the same channels as DIMM sizes, types and frequencies;
`Combinations` and `Assembly` the backtracking recursions; `SameBandwidth` the runs of equal bandwidth;
`Pruning` the one-per-capacity pruning; `MemCad` the program itself, a `Search` object whose three
lists the methods rebuild, with the index list that the recursions push to and pop from. `MemCadSpec`
states what each stage delivers and proves that in mirror mode the three stages together lose
nothing: the first memory listed is at least as good as any memory that could be built from channels
on offer, and one is found exactly when one exists. `SameBandwidthLoss` shows that the same-bandwidth
mode has no such guarantee: on 36 GB of unbuffered DDR3 DIMMs (one BoB, two channels) solutions exist
and the search finds none. It says exactly when a memory is found and exactly when the optimum is. For a
ranking that mentions bandwidth both conditions are on the parameters alone: the best channels on offer,
in groups of one bandwidth, must meet the target, or equal every memory. For other rankings the ties that
`std::sort` leaves open decide, so there the conditions name the channels that survive. With one channel
per BoB the optimum is always found. `AsWritten` carries all of this to whole runs that are sorted by the
comparisons as they stand.

**Cache organisations (UCA).** `SweepOrder` and `Sweep` model the strided, multi-threaded sweep over
the partition space, with its mixed-radix decoding and its scratch element at the end of each list;
`Arrays` the order of the arrays and the running minima; `Selection` the loops that filter and select
while erasing; `UcaSolve` the whole of `solve`, for plain RAM, CAM, fully associative and tagged caches,
in every optimisation mode. `Sorting` has stable sorting and merging of lists, and `ThreadOrder` shows
with it that the merged list is the same, element for element, on any number of threads if and only if
tied arrays of different flat index are equal. `Partitions` says which partitions the sweep tries, by the
limits alone; `Costs` and `UcaFigures` what the costs, the filter and the answer mean for the delays,
energies, areas and cycle times themselves. Even when they are not, `solve` returns the same
organisation on any number of threads for every array that `calculate_time` can produce. The weighted
selection is not a plain minimum: it steps over the second candidate when the head is erased, and
`Selection` says exactly when that matters. `UcaLimits` measures both losses: the overlooked second
candidate, and the optimum that the filter before the selection may delete. In modes 1 and 2 the result is
optimal over all valid partitions if and only if the filter keeps a partition of least product, with or
without tags; a run on three partitions shows the loss for each kind.

**NUCA, H-trees, helpers.** `Nuca` models the grid search over divisors of the bank count, the bank
size bound, and the selection among organisations. `Htree` models the two traversals with their
bandwidth doubling and halving lengths; their totals are sums over the links, with the bandwidth of each
link an explicit power of two. `BasicCircuit` has the integer helpers.

## Reading notes

- The comparisons `compare_channels`, `compare_bobs` and `compare_memories` (cacti/memcad.cc:20-83,
  261-324, 472-535) share one body. They answer true on equal arguments and treat energies within
  1e-7 as equal, so they are no strict weak order and `std::sort` promises nothing for them. `Compare`
  is that body; sorting is by the exact lexicographic order `Precedes`, and
  `CompareIsExactIffSeparated` says when the two agree. `AsWritten` states the results for runs whose
  lists are sorted by `Compare` itself and whose energies the tolerance does not blur; the search with a
  constant energy is such a run.
- In the constructor of a channel, `bandwidth = 0` (cacti/memcad_parameters.cc:299-300) assigns the
  parameter, which hides the field; the field keeps its value, as in the model.
- A channel without DIMMs reads past the end of a bandwidth row (cacti/memcad.cc:141) and at index -1
  of an energy table (cacti/memcad_parameters.cc:323). `Params.pastRow` and `Params.energy` are
  arbitrary, so nothing here depends on what those reads yield.
- The first, second and third DIMM type blocks of `find_all_channels` differ only in their guards;
  `ConsiderLrdimm` has the parenthesised one, `ConsiderOther` the two without parentheses.
- `mem_array::lt` compares the degree of bitline multiplexing, not Ndcm. `calculate_time` reports Ndcm
  itself (cacti/parameter.cc:2079), or rejects all but Ndcm = 1 (cacti/parameter.cc:1578, 1733, 1909),
  except for tag arrays in DRAM, where it reports 1 for every Ndcm (cacti/parameter.cc:2045). There
  arrays found by different threads can tie, and their order in the merged list depends on the number
  of threads; but as nothing else looks at Ndcm, the last of the cheapest, which `filter_tag_arr` keeps,
  does not.
- Decrementing an iterator at the beginning of a list (cacti/Ucache.cc:815-816) and incrementing the
  end iterator of an emptied list (cacti/Ucache.cc:718-720) have no defined meaning in C++. The model
  takes the first as undone by the increment that follows, the second as the end of the loop.
- `combination(n, m)` is m + 1 for m >= n, because `factorial(n, m + 1)` starts at m + 1.

## Model

| member | source | states |
|---|---|---|
| Metrics.CompareIsExactIffSeparated | cacti/memcad.cc:20-83 | the comparison with tolerance that channels, BoBs and memories share is the exact lexicographic order, under every ranking and in both directions, if and only if the energies are equal or further apart than the tolerance |
| Metrics.CompareIsNoStrictOrder | cacti/memcad.cc:82 | it is true of an element and itself, and ties within the tolerance do not chain |
| Metrics.CompareInFigures | cacti/memcad.cc:20-83 | less capacity comes first; then less cost, more bandwidth or less energy, whichever is ranked first, if the energies differ by more than 1e-7 or the others at all; else the next metric decides |
| Metrics.BeatsInFigures | cacti/memcad.cc:20-83 | superiority is no more cost, no less bandwidth, no more energy in the metric ranked first, and in the next ones among equals |
| Metrics.TotalInFigures | cacti/memcad_parameters.cc:380-390 | capacity, cost, bandwidth and energy of a whole are the sums over its parts |
| Metrics.BeatsAdds | cacti/memcad_parameters.cc:380-390 | lexicographic superiority at equal capacity survives the addition of figures |
| Metrics.TotalBeats | cacti/memcad_parameters.cc:435-445 | replacing every part by a better one of the same capacity makes a better whole |
| Channels.BwIndexInvertsTable | cacti/memcad_parameters.cc:224-274 | bw_index finds the entry it reads, and is the least entry that is fast enough |
| Channels.WeighIsBinwise | cacti/memcad_parameters.cc:304-306 | pricing the histogram bin by bin is pricing the DIMMs one by one |
| Channels.MakeChannel | cacti/memcad_parameters.cc:276-311 | the constructor computes the histogram, DIMM count, capacity, price and energy of the given DIMMs, and keeps the bandwidth |
| Channels.CountDimms | cacti/memcad_parameters.cc:283-296 | the first loop counts DIMMs, sums capacities and tallies the bins |
| Channels.PriceHistogram | cacti/memcad_parameters.cc:304-306 | the price loop sums over the whole histogram |
| Channels.ListDimms | cacti/memcad_parameters.cc:340-349 | the loops of clone expand a histogram |
| Channels.ExpandTally | cacti/memcad_parameters.cc:340-349 | tallying the expansion gives the histogram back |
| Channels.RoundedCapacity | cacti/memcad_parameters.cc:286-296 | bins round capacities down, without loss if and only if every DIMM has a table size |
| Channels.CloneKeepsBins | cacti/memcad_parameters.cc:338-352 | the clone keeps histogram, count and price, and trips no size assertion |
| Channels.CloneRoundTrip | cacti/memcad_parameters.cc:338-352 | the clone equals the original if and only if every DIMM has a table size |
| Channels.CloneChannel | cacti/memcad_parameters.cc:338-352 | cloning a channel that the search builds returns an equal channel |
| Channels.MakeBob | cacti/memcad_parameters.cc:371-391 | a BoB carries its channels and the totals of their figures |
| Channels.CloneBob | cacti/memcad_parameters.cc:393-405 | cloning a BoB preserves its channels and all its sums |
| Channels.MakeMemory | cacti/memcad_parameters.cc:427-446 | a memory carries its BoBs and the totals of their figures |
| ChannelSearch.BandwidthLimit | cacti/memcad.cc:141-142 | n DIMMs on a channel leave bandwidth entries up to 4 - n |
| ChannelSearch.FiniteCost | cacti/memcad.cc:130-149 | the final test on the cost holds if and only if every DIMM has a finite price, so the guards on single DIMMs are redundant |
| ChannelSearch.BuildIsInjective | cacti/memcad.cc:120-239 | different qualifying loop positions build different channels |
| ChannelSearch.CoversAdd | cacti/memcad.cc:146-149 | emitting the candidate at the loop position keeps the list exact |
| ChannelSearch.SkipType | cacti/memcad.cc:127-181 | passing over a DIMM type whose guards fail, or an empty channel, loses no qualifying candidate |
| MemCad.Search.Consider | cacti/memcad.cc:144-161 | one constructed channel is kept if and only if its cost is finite |
| MemCad.Search.ConsiderType | cacti/memcad.cc:141-163 | the bandwidth loop for one type collects exactly the qualifying candidates of the combination |
| MemCad.Search.ConsiderLrdimm | cacti/memcad.cc:130-164 | the LRDIMM block |
| MemCad.Search.ConsiderOther | cacti/memcad.cc:166-235 | the RDIMM and UDIMM blocks, whose unparenthesised guards change nothing |
| MemCad.Search.ConsiderCombination | cacti/memcad.cc:126-236 | one combination of three sizes |
| MemCad.Search.GenerateChannels | cacti/memcad.cc:116-239 | the nested loops list the qualifying candidates, all of them, each once, in loop order |
| MemCadSpec.CollectedExactlyOnce | cacti/memcad.cc:116-239 | the collected channels are exactly those on offer, without repetition |
| Offers.OfferedIffStocked | cacti/memcad.cc:116-239 | a channel is collected if and only if it has one to three DIMMs of the wanted type, each in a size in which that type is sold, within the capacity, at a frequency of the standard that so many DIMMs can run at, with low power only if permitted; or no DIMM, if the first type block is open |
| Offers.OfferedType | cacti/memcad.cc:130-235 | a job for one DIMM type collects channels of that type only |
| Offers.StockedFigures | cacti/memcad_parameters.cc:276-311 | such a channel counts its DIMMs by size, adds their capacities and prices, and takes the energy of its type, number, bandwidth and capacity |
| Offers.PricedIffSold | cacti/memcad_parameters.cc:226-238 | UDIMMs have a price up to 8 GB, RDIMMs up to 32 GB, LRDIMMs from 16 GB |
| Offers.PriceList | cacti/memcad_parameters.cc:226-238 | the price of every size on sale |
| Pruning.PruneStrict | cacti/memcad.cc:86-97 | survivors of a list grouped by capacity have strictly increasing capacities |
| Pruning.PruneKeepsFirst | cacti/memcad.cc:326-337 | for every element the first of its capacity survives |
| Pruning.PruneKeepsBest | cacti/memcad.cc:86-106 | on a sorted list, exactly one candidate per capacity survives, and it beats all others of that capacity |
| Pruning.ComparedIsOrdered | cacti/memcad.cc:20-83 | where the tolerance decides nothing, a list sorted by the comparison as written is sorted by the exact order, and conversely |
| MemCad.Search.PruneChannels | cacti/memcad.cc:86-106 | the loop keeps, by clones, the first of each capacity |
| MemCad.Search.FindAllChannels | cacti/memcad.cc:108-254 | for every capacity on offer one channel remains, a best one |
| Combinations.ListsMember | cacti/memcad.cc:348-375 | the recursion yields exactly the non-decreasing index lists of the given length and range |
| Combinations.ListsIncreasing | cacti/memcad.cc:348-375 | in strictly increasing lexicographic order |
| Combinations.ListsCount | cacti/memcad.cc:348-375 | there are C(L + k - 1, k) of them for a run of length L |
| Combinations.SearchIsFilter | cacti/memcad.cc:434-468 | the search that cuts off branches equals filtering the whole enumeration by total capacity, order included |
| Combinations.SearchExact | cacti/memcad.cc:434-468 | find_mems_recursive emits every index list whose capacities sum to the target, nothing else, in lexicographic order and once each |
| Assembly.Rearrange | cacti/memcad.cc:434-468 | enumerating sorted index lists loses no multiset: any choice can be put in order with the same total |
| Assembly.SearchBeats | cacti/memcad.cc:434-468 | if a list covers every part of a whole with the target capacity, the search emits a whole that beats it |
| Assembly.SearchSound | cacti/memcad.cc:434-468 | what the search emits has the requested number of parts and the target capacity |
| SameBandwidth.FindRuns | cacti/memcad.cc:394-406 | start_index and end_index cut the list into adjacent stretches of equal bandwidth that differ at each cut |
| SameBandwidth.OneRunPerBandwidth | cacti/memcad.cc:393-406 | on the sorted list two positions have equal bandwidth if and only if they lie in the same run |
| SameBandwidth.RunListsExact | cacti/memcad.cc:408-413 | the runs yield exactly the choices of k channels of one bandwidth |
| SameBandwidth.RunListsIncreasing | cacti/memcad.cc:408-413 | in strictly increasing order over all runs, so each once |
| SameBandwidth.RunListsCount | cacti/memcad.cc:408-413 | their number is the sum of C(L + k - 1, k) over the runs |
| MemCad.Search.GenerateMirrorBobs | cacti/memcad.cc:380-390 | one BoB for each channel, made of copies of it |
| MemCad.Search.FindBobsRecursive | cacti/memcad.cc:348-375 | appends the BoBs of all index lists behind the current prefix and restores the index list |
| MemCad.Search.FindLastChannels | cacti/memcad.cc:350-368 | the base case of that recursion |
| MemCad.Search.GenerateSameBandwidthBobs | cacti/memcad.cc:391-415 | the same-bandwidth branch builds the BoBs of the run lists over the regrouped channels |
| MemCad.Search.EnumerateRuns | cacti/memcad.cc:408-413 | the loop over the runs |
| MemCad.Search.PruneBobs | cacti/memcad.cc:326-346 | the loop keeps, by clones, the first of each capacity |
| MemCad.Search.SortAndPruneBobs | cacti/memcad.cc:423-424 | sorting and pruning keep one BoB of every capacity generated, a best one |
| MemCad.Search.FindAllBobs | cacti/memcad.cc:377-432 | only admitted BoBs remain, and every admitted BoB is beaten by one that remains |
| MemCadSpec.MirrorBobsFound | cacti/memcad.cc:380-390 | that, for mirrored BoBs |
| MemCadSpec.SameBandwidthBobsFound | cacti/memcad.cc:391-424 | that, for BoBs of one bandwidth, in whatever order the channels are chosen |
| MemCad.Search.FindMemsRecursive | cacti/memcad.cc:434-468 | appends the memories of the search behind the current prefix, restores the index list, and terminates for one BoB or more |
| MemCad.Search.FindLastBobs | cacti/memcad.cc:437-456 | the base case of that recursion |
| MemCad.Search.FindAllMemories | cacti/memcad.cc:537-567 | the sorted list holds exactly the memories of the search; true is returned if and only if there is one |
| MemCadSpec.SortedMemoriesFound | cacti/memcad.cc:537-567 | every memory has the target capacity, and the first beats every whole whose parts the BoBs cover |
| MemCadSpec.MemoryIsBuilt | cacti/memcad.cc:434-468 | every memory found has the requested number of BoBs, each of the requested number of channels on offer, equal or of equal bandwidth, and the sums of their figures |
| MemCadSpec.MirrorHeadBeatsAll | cacti/memcad.cc:380-390 | in mirror mode the first memory beats every memory built from unpruned channels |
| MemCadSpec.MirrorHeadIsDesign | cacti/memcad.cc:380-390 | and is itself built from channels on offer |
| MemCadSpec.MirrorLossless | cacti/memcad.cc:591-598 | in mirror mode the staged search finds a memory if and only if one exists, and the first one is optimal over all unpruned designs |
| MemCadSpec.MirrorTotal | cacti/memcad.cc:380-390 | mirroring on n channels takes n times the capacity, cost, bandwidth and energy |
| MemCadSpec.MirrorHeadInFigures | cacti/memcad.cc:591-598 | the first memory has the least cost, the most bandwidth or the least energy of all unpruned designs, whichever is ranked first, and among equals in it the best in the next |
| MemCad.Search.SolveMemcad | cacti/memcad.cc:591-598 | running the three stages establishes that optimum; in same-bandwidth mode, for a ranking with bandwidth, a memory is found if and only if best offers in groups of one bandwidth meet the target, and it is optimal if and only if they equal every design; for any ranking the same holds of surviving channels, and with one channel per BoB it is always optimal; where the tolerance decides nothing, the comparisons as written accept the sorted lists |
| AsWritten.ComparedIffInOrder | cacti/memcad.cc:20-83 | where the tolerance decides nothing, the comparisons as written accept the three lists of a run if and only if they are in the exact order |
| AsWritten.StagesDeliver | cacti/memcad.cc:591-598 | any run whose lists are so ordered, however ties are broken, leaves best channels, best BoBs and the memories of the search |
| AsWritten.MirrorLosslessAsWritten | cacti/memcad.cc:591-598 | the optimum of mirror mode for a run whose three lists are sorted by the comparison as written, if its tolerance decides nothing |
| AsWritten.SameBandwidthAsWritten | cacti/memcad.cc:591-598 | the exact conditions of the same-bandwidth mode for such a run |
| AsWritten.FlatRunIsCompared | cacti/memcad.cc:20-83 | if the energy is constant, every sorted run is such a run |
| SameBandwidthLoss.BobPruningLossless | cacti/memcad.cc:326-346 | in every mode the pruning of BoBs loses nothing with respect to the channels that remain |
| SameBandwidthLoss.HeadBeatsIff | cacti/memcad.cc:391-415 | in every mode the first memory beats given figures if and only if some memory of surviving channels does |
| SameBandwidthLoss.FoundIffSurvivorsMeet | cacti/memcad.cc:537-567 | in every mode a memory is found if and only if surviving channels can make one that meets the target |
| SameBandwidthLoss.DesignIffChannelsMeet | cacti/memcad.cc:391-415 | without pruning, a same-bandwidth memory exists if and only if enough channels on offer, of any bandwidths, meet the target |
| SameBandwidthLoss.FindsWheneverPossibleIff | cacti/memcad.cc:391-415 | for any ranking, a memory is found exactly when one exists, if and only if surviving channels meet the target in groups of one bandwidth as soon as any channels on offer meet it |
| SameBandwidthLoss.OptimumIff | cacti/memcad.cc:391-415 | for any ranking, the first memory is optimal over all unpruned same-bandwidth memories if and only if each of them is equalled by one of surviving channels |
| SameBandwidthLoss.FoundIffBestOffersMeet | cacti/memcad.cc:391-415 | if bandwidth is ranked, a memory is found if and only if channels on offer that none of their capacity surpasses meet the target in groups of one bandwidth |
| SameBandwidthLoss.FindsWheneverPossibleIffBest | cacti/memcad.cc:391-415 | if bandwidth is ranked, a memory is found exactly when one exists, if and only if those channels meet the target as soon as any channels on offer meet it |
| SameBandwidthLoss.OptimumIffBest | cacti/memcad.cc:391-415 | if bandwidth is ranked, the first memory is optimal over all unpruned same-bandwidth memories if and only if memories of those channels equal each of them |
| SameBandwidthLoss.SameBandwidthHeadInFigures | cacti/memcad.cc:591-598 | where the optimum is found, the first memory has the least cost, the most bandwidth or the least energy of all same-bandwidth designs, as ranked |
| SameBandwidthLoss.RecoveredDesignBeaten | cacti/memcad.cc:391-415 | a memory each of whose BoBs has survivors of one bandwidth is beaten by the first memory found |
| SameBandwidthLoss.OneBandwidthIffRecovered | cacti/memcad.cc:86-106 | with two or more channels per BoB, every unpruned BoB has survivors of one bandwidth if and only if all surviving channels share one bandwidth |
| SameBandwidthLoss.SingleChannelLossless | cacti/memcad.cc:391-415 | with one channel per BoB the optimum is always found |
| SameBandwidthLoss.LossyInput | cacti/memcad.cc:391-415 | an input on which unpruned solutions exist and the search finds none |
| Arrays.LtIsStrictWeakOrder | cacti/cacti_interface.cc:51-65 | lt is a strict weak order whose ties are the arrays of equal partition |
| Arrays.LtIsLexicographic | cacti/cacti_interface.cc:51-65 | it is ascending: the first factor that differs is less |
| Arrays.NotAfterIsTotalPreorder | cacti/cacti_interface.cc:51-65 | lists can be sorted and merged by it |
| Arrays.MinValues.Update | cacti/Ucache.cc:87-94 | one more array: the new minima are the greatest figures below the old minima and those of the array |
| Arrays.MinOverBounds | cacti/Ucache.cc:58-94 | the minima are the greatest lower bound of the values seen and the initial bound |
| Arrays.MinOverSameMembers | cacti/Ucache.cc:58-94 | they depend on which values occur, not on their order |
| Arrays.MinOverJoin | cacti/Ucache.cc:58-65 | reducing the minima of the parts gives the minima of the whole |
| Arrays.MinOverAttained | cacti/Ucache.cc:87-94 | the least delay and the least energy belong to some array |
| SweepOrder.DecodeEncode | cacti/Ucache.cc:168-171 | the decoding recovers every triple of digits |
| SweepOrder.EncodeDecode | cacti/Ucache.cc:117-120 | every index below the product of the radices decodes to digits in range, and is recovered from them |
| SweepOrder.ThreadOfTriple | cacti/Ucache.cc:166-171 | every triple belongs to exactly one index, and the strided loop of exactly one thread comes to that index |
| SweepOrder.StrideSkipsNothing | cacti/Ucache.cc:166 | the indices between two strides belong to other threads |
| SweepOrder.ShareJoins | cacti/Ucache.cc:935-939 | adding the share of the next thread keeps the union exact |
| SweepOrder.SweepsAgree | cacti/Ucache.cc:929-939 | two sweeps, however divided, record the same positions the same number of times |
| Sweep.CalcThread.TryPartition | cacti/Ucache.cc:192-228 | one partition: a valid one fills the scratch element, enters the minima and gets a new scratch element behind it |
| Sweep.CalcThread.SweepNdsam | cacti/Ucache.cc:172-243 | the outer loop over Ndsam visits all doublings up to the limit |
| Sweep.CalcThread.SweepNdsam2 | cacti/Ucache.cc:174-242 | the inner loop over Ndsam |
| Sweep.CalcThread.SweepIterations | cacti/Ucache.cc:166-244 | the strided loop visits exactly the thread's indices |
| Sweep.CalcThread.SweepWires | cacti/Ucache.cc:164-245 | the loop over wire types |
| Sweep.CalcThread.SweepNspd | cacti/Ucache.cc:162-246 | the outermost loop ends, having visited every doubling of Nspd within the limit |
| Sorting.StableSort | cacti/Ucache.cc:937 | list::sort: an ordered permutation in which ties keep their order |
| Sorting.Merge | cacti/Ucache.cc:938 | list::merge: the stable order of both lists, ties from the first list first |
| Sorting.StableCompose | cacti/Ucache.cc:935-939 | merging the stable sorts of two lists is the stable sort of their concatenation |
| Sorting.SameLabels | cacti/Ucache.cc:935-939 | two arrangements that disagree only about elements of equal label show the same labels |
| ThreadOrder.ByThreadJoins | cacti/Ucache.cc:935-939 | the threads deliver thread by thread, each in loop order |
| ThreadOrder.MergedIsSorted | cacti/Ucache.cc:934-939 | on any number of threads the merged list is a sorted permutation of the arrays of all valid positions |
| ThreadOrder.MergedAgree | cacti/Ucache.cc:934-939 | if tied arrays agree, two numbers of threads give the same list |
| ThreadOrder.ThreadsAgreeIff | cacti/Ucache.cc:934-939 | all numbers of threads give the same list if and only if tied arrays of different flat index are equal |
| ThreadOrder.FirstOfKind | cacti/Ucache.cc:166 | on as many threads as its flat index, a position comes first among those of its partition and wire type |
| ThreadOrder.KeepsNdcmTiesAgree | cacti/parameter.cc:2079 | ties agree when the degree of bitline multiplexing is Ndcm |
| ThreadOrder.TiesAcrossWires | cacti/parameter.cc:2045 | ties of different flat index and wire type do not agree |
| ThreadOrder.DramTagsDisagree | cacti/parameter.cc:2045 | an input of this kind on which ties do not agree, so the order of the merged list depends on the number of threads |
| ThreadOrder.LastBestAgrees | cacti/Ucache.cc:754-783 | when nothing depends on Ndcm, the last of the cheapest arrays is nevertheless the same on any two numbers of threads |
| Sweep.CalcThread.Run | cacti/Ucache.cc:98-254 | a thread records exactly the valid positions of its share, in order, with their minima, and drops both scratch elements |
| Partitions.MergedTabulates | cacti/Ucache.cc:162-246 | on any number of threads the merged list holds what calculate_time makes of the partitions it accepts: Nspd a doubling of its minimum, Ndwl, Ndbl, Ndcm and both Ndsam powers of two, wire type and all factors within the limits, each partition once |
| Partitions.EveryPartitionIsTried | cacti/Ucache.cc:162-246 | an accepted partition within the limits is in the list, with its own factors and figures |
| Partitions.EveryArrayIsAPartition | cacti/Ucache.cc:192-228 | whatever is in the list comes from such a partition |
| Selection.BestIsFirstBest | cacti/Ucache.cc:715-717 | replacing the result only by strictly cheaper candidates finds the first of the cheapest |
| Selection.CandidateList.ScanProduct | cacti/Ucache.cc:675-696 | modes 1 and 2 return the first of the cheapest candidates of the whole list |
| Selection.CandidateList.ScanUca | cacti/Ucache.cc:697-729 | the weighted mode looks at every candidate once, except the second when the head is erased, returns the first of the cheapest it looked at, and leaves the rest |
| Selection.CandidateList.JudgeUca | cacti/Ucache.cc:703-727 | one candidate: a rejected one and a new minimum are erased |
| Selection.CandidateList.ScanNuca | cacti/nuca.cc:545-566 | the same for NUCA, where only rejected candidates are erased |
| Selection.CandidateList.JudgeNuca | cacti/nuca.cc:545-562 | one candidate: only a rejected one is erased |
| Selection.ScanIsCheapestUnlessSecond | cacti/Ucache.cc:715-727 | the result is a cheapest candidate of the whole list if and only if the head was kept or the second candidate is not strictly the cheapest |
| Costs.ProductInFigures | cacti/Ucache.cc:675-696 | mode 1 orders by delay times energy, mode 2 by the square of the delay times energy |
| Costs.CheckInFigures | cacti/Ucache.cc:606-628 | the check passes if and only if no figure exceeds its minimum by more than the allowed percentage |
| Costs.CostOfDelay | cacti/Ucache.cc:708-712 | raising the delay by a share of its minimum raises the cost by that share of the delay weight; strictly if it is positive, not at all if it is zero |
| Costs.CostOfEnergy | cacti/Ucache.cc:708-712 | the same for the read energy |
| Costs.CostOfLeakage | cacti/Ucache.cc:708-712 | the same for the leakage |
| Costs.CostOfCycle | cacti/Ucache.cc:708-712 | the same for the cycle time |
| Costs.CostOfArea | cacti/Ucache.cc:708-712 | the same for the area |
| Costs.OnlyWeightDecides | cacti/Ucache.cc:708-712 | if one weight alone is positive, what costs no more has no more of its figure |
| Selection.CandidateList.FilterTag | cacti/Ucache.cc:754-790 | one element remains, every other one is deleted exactly once |
| Selection.BestFromBackIsLastBest | cacti/Ucache.cc:754-783 | the element that remains is the last of the cheapest |
| Selection.CandidateList.FilterData | cacti/Ucache.cc:805-818 | erasing while iterating equals an order-preserving filter |
| Selection.FilterMember | cacti/Ucache.cc:805-818 | the filter keeps exactly the elements that pass |
| UcaSolve.FilterKeepsWitnesses | cacti/Ucache.cc:811-812 | an array of least delay and one of least energy always pass the filter, so it leaves something |
| UcaFigures.DeletedInFigures | cacti/Ucache.cc:811-812 | an array is deleted if and only if its delay exceeds one and a half times the least and its energy one and a half times the least |
| UcaSolve.FilterTagArr | cacti/Ucache.cc:740-791 | the tag array that remains is the last of the cheapest admissible ones; the error exit means none costs less than BIGNUM |
| UcaSolve.FindOptimalUca | cacti/Ucache.cc:657-736 | in every mode the selection returns a cheapest organisation of the whole list, if and only if it is not the weighted one, with the head erased and the second strictly the cheapest |
| UcaFigures.LeastProduct | cacti/Ucache.cc:675-696 | in modes 1 and 2 no organisation has a smaller product of delay and energy than the result |
| UcaFigures.LeastWeighted | cacti/Ucache.cc:697-729 | if one weight alone is positive, no admissible organisation looked at has less of its figure than the result |
| UcaFigures.LeastTag | cacti/Ucache.cc:754-783 | if one weight alone is positive, no admissible tag array has less of its figure than the one that remains |
| UcaLimits.WeightedSolveOverlooksSecond | cacti/Ucache.cc:715-721 | a run on three partitions in which, on any number of threads, solve returns an admissible organisation that costs more than another admissible one |
| UcaSolve.SweepAll | cacti/Ucache.cc:862-951 | the merged list is the stable sort of what the threads deliver in turn, all valid positions once, and the reduced minima are those of its elements |
| UcaSolve.BuildOrganisations | cacti/Ucache.cc:968-1012 | one organisation for each data array that is left, combined with the tag array if there is one, with the minima over all of them; the scratch element is dropped |
| UcaSolve.OrgPositive | cacti/cacti_interface.cc:69-162 | positive figures of tag and data array give positive figures of the organisation, for every kind of access |
| UcaFigures.OrgFigures | cacti/cacti_interface.cc:69-162 | fast access takes the greater of both delays, sequential access their sum, normal access waits for way select or bitlines and then for the output; energies and leakages add up, the height is the greater one, the widths add up, the slower array sets the cycle time |
| UcaFigures.ResultCombines | cacti/Ucache.cc:968-1012 | what solve returns has those figures, for a swept data array and, if the job asks for tags, a swept tag array |
| UcaSolve.FindPartner | cacti/Ucache.cc:883-966 | the sweep over tag arrays leaves the last of the cheapest admissible ones, or none |
| UcaSolve.CostIsOrderIndependent | cacti/Ucache.cc:953-1016 | whatever order the data arrays arrive in, the organisations selected by an energy-delay product cost the same |
| UcaSolve.ThreadCountIsIrrelevant | cacti/Ucache.cc:835-1016 | if tied data arrays agree, and tied tag arrays agree or ignore Ndcm, solve returns the same organisation on any two numbers of threads, in every mode and with or without tags |
| UcaSolve.AnswersAgree | cacti/parameter.cc:2045-2079 | hence always, for the two ways in which calculate_time treats Ndcm |
| UcaSolve.ThreadCountKeepsCost | cacti/Ucache.cc:835-1016 | for plain arrays and an energy-delay product the cost of the result never depends on the number of threads |
| UcaSolve.Solve | cacti/Ucache.cc:835-1016 | solve selects, in the configured mode, among the data arrays that pass the filter, each with the tag array that is left |
| UcaSolve.OutcomeIsCheapestIff | cacti/Ucache.cc:960-1016 | what solve returns is a cheapest organisation of those that reach the selection, if and only if the second one is not hidden |
| UcaLimits.FilterKeepsOptimumIff | cacti/Ucache.cc:811-812 | in modes 1 and 2, with any tag partner or none: the result has the least product over all arrays, the deleted ones included, if and only if some array of least product is at most half above the least delay or at most half above the least energy |
| UcaLimits.SolveFindsOptimumIff | cacti/Ucache.cc:835-1016 | the same for a run of solve on any number of threads, over all valid partitions |
| UcaLimits.FilterIsHarmlessWithin | cacti/Ucache.cc:811-812 | for plain arrays it suffices that a kept array has a product of at most 2.25 (3.375) times that of the minima |
| UcaLimits.SolveLosesOptimum | cacti/Ucache.cc:811-812 | a job with three partitions for which solve, on any number of threads, returns a product of 100 although 2.56 was available |
| Nuca.SumRow | cacti/nuca.cc:290-304 | the inner loop over one row of banks |
| Nuca.SumHops | cacti/nuca.cc:287-305 | the hops summed over an r by c grid are r c (c - 1) / 2 horizontal and c r (r + 1) / 2 vertical |
| Nuca.AveragesInClosedForm | cacti/nuca.cc:306-309 | the average hop count is (r + c) / 2 and the average latency (ver (r - 1) + hor (c - 1)) / 2 |
| Nuca.MeasureGrid | cacti/nuca.cc:277-314 | the access latency of a grid, computed bank by bank, has its closed form |
| Nuca.LatencyGrows | cacti/nuca.cc:286-314 | one bank takes two router delays and its own; a further row adds a vertical hop and a router, a further column a horizontal hop and a router |
| Nuca.NextDivisor | cacti/nuca.cc:276 | the inner loop stops at the next divisor |
| Nuca.GridSearch | cacti/nuca.cc:275-347 | the loop visits exactly the divisors of the bank count, ascending, and records the best |
| Nuca.GridOptimum | cacti/nuca.cc:332-342 | the recorded grid is the fastest factorisation of the bank count, with the fewest columns among equals |
| Nuca.BankSize.ScaleForAssociativity | cacti/nuca.cc:202-208 | for a power of two the loop ends and scales the bank size by half the associativity |
| Nuca.BankLoopEnds | cacti/nuca.cc:202-208 | the loop variable comes to the associativity after some number of turns if and only if is_pow2 accepts it |
| Nuca.FindOptimalNuca | cacti/nuca.cc:490-569 | in modes 1 and 2 the first of the cheapest organisations; weighted, a cheapest one of the whole list if and only if it is not so that the head is rejected and the second strictly the cheapest; what is left on the list |
| Nuca.NucaLeastProduct | cacti/nuca.cc:522-540 | in modes 1 and 2 no organisation has a smaller product of delay and energy than the result |
| Nuca.NucaLeastWeighted | cacti/nuca.cc:545-562 | if one weight alone is positive, no admissible organisation looked at has less of its figure than the result |
| Nuca.RejectedHeadHidesSecond | cacti/nuca.cc:561-565 | three organisations that differ in router alone: the rejected first one hides the admissible second one, and nothing is returned |
| Htree.HalvingSumTerms | cacti/htree2.cc:323-359 | the k-th wire of a direction has length x / 2^k |
| Htree.GrowthCarry | cacti/htree2.cc:366-369 | one iteration's doublings and the growth of the remaining tree make up the growth of the whole |
| Htree.CarriedIsLinkSum | cacti/htree2.cc:361-418 | what the loop accumulates with the bandwidth is a sum over the links: link i has length x / 2^i and carries the initial bandwidth times an explicit power of two, and a vertical link that follows a horizontal one counts twice for leakage |
| Htree.IterationKeepsTotals | cacti/htree2.cc:317-433 | an iteration on any of the three branches leaves the expected totals of the whole tree unchanged |
| Htree.Tree.FirstWire | cacti/htree2.cc:361-369 | the first level of an iteration |
| Htree.Tree.SecondWire | cacti/htree2.cc:402-418 | the second level of an iteration |
| Htree.Tree.Level | cacti/htree2.cc:317-433 | one iteration; its assertion that no horizontal link is left holds |
| Htree.Tree.Traverse | cacti/htree2.cc:519-634 | the loop runs max(h, v) times and ends with the expected totals |
| Htree.Tree.InHtree | cacti/htree2.cc:252-438 | area, final bandwidth, wire delay, read and search energy and leakage of both kinds, each as a sum over the links, for every shape of tree |
| Htree.Tree.OutHtree | cacti/htree2.cc:454-639 | the same totals for the output tree, with the search energy of the initial bandwidth on every link |
| Htree.SearchAgainstRead | cacti/htree2.cc:363-537 | in an output tree, and between banks, the search energy is the read energy of all bits; in an input tree it is never less |
| Htree.TraversalsAgree | cacti/htree2.cc:252-639 | input and output trees of equal parameters agree in area, bandwidth, wire delay, read energy and leakage of both kinds |
| Htree.HorizontalFirst | cacti/htree2.cc:321-369 | with more horizontal than vertical links left, the totals are those of one horizontal wire and of the rest at half the length, at twice the bandwidth in a search tree alone |
| Htree.VerticalFirst | cacti/htree2.cc:344-369 | with vertical links alone, those of one vertical wire and of the rest at half the height, at twice the bandwidth unless it is a plain tree between banks |
| Htree.BothFirst | cacti/htree2.cc:330-418 | otherwise those of a horizontal wire, of a vertical wire with twice its leakage, and of the rest |
| Htree.OneLinkEach | cacti/htree2.cc:252-639 | all totals of a tree with one link of each direction, for either traversal |
| Htree.OneLinkOnly | cacti/htree2.cc:262-263 | ndwl gives the horizontal links and ndbl the vertical ones |
| Htree.FinalBandwidth | cacti/htree2.cc:262-263 | for powers of two the bandwidth of a bank grows by ndbl / 2, or in a search tree by (ndwl / 2) (ndbl / 2); between banks it stays, or grows by the greater of both |
| BasicCircuit.ComputeLog2 | cacti/basic_circuit.cc:41-58 | the halving loop computes the floor of the binary logarithm |
| BasicCircuit.Log2IsFloor | cacti/basic_circuit.cc:41-58 | that exponent is the only one with 2^k <= num < 2^(k+1) |
| BasicCircuit.IsPow2Correct | cacti/basic_circuit.cc:61-75 | is_pow2 accepts exactly the powers of two |
| BasicCircuit.Factorial | cacti/basic_circuit.cc:423-429 | the loop computes m * ... * n, but m when n < m |
| BasicCircuit.ProductIsChooseTimesFactorial | cacti/basic_circuit.cc:431-436 | (m + 1) ... n is C(n, m) times (n - m)!, so the division is exact |
| BasicCircuit.Combination | cacti/basic_circuit.cc:431-436 | combination is the binomial coefficient if and only if m < n or both are 0, and m + 1 otherwise |

## Left out

- MemCad.SortByFigures: sorts by the exact order, because the comparison with tolerance is no order; where the tolerance decides nothing the result is ordered by the comparison too.
- ThreadOrder.ThreadsAgreeIff: assumes that no valid partition has Ndwl = Ndbl = Ndcm = 1, which calculate_time refuses (cacti/parameter.cc:1582, 1737, 1904); MergedAgree does not.
- UcaSolve.FindPartner: filters the tag arrays before the data arrays are swept, and gives each sweep thread objects of its own; solve filters them afterwards and reuses the objects, whose other minima each sweep leaves alone.
- Htree.Tree.Level: does not add the delay and power of the gates between wires (input_nand, output_buffer), which differ between the two trees; trees between banks have none.
- Channels.MakeChannel: takes the energy from an arbitrary function instead of the tables in calc_power; read and write energies are not kept apart.
- A BoB count of zero, for which find_mems_recursive does not terminate, and the mode without mirroring or common bandwidth, which fails an assertion, are excluded by preconditions.
- force_cache_config and the early exits for 3D memories in the sweep.
- The mechanics of pthreads; threads are independent runs on disjoint data, joined before the merge.
- calculate_time and all circuit formulas, which are arbitrary functions.
- The contention tables, router and wire models, areas and powers in sim_nuca.
- Nuca.FindOptimalNuca: requires positive minima, so the division by a zero leakage minimum and its repair after the first candidate are not modelled.
- The lengths of the H-tree wires as computed from the array dimensions.
- Machine arithmetic: integers are unbounded and reals exact, so overflow and rounding do not occur.
- Parsing, printing, deallocation and the verbose listings.
