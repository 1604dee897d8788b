# inbreeding, modelled in Dafny

`inbreeding` is a forward simulator for partially selfing diploid
populations, built on simuPOP. It runs three sexual systems:
pure hermaphroditism, androdioecy and gynodioecy. A share `s*` of the
offspring comes from selfing, and each offspring records in its
`self_gen` field how many generations its line has selfed since the last
outcrossing. Mutation follows an infinite-alleles or an infinite-sites
model. Post-processing scripts turn simulation output into samples in
PHASE, RMES, NEXUS, JSON and TSV form.

This project models the parts of the simulator that can be stated
exactly, and proves properties of them:

- the infinite-sites site allocator and mutator (`InfiniteSites`);
- the infinite-alleles mutator and its snapshot rows (`InfiniteAlleles`);
- the parent choosers (`ParentChoice`) over a supplied random stream (`Draws`);
- the `self_gen` taggers (`Tagging`);
- the chromosome and sex layout (`Layout`);
- the sample containers and their text formats (`SampleData`, `SampleFormats`, `Tsv`, `Json`);
- the genotype coding of `pop2phase` (`Pop2Phase`);
- the configuration readers of `selfingsim/simulate.py` and `main.py` (`SimConfig`, `MainConfig`);
- the sample scripts `gensamples` and `p2rmes` (`GenSamples`, `P2Rmes`);
- the column ranges of the trajectory plot (`Trajectory`);
- the counting parts of `summarize` (`Summarize`);
- the file names of the `sample` command (`SampleNames`);
- `chunks` and the mode choice (`Utility`).

The shared modules are `Wrappers` and `Text`:

- `Wrappers` holds `Option`, `Result` and the Python exception kinds.
- `Text` holds Python's string operations: `split`, `strip`, `join`, `str(int)` and `int(str)`.

Randomness is an input. The random number generator is a class that
holds two finite streams, the uniform values and the raw integer words.
`randInt(n)` yields the next word modulo `n`. Every property is about
which values can appear, never about their distribution.

## Model

| member | source | states |
|---|---|---|
| Utility.ChunksOf | src/utility.py:56-59 | A zero step raises `ValueError`, a negative step yields no chunk, and a positive step gives the slices `l[i:i+n]` |
| Utility.ChunksFlatten | src/utility.py:58-59 | The chunks concatenate back to the list |
| Utility.ChunksCount | src/utility.py:58 | There are ceil(len(l)/n) chunks: the least c with len(l) <= c*n |
| Utility.ChunksSizes | src/utility.py:58-59 | Every chunk but the last has n elements; the last has 1 to n |
| Utility.ChunkAt | src/utility.py:58-59 | On m blocks of n elements, chunk k is exactly the sites k*n .. (k+1)*n-1 |
| Utility.Contains | src/utility.py:38 | `in` on a dictionary tests its keys; on anything but a dictionary, list or string it raises `TypeError` |
| Utility.ModeOfDictionary | src/utility.py:33-42 | The mode is infinite-alleles exactly when `mode` is bound to `"infinite-alleles"`; otherwise, including a missing key, it is infinite-sites |
| Utility.ModeOfList | src/utility.py:38 | A list that holds `"mode"` passes the membership test and then fails on indexing with `TypeError` |
| Utility.ModeExamples | src/utility.py:33-42 | The dictionary cases of the mode test: infinite-sites, infinite-alleles, and a null mode read as infinite-sites |
| Draws.Rng.RandUniform | selfingsim/common.py:37 | Consumes exactly the next uniform value and leaves the integer stream unchanged |
| Draws.Rng.RandInt | selfingsim/common.py:38 | Yields the next word modulo n, which lies in 0..n-1; an empty range consumes nothing |
| Draws.Rng.constructor | selfingsim/common.py:37-38 | The generator starts with the given streams of uniforms and words |
| ParentChoice.Redraw | selfingsim/common.py:49-50 | The redraw loop stops at the first word that differs from the first index, and every word before it equals that index |
| ParentChoice.PairSpec | partial_selfing/common.py:55-60 | A pair exists only when n > 1; its indices lie in [0, n) and differ; the first is the first draw; the remaining words are a suffix of the stream |
| ParentChoice.RedrawAt | selfingsim/common.py:49-50 | The redraw result is the first word that differs, found at its position |
| ParentChoice.DistinctPair | partial_selfing/common.py:55-60 | The retry loop yields exactly the pair of `PairSpec` and consumes exactly the words it read |
| ParentChoice.ExtractSound | selfingsim/common.py:75-76 | Every entry of a role view is an individual of that sex |
| ParentChoice.ExtractComplete | selfingsim/common.py:75-76 | Every individual of a sex appears in its view |
| ParentChoice.ExtractAscending | selfingsim/common.py:75-76 | A view lists its individuals in ascending order |
| ParentChoice.ExtractMembers | selfingsim/common.py:107-108 | A view holds exactly the individuals of its sex, in ascending order |
| ParentChoice.HermSpec | selfingsim/common.py:43-51 | Below `sstar` one index `word % N`; otherwise two distinct indices in [0, N), of which only the second is redrawn; one uniform value per resumption |
| ParentChoice.AndroSpec | selfingsim/common.py:80-83 | A single parent is a hermaphrodite, and only when the draw is below `sstar`; a pair is a male and then a hermaphrodite |
| ParentChoice.GynoSpec | selfingsim/common.py:112-121 | A single parent is a hermaphrodite exactly when the draw is below `sstar`. In a pair the first is a hermaphrodite. The second is a hermaphrodite when the second draw is below `H`, and otherwise a female |
| ParentChoice.GynoRoles | selfingsim/common.py:112-121 | In terms of the population's sexes: a female never appears alone, and the pair of hermaphrodites drawn below `H` is two different individuals |
| ParentChoice.AndroRoles | selfingsim/common.py:80-83 | In terms of the population's sexes: a single parent is coded `FEMALE` (a hermaphrodite), and a pair is a `MALE` and then a `FEMALE` |
| ParentChoice.HermChooser.Next | selfingsim/common.py:39-51 | One resumption of the generator consumes the streams exactly as `HermSpec` says and yields its choice |
| ParentChoice.PairChooser.Next | partial_selfing/common.py:48-60 | Yields only pairs of distinct indices in [0, n), and leaves the uniform stream unchanged |
| ParentChoice.RoleChooser.Next | selfingsim/common.py:62-83 | The views are re-extracted only when the generation counter changes, so every draw of one generation uses the same views; the choice follows `AndroSpec` or `GynoSpec` on the cached views |
| ParentChoice.RoleChooser.constructor | selfingsim/common.py:98 | The counter starts at -1, so the first resumption extracts the views |
| Tagging.Record | selfingsim/common.py:138-147 | Writes the offspring's tag only: 0 with a `mom` and `dad`'s tag + 1 without one (mixed); `dad` + 1 whatever `mom` is (selfing tagger); 0 (outcrossing tagger); always returns true |
| Tagging.Generation | partial_selfing/common.py:76-83 | One generation gives one tag per offspring, each computed from its own parents |
| Tagging.OutcrossingZeroes | partial_selfing/common.py:99-106 | After one or more generations of the outcrossing tagger every tag is 0 |
| Tagging.SelfingCounts | partial_selfing/common.py:76-83 | Each generation of the selfing tagger adds exactly one to tags that all start equal |
| Tagging.TenOutcrossing | partial_selfing/test/test_record_selfing_infinite_sites.py:50-68 | Ten generations of pure outcrossing leave every tag 0 |
| Tagging.TenSelfing | partial_selfing/test/test_record_selfing_infinite_sites.py:70-88 | Ten generations of pure selfing from the initial 0 leave every tag 10 |
| Tagging.SequentialRuns | partial_selfing/test/test_record_selfing_infinite_sites.py:91-165 | A second run re-initialises the tags: selfing after any earlier run counts from 0, and outcrossing after any earlier run ends at 0 |
| Tagging.MixedGeneration | selfingsim/common.py:143-146 | Under the mixed tagger an offspring gets 0 exactly when it has two parents, and its parent's tag + 1 otherwise |
| Tagging.MixedBounded | selfingsim/common.py:143-146 | Under the mixed tagger a tag is never negative and never exceeds the number of generations run |
| Tagging.MixedAgrees | selfingsim/common.py:143-146 | With only single parents the mixed tagger counts like the selfing tagger; with only pairs it writes 0 like the outcrossing tagger |
| Layout.RecLociShape | selfingsim/common.py:225 | There are `loci - 1` recombination points. Point i is the last site of locus i. They strictly increase and lie on the chromosome before its last site |
| Layout.AndroViews | selfingsim/common.py:245 | The androdioecious sex sequence has N entries: the males are the first N-Nh individuals and the hermaphrodites (`FEMALE`) the last Nh |
| Layout.GynoViews | selfingsim/common.py:273 | The gynodioecious sex sequence has N entries: the hermaphrodites (`MALE`) are the first Nh individuals and the females the last N-Nh |
| Layout.TwoRuns | selfingsim/common.py:245 | Two runs of different sexes: each view is exactly the positions of its run |
| Layout.ExtractRun | selfingsim/common.py:245 | Appending a run of one sex extends that sex's view by the run's positions and leaves the other view unchanged |
| Layout.SetUp | selfingsim/common.py:216-289 | Only the pure-hermaphrodite set-up reaches the run, with `loci*allele_length` sites and the recombination points. Androdioecy stops with `NameError` on `sexMode`; gynodioecy stops with `NameError` on `seq_seq` |
| InfiniteSites.ZeroCount | partialSelfing.py:149-154 | Counts the copies that carry allele 0 at a site, which is at most 2N |
| InfiniteSites.MonoFlags | partialSelfing.py:149-155 | One monomorphism flag per site of the range |
| InfiniteSites.MonomorphicSlotsSpec | partialSelfing.py:112-113 | The slots reclaim finds are ascending and distinct, lie in [0, allele_len), and are exactly the slots whose zero count is 0 or 2N |
| InfiniteSites.TrueIndicesSound | partialSelfing.py:113 | Every index the comprehension lists is a flagged position |
| InfiniteSites.TrueIndicesSorted | partialSelfing.py:113 | The listed indices strictly increase |
| InfiniteSites.TrueIndicesComplete | partialSelfing.py:113 | Every flagged position is listed |
| InfiniteSites.ReclaimSites | partialSelfing.py:105-123 | A successful reclaim keeps the genotype shape and returns a non-empty pool of distinct slots below allele_len |
| InfiniteSites.ReclaimResets | partialSelfing.py:118-122 | On success the pool is exactly the ascending list of monomorphic slots. Every listed index is set to 0 on both copies of every individual, and every other site keeps its allele |
| InfiniteSites.ReclaimFails | partialSelfing.py:112-116 | Reclaim fails exactly when no site of the locus is monomorphic |
| InfiniteSites.ReclaimMissesOwnSites | partialSelfing.py:118-121 | For a locus other than 0 the reset leaves the locus's own sites untouched, because it writes at the intra-locus index as if it were an absolute site |
| InfiniteSites.Mark | partialSelfing.py:100-101 | A mutation keeps the genotype shape |
| InfiniteSites.MarkOnlyThatSite | partialSelfing.py:100-101 | A mutation sets absolute site `slot + locus*allele_len` to 1 on the chosen copy of the chosen individual, and changes no other gene |
| InfiniteSites.PopRight | partialSelfing.py:89 | `pop()` removes the rightmost index: the pool is the result followed by that index |
| InfiniteSites.PopKeepsPool | partialSelfing.py:89 | Popping keeps the pool's indices distinct and below allele_len, and the index handed out is no longer in the pool |
| InfiniteSites.PoolsUpdate | partialSelfing.py:122 | Replacing one pool by a valid pool keeps every pool valid |
| InfiniteSites.Step | partialSelfing.py:85-101 | One mutation opportunity keeps the genotype shape and the pool invariant. It stops only at its own locus: a missing rate, an exhausted locus, or a locus without a pool |
| InfiniteSites.Mutation | partialSelfing.py:86-101 | A mutation takes the rightmost slot of the locus's pool and reclaims first when the pool is empty or missing; it keeps the shape and the pool invariant |
| InfiniteSites.MutationReclaim | partialSelfing.py:89-96 | With an empty or missing pool: no monomorphic site stops the run with the genotypes and pools unchanged; reclaimed sites for a locus without a pool stop with `IndexError`; otherwise the new pool's rightmost slot is marked |
| InfiniteSites.RunFirst | partialSelfing.py:82-101 | Any prefix of a sweep keeps the genotype shape, the number of pools, and the pool invariant |
| InfiniteSites.Run | partialSelfing.py:82-103 | A whole sweep keeps the genotype shape, the number of pools, and the pool invariant |
| InfiniteSites.RunHaltSticks | partialSelfing.py:96 | Once the run stops, later events change nothing |
| InfiniteSites.HaltedStays | partialSelfing.py:96 | A stopped run stays stopped for one more event |
| InfiniteSites.NoMutationRun | partialSelfing.py:85 | When no draw falls below its locus's rate, a sweep changes nothing |
| InfiniteSites.AllEventsLength | partialSelfing.py:82-85 | A sweep makes exactly one uniform draw per (individual, locus, copy) |
| InfiniteSites.AllEventsComplete | partialSelfing.py:82-84 | Every (individual, locus, copy) opportunity occurs in the sweep |
| InfiniteSites.AllEventsSorted | partialSelfing.py:82-84 | The sweep visits individuals, then loci, then copies, in ascending order |
| InfiniteSites.LocusEventsSorted | partialSelfing.py:83-84 | One individual's opportunities are in (locus, copy) order |
| InfiniteSites.LocusEventsAt | partialSelfing.py:83-84 | Opportunity j of one individual is copy j%2 of locus j/2 |
| InfiniteSites.IndividualEvents | partialSelfing.py:82-84 | Individual i's 2*num_loci opportunities sit together, right after those of the individuals before it |
| InfiniteSites.Population.SetAllele | partialSelfing.py:101 | `setAllele` changes exactly one gene of one copy of one individual |
| InfiniteSites.InfSiteMutator.constructor | partialSelfing.py:71-76 | Every replicate gets exactly two pools, whatever `num_loci` is, and each holds 0..allele_len-1 in ascending order |
| InfiniteSites.InfSiteMutator.Reclaim | partialSelfing.py:105-123 | Reports failure exactly when no site is monomorphic, and then leaves the genotypes and pools untouched. On success it resets the sites and replaces only this replicate's pool for this locus. A locus without a pool raises after the reset |
| InfiniteSites.InfSiteMutator.TakeSlot | partialSelfing.py:89-101 | Pops the rightmost slot of a non-empty pool, marks it, and changes no other pool |
| InfiniteSites.InfSiteMutator.ReclaimAndTake | partialSelfing.py:90-96 | With an empty pool, does exactly what `Mutation` says |
| InfiniteSites.InfSiteMutator.MutateSlot | partialSelfing.py:86-101 | Does exactly what `Mutation` says to this replicate's genotypes and pools |
| InfiniteSites.InfSiteMutator.MutateCopy | partialSelfing.py:85-101 | Does exactly what `Step` says for one draw |
| InfiniteSites.InfSiteMutator.MutateNext | partialSelfing.py:84-101 | Carries the run of the first k events to k+1 |
| InfiniteSites.InfSiteMutator.MutateLocus | partialSelfing.py:84-101 | The copy loop of one locus advances the run by two events, or stops it |
| InfiniteSites.InfSiteMutator.MutateIndividual | partialSelfing.py:83-101 | The locus loop of one individual advances the run by 2*num_loci events, or stops it |
| InfiniteSites.InfSiteMutator.MutateAll | partialSelfing.py:82-101 | The individual loop runs the whole sweep or stops at the first halt; other replicates' pools are untouched |
| InfiniteSites.InfSiteMutator.Mutate | partialSelfing.py:78-103 | `mutate` leaves this replicate's genotypes and pools exactly as `Run` over the ordered sweep says, and the pools of other replicates unchanged. Stopping reports the locus and the reason |
| InfiniteSites.Slots | partialSelfing.py:75 | `deque(range(allele_len))` holds 0..allele_len-1 in order and is a valid pool |
| InfiniteSites.SegregatingCountsSpec | partialSelfing.py:158-161 | One count per locus. Each count is allele_len minus the number of monomorphic sites, so at most allele_len. A zero allele_len raises `ValueError` |
| InfiniteSites.CountFalseTrueIndices | partialSelfing.py:161 | The unset flags and the listed set flags together make up all the flags |
| InfiniteSites.HetCount | partialSelfing.py:140-146 | At most one heterozygote per individual: the count is at most N |
| InfiniteSites.HetCountNext | partialSelfing.py:144-146 | Counting one more individual adds one exactly when its two chunks differ |
| InfiniteSites.HeterozygoteCounts | partialSelfing.py:135-147 | One count per locus: the number of individuals whose two chunks differ. A zero allele_len fails only once there is an individual |
| InfiniteSites.ChunkCount | partialSelfing.py:141-144 | A chromosome of num_loci*allele_len sites has num_loci chunks |
| InfiniteAlleles.SetGene | partial_selfing/infinite_alleles.py:65 | `setAllele` writes one gene and leaves every other gene of every individual unchanged |
| InfiniteAlleles.Step | partial_selfing/infinite_alleles.py:64-66 | One opportunity keeps the genotype shape and the one-counter-per-locus table |
| InfiniteAlleles.RunTo | partial_selfing/infinite_alleles.py:61-66 | Any prefix of a pass keeps the genotype shape and the counter table |
| InfiniteAlleles.PassLength | partial_selfing/infinite_alleles.py:61-64 | A pass stops no later than the end of the sweep |
| InfiniteAlleles.EarlyPass | partial_selfing/infinite_alleles.py:62-64 | With fewer rates than loci, a pass over a non-empty population stops at the first individual, once its rates run out |
| InfiniteAlleles.Population.SetAllele | partial_selfing/infinite_alleles.py:65 | Changes exactly the gene `SetGene` names |
| InfiniteAlleles.AlleleMutator.constructor | partial_selfing/infinite_alleles.py:47-48 | Each replicate owns its own list of per-locus counters, each set to `new_idx` |
| InfiniteAlleles.AlleleMutator.Mutate | partial_selfing/infinite_alleles.py:53-67 | One pass leaves this replicate's genotypes and counters exactly as the ordered run says, and the other replicates' counters unchanged. It raises `IndexError` exactly when the population is non-empty and there are fewer rates than loci |
| InfiniteAlleles.AlleleMutator.MutateIndividual | partial_selfing/infinite_alleles.py:62-66 | The locus loop of one individual advances the run by 2*num_loci events, or by 2*len(mu) before raising `IndexError` |
| InfiniteAlleles.AlleleMutator.MutateLocus | partial_selfing/infinite_alleles.py:63-66 | The copy loop of one locus advances the run by two events |
| InfiniteAlleles.AlleleMutator.MutateGene | partial_selfing/infinite_alleles.py:64-66 | One draw does exactly what `Step` says |
| InfiniteAlleles.CounterCount | partial_selfing/infinite_alleles.py:64-66 | A counter grows by exactly the number of mutations at its locus |
| InfiniteAlleles.CountersGrow | partial_selfing/infinite_alleles.py:66 | Counters never decrease |
| InfiniteAlleles.WrittenValue | partial_selfing/infinite_alleles.py:65-66 | A mutation writes the counter's current value and then increments that counter by exactly one |
| InfiniteAlleles.ValuesIncrease | partial_selfing/infinite_alleles.py:64-66 | Values written at one locus strictly increase in draw order, so they are pairwise distinct |
| InfiniteAlleles.FreshOrInitial | partial_selfing/infinite_alleles.py:48-66 | Every gene either keeps its initial allele or holds a value between the starting counter and the current counter |
| InfiniteAlleles.UntouchedGene | partial_selfing/infinite_alleles.py:64 | A gene whose draws never fall below the rate keeps its allele |
| InfiniteAlleles.NewAllelesAreNew | partial_selfing/infinite_alleles.py:48-66 | When every initial allele lies below the counter, no mutated gene equals any initial allele at that locus |
| InfiniteAlleles.Numbers | partial_selfing/infinite_alleles.py:36 | The numbers of a JSON list exist exactly when every item is a number |
| InfiniteAlleles.ByFreq | partial_selfing/infinite_alleles.py:35-37 | A successful call draws by proportion |
| InfiniteAlleles.ByFreqZeroSum | partial_selfing/infinite_alleles.py:35-37 | A list of numbers fails exactly when it is non-empty and sums to zero, with `ZeroDivisionError`; otherwise there is one proportion per frequency |
| InfiniteAlleles.ByFreqProportions | partial_selfing/infinite_alleles.py:35-37 | With a `float` among the frequencies, proportion k times the sum is `freq[k]` and the proportions add up to 1. With integers only, Python 2's `/` floors: proportion k is the whole number at or just below `freq[k] / sum` |
| InfiniteAlleles.ByFreqTypeError | partial_selfing/infinite_alleles.py:35-36 | Anything but an iterable of numbers makes `sum` raise `TypeError` |
| InfiniteAlleles.ByFreqExamples | partial_selfing/infinite_alleles.py:35-37 | Frequencies `[1, 3]` give `[0, 0]` under floor division, and `[1.0, 3]` give `[0.25, 0.75]` |
| InfiniteAlleles.NextIdxAboveInitial | partial_selfing/infinite_alleles.py:139-150 | As written, a successful choice always draws by proportion from `init['freq']`, whatever the count says, under a model other than `monomorphic` and `unique`; `next_idx` is `len(freq)`, above every allele the initial genotypes can hold |
| InfiniteAlleles.InitOperatorFails | partial_selfing/infinite_alleles.py:139-150 | As written, the choice fails exactly when `model` is missing, when it is `monomorphic` or `unique` (`AttributeError`, as `partial_selfing.common` has no `get_init_genotype_by_count`), or when `freq` is missing or unusable |
| InfiniteAlleles.IntendedNextIdx | partial_selfing/infinite_alleles.py:139-150 | With the counting helper the calls are written for, `next_idx` is the number of initial alleles, above every allele the initial genotypes can hold: 1 for `monomorphic`, 2N for `unique`, the count, or else `len(freq)` |
| InfiniteAlleles.CountIgnored | partial_selfing/infinite_alleles.py:139-150 | `{"model": "x", "count": 5}` raises `KeyError('freq')` as written but gives five alleles as intended; `monomorphic` raises `AttributeError` but means one allele |
| InfiniteAlleles.RangeAt | partial_selfing/infinite_alleles.py:99 | Element i of `range(start, stop, step)` is start + i*step, which lies below stop |
| InfiniteAlleles.RangeHas | partial_selfing/infinite_alleles.py:99 | Every start + k*step below stop is in the range |
| InfiniteAlleles.SnapshotsAt | partial_selfing/infinite_alleles.py:98-100 | With `output_per > 0` a snapshot is taken exactly at burnin + k*output_per for each k >= 0 with k*output_per < gens |
| InfiniteAlleles.SnapshotRows | partial_selfing/infinite_alleles.py:125-131 | Two rows per individual, copy 0 then copy 1, each `[rep, gen - burnin, idx, tag, copy]` followed by that copy's genotype |
| SampleData.NewSample | selfingsim/data.py:48-53 | A sample keeps its source, ids, genotypes and tags, and takes its number of loci from the first genotype; without genotypes the constructor raises `IndexError` |
| SampleData.PyIndex | selfingsim/data.py:100 | Python indexing: valid exactly for -len <= i < len, and a negative index counts from the end |
| SampleData.CountAtLeast | selfingsim/data.py:117 | The count of out-of-range loci is zero exactly when every listed locus is below nloc |
| SampleData.CheckLocs | selfingsim/data.py:104-120 | `None` means all loci 0..nloc-1. Any index >= nloc raises `ValueError`. Otherwise the list comes back unchanged, negative indices included |
| SampleData.Restrict | selfingsim/data.py:100 | Keeping loci succeeds exactly when every index is a valid Python index; locus q of the result is the genotype's locus `locs[q]` |
| SampleData.RestrictAll | selfingsim/data.py:100 | The drawn individuals' genotypes, each restricted to the chosen loci, in draw order |
| SampleData.SubSampleKeeps | selfingsim/data.py:271-283 | A sub-sample keeps the source. Ids, selfing counts (in a `FullSample`) and genotypes come from the same drawn individuals, in draw order, and each genotype holds only the chosen loci |
| SampleData.SubSampleSucceeds | selfingsim/data.py:96-102 | With loci that pass the check, sampling 1..nsam individuals succeeds; sampling none fails in the constructor with `IndexError`; loci that fail the check raise `ValueError` |
| SampleData.Item | selfingsim/data.py:342-344 | `val[i]` gives a list's item or a string's character, `IndexError` past the end, `KeyError` on a dictionary and `TypeError` on anything else |
| SampleData.Len | selfingsim/data.py:53 | `len` counts a list's items or a string's characters, and raises `TypeError` on a number, a boolean or `None` |
| SampleData.Column | selfingsim/data.py:342-344 | A comprehension succeeds exactly when every entry has the item, keeps the items in order, and otherwise reports the first entry's failure |
| SampleData.FromJsonAccepts | selfingsim/data.py:342-345 | `fromjson` accepts exactly a non-empty iterable whose entries all have items 0, 1 and 2, the first entry's item 2 having a length; it keeps the three items of every entry unchecked, in order, and that length as `nloc` |
| SampleData.FromJsonNumeric | selfingsim/data.py:342-345 | Entries with integer ids, tags and alleles, as gensamples writes them, make a sample |
| SampleData.GenesRoundTrip | selfingsim/data.py:352 | Genes written as JSON string pairs read back unchanged |
| SampleData.JsonRoundTrip | selfingsim/data.py:342-354 | `fromjson(tojson(s))` holds the ids as strings, the tags as integers and the genotypes in the written form, each reading back as the original genotype, and keeps `nloc` |
| SampleFormats.GeneFields | selfingsim/data.py:164 | Flattening a genotype gives two fields per locus |
| SampleFormats.Pairs | selfingsim/data.py:151-152 | Pairing consecutive fields gives floor(len/2) loci; an unpaired last field is dropped |
| SampleFormats.PairsOfFields | selfingsim/data.py:152-164 | Pairing the flattened alleles gives the genotype back |
| SampleFormats.WritePhase | selfingsim/data.py:156-167 | `tophase` gives three header lines (nsam, nloc, `M` per locus) and then one line per individual: the id and both alleles of each locus, tab-separated |
| SampleFormats.PhaseRecords | selfingsim/data.py:146-152 | One id and one genotype per line of the body |
| SampleFormats.ReadPhase | selfingsim/data.py:130-154 | `fromphase` reads the lines one at a time and gives exactly `ParsePhase`: the first error stops it |
| SampleFormats.PhaseHeaderRules | selfingsim/data.py:135-141 | The first line is skipped whatever it holds, and a marker line whose length differs from nloc raises `ValueError` |
| SampleFormats.FieldsOfGenotype | selfingsim/data.py:164 | Fields without whitespace stay fields after flattening |
| SampleFormats.PhaseRecordRoundTrip | selfingsim/data.py:147-164 | Reading back an individual's line gives its id and genotype |
| SampleFormats.PhaseRecordsRoundTrip | selfingsim/data.py:146-165 | Reading back the individuals' lines gives the ids and genotypes in order |
| SampleFormats.PhaseRoundTrip | selfingsim/data.py:130-167 | `fromphase(tophase(s))` recovers the ids and the genotypes of every sample whose fields are non-empty and free of whitespace |
| SampleFormats.HetTokens | selfingsim/data.py:406 | One token per locus |
| SampleFormats.HetLineTokens | selfingsim/data.py:406 | An individual's RMES line splits into one token per locus: `1` exactly at heterozygous loci, `0` exactly at homozygous ones |
| SampleFormats.RmesHeaders | selfingsim/data.py:401-402 | Three header lines per sample |
| SampleFormats.HetLines | selfingsim/data.py:405-406 | One line per individual |
| SampleFormats.WriteRmes | selfingsim/data.py:387-408 | `tormes` gives exactly the line layout of `RmesLines` |
| SampleFormats.AppendHeaders | selfingsim/data.py:401-402 | The first loop appends every sample's three header lines |
| SampleFormats.AppendBodies | selfingsim/data.py:404-406 | The second loop appends every sample's individual lines |
| SampleFormats.AppendHetLines | selfingsim/data.py:405-406 | The inner loop appends one line per individual |
| SampleFormats.RmesBodiesAt | selfingsim/data.py:404-406 | Individual i of sample k has its line right after the lines of the samples before it |
| SampleFormats.RmesBodiesLength | selfingsim/data.py:404-406 | There is one body line per individual of all the samples |
| SampleFormats.RmesHeadersAt | selfingsim/data.py:402 | Sample k's header is its source, its size and its number of loci |
| SampleFormats.RmesHeaderLayout | selfingsim/data.py:397-402 | The first line is the number of samples. Then come source, nsam and nloc for each sample. The total is 1 + 3*samples + individuals lines |
| SampleFormats.RmesBodyLayout | selfingsim/data.py:404-406 | After the headers, individual i of sample k has its heterozygosity line at its position |
| SampleFormats.NexusRows | selfingsim/data.py:375-377 | One line per (id, genotype) pair |
| SampleFormats.NexusBlock | selfingsim/data.py:374-381 | A sample's block is its source line, its individuals and one closing line |
| SampleFormats.NexusLines | selfingsim/data.py:356-385 | `tonexus` fails exactly when there is no sample, because it reads the first sample's loci |
| SampleFormats.WriteNexus | selfingsim/data.py:356-385 | Gives exactly the lines of `NexusLines` |
| SampleFormats.AppendBlock | selfingsim/data.py:374-381 | The loop body appends one sample's block |
| SampleFormats.NexusBlocksAt | selfingsim/data.py:373-381 | Each block starts with `source:` and ends with `,`, except the last block, which ends with `;` |
| SampleFormats.NexusBlocksLength | selfingsim/data.py:373-381 | The blocks have the combined length of their parts |
| SampleFormats.NexusLayout | selfingsim/data.py:366-385 | Five header lines, whose third gives npops and the first sample's nloc; each block starts with its source and closes with `,`, or `;` after the last; the final line is `end;` |
| SampleFormats.NexusBlocksRow | selfingsim/data.py:375-377 | Individual i of sample k sits in its block right after the source line |
| SampleFormats.NexusRowLayout | selfingsim/data.py:375-377 | Individual i of sample k has the line of its id and `a<sep>b` tokens at its position |
| Tsv.SelectRows | selfingsim/data.py:304 | The row filter gives exactly `Selected`: the rows of the requested generation, in order, or the first row that cannot be compared with the generation |
| Tsv.SelectedSound | selfingsim/data.py:304 | Every selected row has at least two fields, comes from the table, and has field 1 equal to the generation |
| Tsv.SelectedComplete | selfingsim/data.py:304 | A row that cannot be compared with the generation makes the reading fail; a row of the generation is selected |
| Tsv.Table | selfingsim/data.py:301 | One row per line |
| Tsv.Groups | selfingsim/data.py:312 | `groupby` gives non-empty runs, none exactly when there are no rows, and the last run has the last row's key |
| Tsv.GroupsFlatten | selfingsim/data.py:312 | The runs concatenate back to the rows |
| Tsv.GroupKey | selfingsim/data.py:312 | Every row of a run has the run's replicate key |
| Tsv.GroupsDiffer | selfingsim/data.py:312 | Consecutive runs have different keys, so every run is maximal |
| Tsv.GroupRows | selfingsim/data.py:312 | The grouping loop gives exactly `Groups` |
| Tsv.Zip | selfingsim/data.py:325 | `zip` of two chromosomes gives as many genes as the shorter one has; gene l pairs the two alleles at l |
| Tsv.Paired | selfingsim/data.py:318 | `izip(it, it)` gives floor(len/2) pairs |
| Tsv.PairedAt | selfingsim/data.py:318 | Pair i is rows 2i and 2i+1 of the group |
| Tsv.Records | selfingsim/data.py:318-325 | A group read in full has one id, one selfing count and one genotype per pair |
| Tsv.PairRows | selfingsim/data.py:318-325 | The pair loop gives exactly `Records` |
| Tsv.RecordsAt | selfingsim/data.py:321-325 | Individual i of the group is read from pair i |
| Tsv.RecordsFail | selfingsim/data.py:321-322 | One pair that cannot be read makes the group fail |
| Tsv.RecordsFirstFailure | selfingsim/data.py:318-325 | The group reports the error of its first failing pair |
| Tsv.MismatchedIds | selfingsim/data.py:321-322 | A pair of chromosomes with different individual ids raises `ValueError` |
| Tsv.RecordsSucceed | selfingsim/data.py:318-325 | With every pair readable, the group is read in full |
| Tsv.GroupSampleShape | selfingsim/data.py:312-327 | Every sample read is well formed, comes from the file, and has one selfing count per individual; it holds floor(rows/2) individuals read from its group's rows |
| Tsv.GroupResults | selfingsim/data.py:312-327 | One result per group |
| Tsv.GroupSamplesAt | selfingsim/data.py:312-327 | Sample k is read from group k (one sample per consecutive replicate group), and a group that cannot be read makes the file fail |
| Tsv.SampleGroups | selfingsim/data.py:312-327 | The group loop gives exactly `GroupSamples` |
| Tsv.ReadTsv | selfingsim/data.py:286-329 | `fromtsv` gives exactly `FromTsv`: the header is thrown out, the generation's rows are selected, an odd count is refused, and the groups are read |
| Tsv.OddRowsRefused | selfingsim/data.py:308-309 | An odd number of selected rows raises `ValueError` |
| Tsv.NoRecordedGeneration | selfingsim/data.py:297 | A generation that was not recorded gives an empty list |
| Tsv.CollectAt | selfingsim/data.py:327 | A collection that succeeded holds each result's value in place |
| Tsv.CollectFails | selfingsim/data.py:327 | One failing result makes the collection fail |
| Pop2Phase.Below | inbreeding/pop2phase.py:116-117 | The codes handed out so far are exactly 0..idx-1 |
| Pop2Phase.FreshDense | inbreeding/pop2phase.py:139 | A fresh book `{'idx': 0}` is dense |
| Pop2Phase.EncodeSeen | inbreeding/pop2phase.py:113-118 | A haplotype already seen gets its existing code, and the book is unchanged |
| Pop2Phase.EncodeUnseen | inbreeding/pop2phase.py:103-117 | An unseen haplotype of the right length gets `idx`. The book then records it, `idx` grows by exactly one, and the first haplotype fixes the length |
| Pop2Phase.EncodeWrongLength | inbreeding/pop2phase.py:108-110 | A haplotype whose length differs from the stored length raises `ValueError` and leaves the book alone |
| Pop2Phase.EncodeKeepsDense | inbreeding/pop2phase.py:102-118 | Encoding keeps the book dense: codes are 0..idx-1, each code belongs to one haplotype, and all haplotypes have the stored length. The code returned is the one the book records |
| Pop2Phase.EncodeExample | src/test/pop2phase_test.py:63-70 | The unit test's calls give 0, 1, 2, then 1 and 0 again for repeated haplotypes, and a shorter haplotype fails |
| Pop2Phase.Convert | inbreeding/pop2phase.py:121-123 | `convert_genotype` gives one code per locus |
| Pop2Phase.ConvertAt | inbreeding/pop2phase.py:121-123 | Element k is coded with book k, and book k afterwards is the one that encoding left |
| Pop2Phase.ConvertKeys | inbreeding/pop2phase.py:121-123 | Converting never adds or removes a book |
| Pop2Phase.ConvertOthers | inbreeding/pop2phase.py:121-123 | Books past the genotype's length are untouched |
| Pop2Phase.ConvertStuck | inbreeding/pop2phase.py:122 | Once a locus fails, the conversion ends with that failure |
| Pop2Phase.ConvertMissingBook | inbreeding/pop2phase.py:122 | A locus without a book raises |
| Pop2Phase.FreshBooks | inbreeding/pop2phase.py:139 | One fresh book per individual index 0..pop_size-1 |
| Pop2Phase.LociDict.ConvertGenotype | inbreeding/pop2phase.py:121-123 | Updates the shared books exactly as `Convert` says and returns its codes |
| Pop2Phase.LociDict.constructor | inbreeding/pop2phase.py:139 | The books start as one fresh book per individual |
| Pop2Phase.Interleave | inbreeding/pop2phase.py:146 | `chain(zip(g0, g1))` has two entries per locus pair |
| Pop2Phase.InterleaveAt | inbreeding/pop2phase.py:146 | Entry 2i is copy 0's code of locus i, and entry 2i+1 is copy 1's code |
| Pop2Phase.Rows | inbreeding/pop2phase.py:142-147 | One row per individual |
| Pop2Phase.RowsStuck | inbreeding/pop2phase.py:142-146 | Once an individual fails, the conversion ends with that failure |
| Pop2Phase.CsvRows | inbreeding/pop2phase.py:126-147 | `to_csv` gives one row per individual; zero loci raise `ZeroDivisionError` |
| Pop2Phase.ToCsv | inbreeding/pop2phase.py:139-147 | The individual loop gives exactly `CsvRows` |
| Pop2Phase.AppendRow | inbreeding/pop2phase.py:143-146 | One individual's row updates the shared books as `RowOf` says |
| Pop2Phase.FewerIndividualsThanLoci | inbreeding/pop2phase.py:139-143 | The books are indexed by individual rather than by locus, so one individual with two loci fails with `KeyError` on book 1 |
| Pop2Phase.ChunkExact | src/utility.py:58-59 | A chromosome of two loci makes two chunks |
| Pop2Phase.Strings | inbreeding/pop2phase.py:156 | One field per code |
| Pop2Phase.CsvLines | inbreeding/pop2phase.py:150-156 | `write_csv` writes the number of individuals, then one line per individual |
| Pop2Phase.ParseAllStrings | inbreeding/pop2phase.py:156-171 | Codes written as text read back |
| Pop2Phase.CsvRoundTrip | inbreeding/pop2phase.py:150-156 | The count line and each individual's line read back as written |
| Pop2Phase.Kept | inbreeding/pop2phase.py:194 | `[l for i, l in enumerate(reader) if i in idx]` keeps only the drawn rows, in file order |
| Pop2Phase.KeptComplete | inbreeding/pop2phase.py:194 | Every drawn row that exists is kept |
| Pop2Phase.KeptSorted | inbreeding/pop2phase.py:194 | The kept rows are in ascending file order |
| Pop2Phase.DistinctCard | inbreeding/pop2phase.py:190 | A draw without repetitions has as many elements as its set |
| Pop2Phase.KeptCount | inbreeding/pop2phase.py:190-194 | Drawing k distinct rows keeps exactly k rows |
| Pop2Phase.Picked | inbreeding/pop2phase.py:194 | One kept row per kept index |
| Pop2Phase.Columns | inbreeding/pop2phase.py:199-201 | Two columns per chosen locus |
| Pop2Phase.ColumnsIn | inbreeding/pop2phase.py:200-201 | A column is selected exactly when its locus c/2 was chosen, so both columns 2i and 2i+1 of each chosen locus are selected |
| Pop2Phase.ColumnsSorted | inbreeding/pop2phase.py:201 | The selected columns are in ascending order |
| Pop2Phase.Get | inbreeding/pop2phase.py:201-202 | `itemgetter` succeeds exactly when every column exists, and gives the columns in order |
| Pop2Phase.GetAll | inbreeding/pop2phase.py:202 | The same columns from every row |
| Pop2Phase.SampleLociShape | inbreeding/pop2phase.py:184-203 | With as many rows as the header says, `sample_loci` gives nsample rows, each holding 2*nloci columns |
| Pop2Phase.SampleLociExample | src/test/pop2phase_test.py:90-108 | The unit test's draw of rows 1 and 3 and loci 1 and 3 gives the expected four columns of each |
| Pop2Phase.KeptExample | src/test/pop2phase_test.py:90-108 | The unit test keeps rows 1 and 3 |
| Pop2Phase.PickedExample | src/test/pop2phase_test.py:90-108 | The unit test's kept rows are rows 1 and 3 of its data |
| Pop2Phase.GetExample | src/test/pop2phase_test.py:90-108 | Columns 2, 3, 6 and 7 of those rows are the expected alleles |
| Pop2Phase.ColumnsExample | src/test/pop2phase_test.py:90-108 | The unit test's loci 1 and 3 select columns 2, 3, 6 and 7 |
| Pop2Phase.RandomizeUndone | inbreeding/pop2phase.py:217-223 | `randomize` applies one column permutation to every row: the inverse permutation gives the data back |
| Pop2Phase.ParseList | inbreeding/pop2phase.py:171 | One integer per comma-separated field |
| Pop2Phase.ParseAll | inbreeding/pop2phase.py:171 | Every field reads as its integer |
| Pop2Phase.Extend | inbreeding/pop2phase.py:179-180 | Extending fails exactly when a file gives more rows than there are samples |
| Pop2Phase.Merge | inbreeding/pop2phase.py:176-181 | The merged data has one row per sample |
| Pop2Phase.MergeStuck | inbreeding/pop2phase.py:177-180 | Once a file fails, merging ends with that failure |
| Pop2Phase.MergeRows | inbreeding/pop2phase.py:176-181 | Row i is the concatenation of every file's row i, in file order |
| Pop2Phase.MergeTooMany | inbreeding/pop2phase.py:179-180 | A file with more rows than samples raises `IndexError` |
| Pop2Phase.PhaseRows | inbreeding/pop2phase.py:169-181 | A count of loci fields that differs from the number of files exits the program |
| Pop2Phase.ToPhase | inbreeding/pop2phase.py:169-181 | The file loop gives exactly `PhaseRows` |
| Pop2Phase.ExtendRows | inbreeding/pop2phase.py:179-180 | The extend loop gives exactly `Extend` |
| Pop2Phase.PhaseText | inbreeding/pop2phase.py:206-214 | `write_phase` prints nsample, the total number of loci and one `M` per locus, then line i as `sample_i` and the tab-joined entries |
| Pop2Phase.SampleLines | inbreeding/pop2phase.py:212-214 | One line per sample |
| Pop2Phase.PhaseLineWords | inbreeding/pop2phase.py:213-214 | A sample line splits back into the sample's name and its entries |
| SimConfig.AsInt | selfingsim/simulate.py:104 | A JSON value counts as a Python `int` exactly when it is an integer or a boolean |
| SimConfig.Mul | selfingsim/simulate.py:77-87 | `*` succeeds exactly on two numbers, or on an integer and a string or a list; numbers give their product, and a string or a list is repeated that many times. Anything else raises `TypeError` |
| SimConfig.StringGens | selfingsim/simulate.py:77 | With `N` 10 and `gens` "5" the stored value is ten fives |
| Text.Times | selfingsim/simulate.py:77 | `s * n` is `n` copies of `s` end to end, empty for `n` <= 0: its length is `n * len(s)`, it starts with `s` and repeats with period `len(s)` |
| SimConfig.RealOfProduct | selfingsim/simulate.py:77-78 | An integer product, read as a real, is the product of the reals |
| SimConfig.Div | selfingsim/simulate.py:166-173 | A successful `/` has a non-zero numeric divisor and gives the real quotient |
| SimConfig.UnscaleValue | selfingsim/simulate.py:166 | A rate is unscaled as `rate / (4 * npop)` |
| SimConfig.IndexOf | selfingsim/simulate.py:76 | The first occurrence of a character in the name template |
| SimConfig.Prepend | selfingsim/simulate.py:76 | Literal text before a field passes through a formatting failure unchanged |
| SimConfig.Format | selfingsim/simulate.py:76 | `x.format(...)` on a value that is not a string raises `AttributeError` |
| SimConfig.FormatPlain | selfingsim/simulate.py:76 | A template without braces is copied unchanged |
| SimConfig.FormatOneField | selfingsim/simulate.py:76 | One `{}` is replaced by the first substitution. Without substitutions, `IndexError` is raised |
| SimConfig.FormatPrefix | selfingsim/simulate.py:76 | Literal text in front of a template is kept in front of its result |
| Text.Replace | selfingsim/simulate.py:127 | `replace` of one character by another keeps the length, leaves none of the replaced character and keeps every other character |
| SimConfig.UnderscoredPlain | selfingsim/simulate.py:127 | A key without spaces is stored under its own name |
| SimConfig.KeysWithoutSpaces | selfingsim/simulate.py:73-79 | The simple settings are stored under their own names |
| SimConfig.Get2 | selfingsim/simulate.py:130-132 | `cobj[sec][key]` succeeds exactly when both keys exist |
| SimConfig.Catch | selfingsim/simulate.py:133-159 | Only a `KeyError` becomes the program's exit, carrying the given message. Any other result passes through |
| SimConfig.AddParam | selfingsim/simulate.py:123-134 | On success, exactly one key (the underscored one) is added or replaced, holding `mod(cobj[sec][key])`. Every other setting is kept |
| SimConfig.AddParamOutcome | selfingsim/simulate.py:123-134 | A missing section or key ends the program with `"<key>" not found in a config file.`. Otherwise the modified value is stored, or the modifier's failure is passed on |
| SimConfig.ExpandConcat | selfingsim/simulate.py:168-170 | The per-entry expansion of a rate list distributes over concatenation |
| SimConfig.ExpandLength | selfingsim/simulate.py:168-170 | An expanded rate list has one rate per `times` repetition, summed over the entries |
| SimConfig.EntryCopies | selfingsim/simulate.py:168-170 | `{value, times: n}` gives n copies of `value / (4 * npop)` |
| SimConfig.Copies | selfingsim/simulate.py:166 | `[m] * k` is k copies of m, none for a negative k, and fails when k is not an integer |
| SimConfig.UnscaleAll | selfingsim/simulate.py:173 | A list of rates is unscaled element by element |
| SimConfig.MutationRates | selfingsim/simulate.py:161-177 | `_getmutationrate`: an empty list raises `IndexError`, and a value that is neither a float nor a list ends the program. On success, only `m` is set, to the rates `RateListLength` and `ScalarRate` describe |
| SimConfig.ScalarRate | selfingsim/simulate.py:165-166 | A single `theta` gives `loci` copies of `theta / (4N)` |
| SimConfig.RateListLength | selfingsim/simulate.py:171-175 | A float list whose length differs from `loci` under Python's numeric `==` ends the program. One of equal length succeeds exactly when every rate unscales, and then rate k is `rates[k] / (4N)` |
| SimConfig.NumericLoci | selfingsim/simulate.py:171-173 | `loci` 3.0 accepts three rates and `True` accepts one |
| SimConfig.AddMutationOutcome | selfingsim/simulate.py:136-159 | A configured mutation model is one of the two names. Infinite alleles has allele length 1, infinite sites the configured `allele length`, and `m` is the unscaled `theta` |
| SimConfig.UnknownMutationModel | selfingsim/simulate.py:156-157 | Any other model name ends the program |
| SimConfig.AddMatingModel | selfingsim/simulate.py:179-201 | A configured mating model is stored as given and is one of the three names. Any other name ends the program |
| SimConfig.GynodioecyKeeps | selfingsim/simulate.py:214-222 | Gynodioecy touches only its own keys |
| SimConfig.GynodioecyChoice | selfingsim/simulate.py:214-222 | `N_hermaphrodites` is always copied. With `s*` and `H` both are copied; without `s*`, `tau`, `a` and `sigma` are copied and no `sstar` is added |
| SimConfig.AllNonNegativeSound | selfingsim/simulate.py:108 | When `all(i >= 0.0 ...)` holds, every count is a non-negative number |
| SimConfig.AllNonNegativeTrue | selfingsim/simulate.py:108 | Non-negative numbers pass the test |
| SimConfig.NegativeFound | selfingsim/simulate.py:108 | A negative number behind only non-negative ones fails the test |
| SimConfig.AddInitGenotype | selfingsim/simulate.py:97-121 | On success, exactly `initial_genotype` is set |
| SimConfig.InitFrequencies | selfingsim/simulate.py:107-113 | Non-negative counts with a non-zero sum become `["frequency", [i / norm ...]]`, one frequency per count |
| SimConfig.InitNegative | selfingsim/simulate.py:114-119 | A negative count ends the program |
| SimConfig.InitScalar | selfingsim/simulate.py:120-121 | A scalar that is not a positive integer or one of the two names ends the program as an unknown init |
| SimConfig.BasicParams | selfingsim/simulate.py:73-76 | `N` is stored as configured |
| SimConfig.SimpleParams | selfingsim/simulate.py:73-79 | The simple settings hold `N`, `gens` and `burnin` |
| SimConfig.SimpleParamsValues | selfingsim/simulate.py:73-78 | `gens` and `burnin` are `N` times the configured values |
| SimConfig.Scaled | selfingsim/simulate.py:73-87 | The scaled settings include `output_per` |
| SimConfig.ScaledValues | selfingsim/simulate.py:83-87 | `output_per` is `N` times `output per` when that is given, otherwise `N` times the scaled `gens` times the scaled `burnin` |
| SimConfig.SetupScales | selfingsim/simulate.py:70-95 | A loaded configuration holds the scaled settings as configured |
| SimConfig.KeepsScaled | selfingsim/simulate.py:91-95 | Later steps that keep the four scaled keys keep the scaled settings |
| SimConfig.SetupKeepsScaled | selfingsim/simulate.py:91-95 | The mating, mutation and init steps never overwrite `N`, `gens`, `burnin` or `output_per` |
| SimConfig.SetupStages | selfingsim/simulate.py:70-95 | The constructor runs the simple settings, then mating, then mutation, then the initial genotype, in that order |
| SimConfig.MatingMutationKeep | selfingsim/simulate.py:91-93 | Mating and mutation keep the four scaled keys |
| SimConfig.AddMatingKeeps | selfingsim/simulate.py:179-222 | The mating step writes only the mating keys |
| SimConfig.AddMutationKeeps | selfingsim/simulate.py:136-177 | The mutation step writes only `mutation_model`, `m` and `allele_length` |
| SimConfig.SetupModel | selfingsim/simulate.py:136-159 | A loaded configuration always names one of the two mutation models |
| SimConfig.Config.constructor | selfingsim/simulate.py:71 | The settings start empty |
| SimConfig.Config.Attr | selfingsim/simulate.py:224-228 | `config.X` succeeds exactly when `X` is a setting, and gives its value |
| SimConfig.Config.Apply | selfingsim/simulate.py:70-95 | A step's outcome replaces the settings, or leaves them unchanged and reports the failure |
| SimConfig.Config.AddParamTo | selfingsim/simulate.py:123-134 | `_addparam` updates the settings as `AddParam` says |
| SimConfig.AddSimpleParams | selfingsim/simulate.py:73-79 | The seven `_addparam` calls give the settings `SimpleParams` describes |
| SimConfig.AddScaledParams | selfingsim/simulate.py:73-87 | Together with `output_per`, they give `Scaled` |
| SimConfig.AddModels | selfingsim/simulate.py:91-95 | The mating, mutation and init steps give `Models` |
| SimConfig.NewConfig | selfingsim/simulate.py:70-95 | A new `Config` holds exactly `Setup`'s settings, or reports its failure |
| SimConfig.SimulateOutcome | selfingsim/simulate.py:48-62 | Only infinite alleles runs. Infinite sites ends the program as disabled, and a failed configuration ends with its failure |
| MainConfig.Float | main.py:39-59 | `float(x)`: a number is kept, a container or `None` raises `TypeError`, and a string is parsed |
| MainConfig.EntryAgrees | main.py:38-42 | One `theta` entry is unscaled just as the selfingsim configuration does it |
| MainConfig.EntriesAgree | main.py:38-42 | The whole expanded rate list agrees with the selfingsim configuration's list |
| MainConfig.RatesLength | main.py:38-42 | One rate per repetition, summed over the entries |
| MainConfig.EntryCopies | main.py:39-41 | `{value, times: n}` gives n copies of `value / (4N)` |
| MainConfig.MatingFloatsPrefix | main.py:56-61 | The bare `except` keeps the floats read before the first failure, in the order `a`, `tau`, `sigma`, and the next one failed |
| MainConfig.AlleleLength | main.py:63-66 | `allele_length` comes from the population section when it is there, and is 1 otherwise |
| MainConfig.ReadHead | main.py:34-37 | A successful read holds the configuration's `general` and `population` sections |
| MainConfig.LoadScales | main.py:33-66 | A loaded configuration holds `gens`, `burnin` and `output_per` as `N` times the configured values |
| MainConfig.ScaleOk | main.py:49-51 | Scaling succeeds exactly when `N` and the key are present and `*` accepts them: two numbers multiply, and an integer `N` repeats a string or a list |
| MainConfig.LoadNeedsN | main.py:34 | Without `N`, loading fails with the lookup's error |
| MainConfig.CascadeOrder | main.py:69-80 | The general section is looked up first, then the population section, then post process. Missing from all three raises `KeyError` with the attribute's name |
| MainConfig.SpacedUnderscored | main.py:70 | Replacing spaces by underscores and back restores a key without underscores |
| MainConfig.ReadsGeneralSetting | main.py:69-72 | A setting of the general section is readable as an attribute under its underscored name |
| MainConfig.SimulateDispatch | main.py:103-109 | Loading fails exactly when simulate fails. Infinite sites runs exactly for the mode `'infinite sites'`; every other mode runs infinite alleles |
| GenSamples.ParseFields | partial_selfing/gensamples.py:71 | One integer per tab-separated field |
| GenSamples.ReadGeneration | partial_selfing/gensamples.py:66-84 | The line loop builds exactly the generation `GetGeneration` describes, skipping the header line (a file without lines raises `StopIteration`) |
| GenSamples.AddRow | partial_selfing/gensamples.py:72-83 | One row's update of the dictionary |
| GenSamples.ScanStops | partial_selfing/gensamples.py:70-71 | A failing line ends the read: later lines change nothing |
| GenSamples.Rows | partial_selfing/gensamples.py:71 | One row per line |
| GenSamples.ScanGroups | partial_selfing/gensamples.py:70-83 | Reading line by line is grouping the parsed rows. Any line that fails to parse fails the read |
| GenSamples.GroupedBy | partial_selfing/gensamples.py:72-83 | An individual of a replicate is present exactly when some row of the generation names it. Its selfing count is its first row's, and its alleles are the `fields[5:]` of all its rows, in file order |
| GenSamples.GroupAccepts | partial_selfing/gensamples.py:72-83 | Grouping fails exactly when a row lacks a field it needs, and the failure is `IndexError` |
| GenSamples.ReplicatesNonEmpty | partial_selfing/gensamples.py:74-83 | A replicate entry is created only along with an individual |
| GenSamples.RowOfInts | partial_selfing/gensamples.py:71 | Integers written tab-separated read back as written |
| GenSamples.IntStrings | partial_selfing/gensamples.py:71 | One string per integer |
| GenSamples.ParseIntsBack | partial_selfing/gensamples.py:71 | `str` of each integer reads back |
| GenSamples.FieldOfInt | partial_selfing/gensamples.py:71 | `int(round(float(str(i))))` is i |
| GenSamples.RoundWhole | partial_selfing/gensamples.py:71 | `round` keeps a whole number |
| GenSamples.RoundNearest | partial_selfing/gensamples.py:71 | `round` is within one half, and halves go away from zero |
| GenSamples.Shortest | partial_selfing/gensamples.py:100 | `zip` stops at the shortest row, which is one of the rows |
| GenSamples.Firsts | partial_selfing/gensamples.py:100 | One first element per pair |
| GenSamples.Seconds | partial_selfing/gensamples.py:100 | One second element per pair |
| GenSamples.SimplifyTwoRows | partial_selfing/gensamples.py:95-102 | A two-row individual becomes `[id, selfing, pairs]`, and unzipping the pairs gives the two rows back, cut to the shorter length |
| GenSamples.SimplifyNeedsTwoRows | partial_selfing/gensamples.py:99-101 | With one or more than two rows, unpacking into `(i, j)` fails |
| GenSamples.PickedOk | partial_selfing/gensamples.py:90 | Picking succeeds exactly when every drawn id is present and simplifies, giving one record per id in draw order |
| GenSamples.SampleOk | partial_selfing/gensamples.py:87-92 | A sample of a valid size succeeds exactly when every drawn individual simplifies |
| GenSamples.SampleRecords | partial_selfing/gensamples.py:87-92 | The sample has s records, each the simplified record of a drawn individual |
| GenSamples.SampleSorted | partial_selfing/gensamples.py:89-91 | The records are sorted by id, and their ids are exactly the drawn ones |
| GenSamples.SampleFileNameFields | partial_selfing/gensamples.py:49-61 | The output name splits at its dots into the input's base parts, the sample size, the replicate number and `json`. The zero-padded replicate number reads back as `i + 1` |
| GenSamples.SampleFileNamesDistinct | partial_selfing/gensamples.py:52-61 | Every replicate of a run writes a different file |
| GenSamples.SplitOnParts | partial_selfing/gensamples.py:49 | The parts of a split hold no separator |
| GenSamples.IntStringDotless | partial_selfing/gensamples.py:57 | `str(size)` holds no dot |
| GenSamples.GenesOf | partial_selfing/gensamples.py:123 | One gene pair per locus |
| GenSamples.PhaseBody | partial_selfing/gensamples.py:119-126 | One line per record |
| GenSamples.WritePhase | partial_selfing/gensamples.py:105-126 | The record loop writes exactly `PhaseLines`: the size, the loci count from the first record (`IndexError` for an empty sample), the markers and the records |
| GenSamples.Names | partial_selfing/gensamples.py:121-122 | One name per record |
| GenSamples.Genos | partial_selfing/gensamples.py:123 | One genotype per record |
| GenSamples.NameIsField | partial_selfing/gensamples.py:121 | `sample.<id>` is a PHASE field |
| GenSamples.GenesAreFields | partial_selfing/gensamples.py:123 | Every allele written is a PHASE field |
| GenSamples.PhaseRecordRead | partial_selfing/gensamples.py:120-126 | A record line reads back as the record's name and genotype |
| GenSamples.PhaseRecordsRead | partial_selfing/gensamples.py:119-126 | All record lines read back in order |
| GenSamples.PhaseReadBack | partial_selfing/gensamples.py:105-126 | The PHASE file `phase` writes is read back by the selfingsim PHASE reader as the same sample |
| GenSamples.NexusTokens | partial_selfing/gensamples.py:147-150 | The name, then one token per locus |
| GenSamples.Slashes | partial_selfing/gensamples.py:149 | One `a/b` token per pair |
| GenSamples.SlashesAt | partial_selfing/gensamples.py:149 | Token k is pair k's `a/b` |
| GenSamples.NexusBody | partial_selfing/gensamples.py:145-153 | One line per record |
| GenSamples.WriteNexus | partial_selfing/gensamples.py:128-155 | `nexus` writes the six header lines, the records, `;` and `end;`, each ended by `\r\n` with `-w` and by `\n` without it. An empty sample raises `IndexError` |
| GenSamples.NexusRecordTokens | partial_selfing/gensamples.py:146-150 | A record line splits at spaces into its tokens, and each locus token splits at `/` into the two alleles |
| GenSamples.NexusTokensPlain | partial_selfing/gensamples.py:147-150 | No token holds whitespace |
| GenSamples.SlashedPlain | partial_selfing/gensamples.py:149 | An `a/b` token holds no whitespace and splits back into its two alleles |
| GenSamples.IntStringPlain | partial_selfing/gensamples.py:149 | `str(i)` holds no whitespace and no slash |
| GenSamples.NexusLineEnds | partial_selfing/gensamples.py:129-155 | Splitting the output at line feeds gives each line back, followed by `\r` under `-w` |
| GenSamples.NexusLinePlain | partial_selfing/gensamples.py:139-155 | No written line holds a line feed |
| GenSamples.RecordLinePlain | partial_selfing/gensamples.py:146-150 | A record line holds no line feed |
| GenSamples.HeaderPlain | partial_selfing/gensamples.py:139-144 | No header line holds a line feed |
| P2Rmes.TokensMeaning | partial_selfing/p2rmes.py:31-33 | The fields convert exactly when their count is even, and otherwise raise `IndexError`. Token k is `1` when the two alleles of locus k differ and `0` when they are equal |
| P2Rmes.GenotypeTokens | partial_selfing/p2rmes.py:31-33 | The converted line is the tokens joined by spaces, computed from the fields after the name |
| P2Rmes.TokensOfFields | partial_selfing/p2rmes.py:33 | Converting a genotype's allele fields gives its heterozygosity tokens |
| P2Rmes.GenotypeOfPhaseLine | partial_selfing/p2rmes.py:31-33 | A PHASE record line converts to the selfingsim RMES line of the same genotype |
| P2Rmes.StripKeeps | partial_selfing/p2rmes.py:44-51 | `strip` keeps a line without surrounding whitespace |
| P2Rmes.PhaseLineStripped | partial_selfing/p2rmes.py:51 | A PHASE record line has no surrounding whitespace |
| P2Rmes.JoinEnds | partial_selfing/p2rmes.py:51 | A join of non-empty parts starts with the first part and ends with the last |
| P2Rmes.OutputLines | partial_selfing/p2rmes.py:39-51 | Every line is printed with a CRLF ending |
| P2Rmes.HeadersComplete | partial_selfing/p2rmes.py:42-47 | The headers are printed in full exactly when every file has its three header lines. A short file stops the run with `StopIteration` |
| P2Rmes.BodyComplete | partial_selfing/p2rmes.py:50-51 | A file's data lines convert in full exactly when each converts, and then give one line each |
| P2Rmes.BodiesComplete | partial_selfing/p2rmes.py:49-51 | All data lines convert exactly when each line of each file converts |
| P2Rmes.WriteComplete | partial_selfing/p2rmes.py:36-51 | `write` completes exactly when every file has its header and every data line converts |
| P2Rmes.HeadersOfPhase | partial_selfing/p2rmes.py:42-47 | On PHASE files written by selfingsim, the headers are the selfingsim RMES headers: name, size, loci count |
| P2Rmes.BodyOfPhase | partial_selfing/p2rmes.py:50-51 | PHASE record lines convert to the RMES heterozygosity lines |
| P2Rmes.DataLinesOfPhase | partial_selfing/p2rmes.py:45-51 | The lines after a PHASE file's header convert to its RMES lines |
| P2Rmes.BodiesOfPhase | partial_selfing/p2rmes.py:49-51 | All bodies convert to the selfingsim RMES bodies, file by file |
| P2Rmes.AgreesWithTormes | partial_selfing/p2rmes.py:36-51 | Converting selfingsim's PHASE files gives exactly the lines of selfingsim's own RMES writer |
| Trajectory.Bounds | inbreeding/trajectory.py:51-52 | A spec reads only when it splits on `-` into exactly two parts |
| Trajectory.CheckAll | inbreeding/trajectory.py:50-56 | One pair per spec |
| Trajectory.GetRange | inbreeding/trajectory.py:47-57 | Without specs, the whole span `(mincol, maxcol)` is returned. Otherwise the loop appends each checked pair, and the first failure ends the run |
| Trajectory.CheckAllStops | inbreeding/trajectory.py:50-55 | Once a spec fails, the whole run fails with that spec's error |
| Trajectory.CheckAllAccepts | inbreeding/trajectory.py:50-55 | Every spec is accepted exactly when each reads and lies in range. The pairs are then the specs' integers, in input order |
| Trajectory.CheckAllFirstFailure | inbreeding/trajectory.py:51-57 | A failing run reports its first bad spec's failure, which is either `ValueError` or the out-of-range exit |
| Trajectory.BoundsErrors | inbreeding/trajectory.py:51-53 | A spec that does not read raises `ValueError` |
| Trajectory.BoundsOfSpec | inbreeding/trajectory.py:51-52 | `START-STOP` for naturals reads back as the pair |
| Trajectory.ReversedAccepted | inbreeding/trajectory.py:54 | A reversed range within bounds, such as `5-3`, is accepted as it is |
| Summarize.FoldNext | src/summarize.py:78-81 | The accumulating loop takes one step per item |
| Summarize.FoldStops | src/summarize.py:78-81 | An error ends the loop with that error |
| Summarize.Fresh | src/summarize.py:68-71 | A new `chunks` generator has handed out nothing yet |
| Summarize.Pull | src/summarize.py:68-71 | `next()` gives the next chunk and one fewer is left. After the end, or after `xrange` raised for a zero step, nothing is left, and the error is raised only on the first call |
| Summarize.ChunkGen.constructor | src/summarize.py:68 | A generator over `l` in steps of `n`, not started |
| Summarize.ChunkGen.Next | src/summarize.py:68-71 | Updates the generator's state as `Pull` says |
| Summarize.Zip | src/summarize.py:133 | Python 2 `zip` of two generators: at most as many pairs as the first has left, and the generators' contents are kept |
| Summarize.Bumped | src/summarize.py:133-135 | The counts keep their length |
| Summarize.Identity | src/summarize.py:132-136 | `check_identity` keeps the length of the counts |
| Summarize.ZipGens | src/summarize.py:133 | Pulling the two generators in turn gives `Zip`'s pairs, error and states |
| Summarize.CheckIdentity | src/summarize.py:132-136 | Updates `counts` in place exactly as `Identity` says, advances both generators, and returns the same list object |
| Summarize.ZipRun | src/summarize.py:133 | Zipping two chunk lists pairs the i-th chunks, up to the shorter one, and consumes one extra chunk of the first when the second runs out first |
| Summarize.ZipZeroStep | src/summarize.py:70 | A zero step raises the `xrange` `ValueError`, giving no pairs |
| Summarize.ChunkIsLocus | src/summarize.py:79-80 | The i-th chunk of a copy is locus i's alleles |
| Summarize.IdentityOfChunks | src/summarize.py:132-136 | On equal-length chunk lists, `counts[i]` grows by one exactly when the i-th chunks are equal, and every other entry is unchanged |
| Summarize.IdentityOfCopies | src/summarize.py:132-136 | For fresh generators over two copies, the count of locus i grows exactly when the copies agree at locus i |
| Summarize.Sites | src/summarize.py:75 | `totNumLoci() / nloci` floors, and raises `ZeroDivisionError` for zero loci |
| Summarize.Zeros | src/summarize.py:76 | `[0] * n` |
| Summarize.Homozygous | src/summarize.py:78-81 | The number of homozygous individuals is at most N |
| Summarize.Within | src/summarize.py:79-81 | The counts keep their length |
| Summarize.Compared | src/summarize.py:94-97 | The counts keep their length |
| Summarize.ComputeF | src/summarize.py:74-82 | The individual loop gives exactly `FCounts` |
| Summarize.SitesOfRegular | src/summarize.py:75 | On a population of `nloci` loci of `sites` sites each, the quotient is `sites` |
| Summarize.QuotientUnique | src/summarize.py:75 | Floor division has one result |
| Summarize.MulMonotone | src/summarize.py:75 | Multiplication by a positive number keeps order |
| Summarize.FsCountsHomozygous | src/summarize.py:78-81 | The loop's count of locus i is the number of individuals homozygous at locus i |
| Summarize.FCountsMeaning | src/summarize.py:74-82 | `compute_f` counts, per locus, the individuals whose two copies agree (at most N). An empty population is a division by zero |
| Summarize.Pass | src/summarize.py:94-97 | The four comparisons of a pair keep the counts' length |
| Summarize.Between | src/summarize.py:90-97 | The counts keep their length |
| Summarize.ComputeG | src/summarize.py:85-99 | The pair loop gives exactly `GCounts` |
| Summarize.ComparePair | src/summarize.py:90-97 | Updates `gs` in place as `Between` says |
| Summarize.PairCount | src/summarize.py:89-98 | `combinations(N, 2)` has N(N-1)/2 pairs |
| Summarize.IdentityDrained | src/summarize.py:95-97 | Comparing a drained generator changes nothing |
| Summarize.IdentityAgainstDrained | src/summarize.py:96 | A fresh generator zipped against a drained one loses its first chunk and counts nothing |
| Summarize.IdentityShifted | src/summarize.py:97 | A generator that lost its first chunk compares locus i+1 with locus i |
| Summarize.PassOfChunks | src/summarize.py:90-97 | Of the four comparisons, as written, only copy 0 against copy 0 at locus i and copy 1 at locus i+1 against copy 1 at locus i count |
| Summarize.ChunksAgree | src/summarize.py:90-93 | Chunk equality is locus agreement |
| Summarize.PastLastLocus | src/summarize.py:97 | The shifted comparison has nothing to compare at the last locus |
| Summarize.BetweenAsWritten | src/summarize.py:90-97 | One pair adds `Observed` to each locus |
| Summarize.NextLocusAgree | src/summarize.py:97 | The shifted chunk comparison is agreement of locus i+1 with locus i |
| Summarize.ObservedTotal | src/summarize.py:89-97 | At most two comparisons per pair count |
| Summarize.IndPairsShaped | src/summarize.py:89 | Every pair is made of individuals of the population |
| Summarize.GsObserved | src/summarize.py:89-97 | The pair loop's count of locus i is the observed total |
| Summarize.GCountsAsWritten | src/summarize.py:85-99 | As written, `comput_g` counts at most two comparisons per pair rather than four, and raises `ZeroDivisionError` for fewer than two individuals |
| Summarize.GUndercounts | src/summarize.py:90-97 | Two identical single-locus individuals give a count of 1 where four comparisons were meant |
| Summarize.Expected | src/summarize.py:94-97 | At most four comparisons per pair |
| Summarize.ExpectedTotal | src/summarize.py:94-98 | At most four comparisons per pair, summed over the pairs |
| Summarize.BetweenFreshMeaning | src/summarize.py:94-97 | With fresh generators per comparison, a pair adds its number of agreeing cross-copy comparisons at each locus |
| Summarize.GsExpected | src/summarize.py:89-97 | The corrected loop's count is the expected total |
| Summarize.GIntendedMeaning | src/summarize.py:85-99 | The corrected `comput_g` counts, per locus, the agreeing cross-copy comparisons over all pairs (at most the denominator 4·N(N-1)/2) |
| Summarize.GIntendedClonal | src/summarize.py:94-98 | In a clonal population every comparison agrees, so the corrected count equals the denominator 4·N(N-1)/2 |
| Summarize.ClonalPairs | src/summarize.py:89-97 | Pairs of a clonal population agree in all four comparisons |
| Summarize.PairMembers | src/summarize.py:89 | Both members of a pair are individuals of the population |
| Summarize.AllAgree | src/summarize.py:94-97 | Pairs of identical copies agree four times each |
| Summarize.GIntendedExample | src/summarize.py:94-98 | The two identical individuals give 4 with fresh generators |
| Summarize.Prefixed | src/summarize.py:104 | One prefixed tuple per tuple |
| Summarize.TuplesBinary | src/summarize.py:104 | `product(xrange(2), repeat=n)` gives 0/1 tuples of length n |
| Summarize.BinaryInTuples | src/summarize.py:104 | Every 0/1 tuple of length n is among them |
| Summarize.BinaryTuplesExactly | src/summarize.py:104 | The keys of `Ps` are exactly the 0/1 tuples of length `nloci` |
| Summarize.Count | src/summarize.py:110 | `Ps[key] += 1` succeeds exactly when the key is present, and keeps the keys |
| Summarize.ComputeP | src/summarize.py:102-111 | The individual loop gives exactly `PCounts` |
| Summarize.TallyOne | src/summarize.py:108-110 | One individual updates the shared `zeros` list in place and bumps its key, as `Tallied` says |
| Summarize.CountPresent | src/summarize.py:110 | A present key's count grows by one |
| Summarize.HomozygousCounts | src/summarize.py:105-110 | One cumulative count per locus |
| Summarize.EmptyTallyKeys | src/summarize.py:104 | The table starts with exactly the 0/1 keys |
| Summarize.WithinCounts | src/summarize.py:110 | The shared list after one more individual holds the cumulative homozygous counts |
| Summarize.BinaryCounts | src/summarize.py:110 | The cumulative counts form a 0/1 key exactly when no locus has more than one homozygous individual |
| Summarize.TalliedAsWritten | src/summarize.py:105-110 | As written, the loop succeeds exactly while no locus has two homozygous individuals; otherwise a `KeyError` is raised |
| Summarize.PAsWritten | src/summarize.py:102-111 | As written, `compute_P` succeeds exactly on a non-empty population with at most one homozygous individual per locus |
| Summarize.KeyReprTwo | src/summarize.py:110 | The missing key is reported as `(2,)` |
| Summarize.PKeyErrorExample | src/summarize.py:105-110 | Two homozygous single-locus individuals raise `KeyError: (2,)` |
| Summarize.Pattern | src/summarize.py:110 | An individual's homozygosity pattern is a 0/1 key of length `nloci` |
| Summarize.Carrying | src/summarize.py:110 | At most N individuals carry a pattern |
| Summarize.WithinPattern | src/summarize.py:110 | On a fresh zero list, the comparison gives the individual's pattern |
| Summarize.TalliedFreshKey | src/summarize.py:110 | With fresh zeros, each individual bumps its own pattern |
| Summarize.TalliedFreshMeaning | src/summarize.py:107-110 | With fresh zeros, the table counts per pattern the individuals carrying it, and keeps the 0/1 keys |
| Summarize.PIntendedMeaning | src/summarize.py:102-111 | The corrected `compute_P` counts, for every 0/1 pattern, the individuals with that homozygosity pattern |
| Summarize.PIntendedExample | src/summarize.py:102-111 | The two homozygous individuals give `{(1,): 2, (0,): 0}` |
| SampleNames.Pow10 | selfingsim/sample.py:109-113 | Powers of ten are positive |
| SampleNames.NDigits | selfingsim/sample.py:105-113 | `_ndigits(n)` is the least width w ≥ 1 with n ≤ 10^w |
| SampleNames.AboveTen | selfingsim/sample.py:110-111 | After k divisions, the loop test `number > 10.` holds exactly when n > 10^(k+1) |
| SampleNames.PositiveProduct | selfingsim/sample.py:110 | A product of a positive and a non-negative number keeps its sign |
| SampleNames.TenthScaled | selfingsim/sample.py:111 | Dividing by ten and multiplying the scale by ten keeps the product |
| SampleNames.FitMeaning | selfingsim/sample.py:109-113 | The width is large enough, and the next smaller one would not be |
| SampleNames.Pow10Monotone | selfingsim/sample.py:109-113 | Powers of ten grow with the exponent |
| SampleNames.FitUnique | selfingsim/sample.py:109-113 | Only one width has both properties |
| SampleNames.SmallWidth | selfingsim/sample.py:109-113 | Up to ten replicates need one digit |
| SampleNames.NatStringLength | selfingsim/sample.py:107 | `str(m)` has L digits exactly when 10^(L-1) ≤ m < 10^L |
| SampleNames.ShortEnough | selfingsim/sample.py:87 | A number below 10^w has at most w digits |
| SampleNames.WidthOfLastIndex | selfingsim/sample.py:83-89 | `_ndigits(reps)` is the number of digits of the last replicate number `reps - 1` |
| SampleNames.HundredPadsToTwo | selfingsim/sample.py:105-113 | For 100, `_ndigits` gives 2 though `100` has three digits |
| SampleNames.ZeroPad | selfingsim/sample.py:87-91 | `{:0w}` pads with zeros on the left to width w, and a wider number keeps all its digits |
| SampleNames.ZerosValue | selfingsim/sample.py:87 | A run of zeros reads as 0 |
| SampleNames.LeadingZeros | selfingsim/sample.py:87 | Leading zeros do not change the value |
| SampleNames.ZeroPadRoundTrip | selfingsim/sample.py:87-91 | `int()` reads a padded number back |
| SampleNames.BaseDropsExtension | selfingsim/sample.py:81 | A dotted name loses exactly its last component |
| SampleNames.SampleFileNames | selfingsim/sample.py:81-93 | One name per replicate 0..reps-1, each `fbase.size_<n>.sample_rep_<j padded>.json` |
| SampleNames.NamesDistinct | selfingsim/sample.py:87-91 | Every replicate of a run gets its own file name |
| SampleNames.PaddedWidth | selfingsim/sample.py:83-91 | The padded field has exactly the width `_ndigits(reps)` |

## Findings

| source | as written | input that shows it | evidently intended | confidence | as-written member | corrected member |
|---|---|---|---|---|---|---|
| src/summarize.py:90-97 | The four `chunks` generators of a pair are made once and shared by the four `check_identity` calls. The first call drains `geno00` and `geno10`. The second call then pulls one chunk of the drained `geno00`, the third compares `geno01` against the drained `geno10` and eats one chunk of `geno01`, and the fourth compares `geno01` shifted by one locus against `geno11`. At most two comparisons per pair count, one of them between different loci | two identical single-locus individuals, both copies `[0]`: the count is 1 | each comparison reads fresh chunks, so the four cross-copy comparisons all count and the identical pair gives 4, matching the denominator `4 * N * (N - 1) / 2` | high; not executed | Summarize.GUndercounts | Summarize.GIntendedClonal |
| partial_selfing/infinite_alleles.py:139-150 | `cf` is `partial_selfing.common`, which defines no `get_init_genotype_by_count`. `monomorphic` and `unique` raise `AttributeError`. Under any other model the `try` raises on the same name, and the bare `except` falls back on `init['freq']`, so a `count` is never used | `{"model": "x", "count": 5}` raises `KeyError('freq')`; `{"model": "monomorphic"}` raises `AttributeError` | the helper of `selfingsim/common.py:25-29`, whose `(simu, nalleles)` signature the calls follow: one allele, 2N alleles or `count` alleles, with `next_idx` their number | high; not executed | InfiniteAlleles.CountIgnored | InfiniteAlleles.IntendedNextIdx |
| src/summarize.py:105-110 | `zeros` is one list shared by every individual, and `check_identity` increments it in place. The key of the second individual is therefore a running total, not that individual's 0/1 pattern | two homozygous single-locus individuals: the second key is `(2,)`, which is not in `Ps`, so `KeyError` is raised | a fresh zero list per individual, so `Ps[key]` counts the individuals with homozygosity pattern `key` | high; not executed | Summarize.PKeyErrorExample | Summarize.PIntendedMeaning |

`Summarize.ComputeG` and `Summarize.ComputeP` model the loops as written.
`Summarize.GIntended` and `Summarize.PIntended` are the corrected counts.
`Summarize.GIntendedMeaning`, `Summarize.GIntendedExample` and
`Summarize.PIntendedExample` state what the corrected counts mean.
`InfiniteAlleles.InitOperator` models the choice of initial genotypes as
written, and `InfiniteAlleles.IntendedInitOperator` the corrected one.

## Left out

- Source that does not run as shown. `src/summarize.py` does not parse: line 34 lacks its colon, `itertools` is not imported, line 145 calls an undefined `compute_g`, and `compute_W` takes no parameters. The model reads the counting loops as if these were fixed. `compute_W` and `summarise` are not part of this model. `partial_selfing/infinite_alleles.py:85` has an unbalanced parenthesis, and the model follows the evident call.
- Floating point. The final divisions of `compute_f`, `comput_g` and `compute_P`, the frequencies and heterozygosities of the sample statistics, and `to_prop` are not modelled. Only the integer counts are. `SimConfig`, `MainConfig` and `InfiniteAlleles.ByFreq` divide exact reals rather than doubles.
- InfiniteAlleles.InitOperator: `partial_selfing/common.py` also lacks `androdioecy`, `gynodioecy` and `pure_hermaphrodite`, which `partial_selfing/infinite_alleles.py:185-189` calls, and its `get_init_info` takes the field name as its only argument, so line 152 passes the simuPOP module as the field. As written, `run` therefore raises `AttributeError` on every branch before `execute` starts. The model covers the choice of initial genotypes on its own, both as written and with the `selfingsim/common.py` helpers the calls are written for. The rest of `execute` and `run` is simuPOP set-up and is not part of this model.
- ParentChoice.PairSpec: with a single individual, the redraw loop of `partial_selfing/common.py:57-60` never ends, because every draw is 0. The model returns `None` instead, and so does `ParentChoice.DistinctPair` once its finite stream runs dry. The non-termination itself is not modelled.
- Tsv.Table splits each line at tabs. The quoting rules of `csv.reader(delimiter='\t')` (`selfingsim/data.py:301`), such as a quoted field that holds a tab, are not modelled. The simulation's writer only writes unquoted numbers.
- SimConfig.ScaledValues follows the code of `selfingsim/simulate.py:83-87`. Without `output per`, it stores `N` times the scaled `gens` times the scaled `burnin`. The comment at lines 81-82 promises "the last generation" instead. That value is not evident from the code, so no other reading is modelled.
- SampleNames.NDigits: the loop divides an exact real by ten, so binary rounding of `number /= 10.` is not modelled.
- Text.ParseFloat: `float()` is modelled for decimal notation only, without exponents, `inf` or `nan`.
- Randomness. The random number generator is two finite supplied streams. A stream that runs dry ends the draw with `None`. This is a modelling artefact that the program cannot reach. `randInt(n)` is modelled as the next word modulo `n`, and `random.sample` as a supplied draw of distinct indices. No distribution is modelled.
- simuPOP. `Population`, `Simulator.evolve`, `Recombinator`, the genotype transmitters, `sim.stat`, virtual splitters and `loadPopulation` are not modelled. A population is a value (or, for the mutators, a class) holding the genotypes directly. The `Store` lists of `partialSelfing.py`, which alias each other, are left out together with the writers.
- I/O. File opens, `json.load` of malformed text, argparse, stdin, `print` and the writers are not modelled. Files are sequences of lines without line ends, and JSON documents are `Json` values. `phase` output is modelled as lines. The plotting `__main__` of `inbreeding/trajectory.py` and its argparse defaults are not modelled.
- Exit messages. Messages that format the offending value, such as the negative frequencies of `_addinitgenotype`, the unknown init and the unrecognised mating model, keep their fixed text only. Python's `str.format` is modelled for `{}` fields, numbered fields and doubled braces, without format specifications or attribute access.
- SampleNames.SampleFileNames assumes the simulation file name holds no braces. The source passes `fbase` through `format` twice, so braces in it would be read as fields.
- Sorting. `sorted()` on distinct ids is modelled as enumeration in ascending order.
- Summarize.CheckIdentity and Summarize.ZipGens require two different generator objects. The source never passes the same generator twice, and a shared generator would be pulled twice per round.
- `get_mode` in `inbreeding/pop2phase.py:93-99` performs the same test as `import_right_module` in `src/utility.py`. Both are modelled once, by `Utility.ModeOf`, and `Utility.ModeExamples` is the unit test of `get_mode`.
- `post_process` in `main.py` and the broken post-processing scripts are not part of this model. `Config.__getattr__` reads the post-process section only when the configuration has one.
- The top-level `pop2phase.py`, the `two_loci` variants, `back.sim` and the database schema are not part of this model. They do not run as shown, or hold no logic.
