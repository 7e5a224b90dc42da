# falcon — a Dafny model of the clustering driver

falcon clusters MS/MS spectra. Its driver does five things:

- reads peak files and keeps the spectra that pass quality processing;
- groups the spectra by precursor charge;
- computes or loads a sparse pairwise distance matrix for each charge;
- runs density clustering per charge;
- writes one table of cluster assignments. In that table, labels from different charges never collide.

This project models two versions of that driver:

- **The current driver** (`falcon/falcon.py`). Modules `FalconPipeline` and `WriterSpec`.
  - Resolving collisions with existing output files.
  - The overwrite cleanup.
  - The reader, which keeps spectra and counts low-quality ones.
  - A bounded queue that feeds the spectra-writer worker. The writer stages spectra per charge and appends batches of 10,000 to a per-charge dataset. At the end-of-stream sentinel it writes every partly filled list.
  - The `charges.joblib` decision: load the saved charge set, or prepare the spectra again.
  - The per-charge cache of distance matrix and metadata. The cache is used only when both files exist.
  - The loop that clusters charge after charge. It skips a charge without metadata and shifts every label by a running counter. With `export_representatives` it also collects the medoid rows.
  - The driver's exit status.
- **The earlier single-file driver** (`falcon.py`). Module `LegacyFalcon`.
  - The reader. It gives each identifier the `mzspec:{pxd}:` prefix, keeps spectra of configured charges and sorts them by precursor m/z.
  - Bucketing by charge.
  - The distance cache. On a cache hit, the identifier and m/z columns are re-aligned with one `argsort`.
  - Noise-masked label offsetting. Noise (-1) keeps its value, and a charge whose labels are all noise makes `np.amax` fail.

Shared modules:

- `Spectra`: the records and the per-charge filter.
- `Sorting`: Python's stable `list.sort(key=…)`, and `numpy.argsort` with reordering by an index array.
- `Labels`: both label-offsetting schemes as pure functions.
- `Wrappers`: `Option` and `Result`.

How things are modelled:

- **Files are fields of a class.** The working directory is the class `FalconPipeline.WorkDir`, with one field per kind of file:
  - the output files;
  - `charges.joblib`;
  - the `.lance` datasets;
  - the `dist_*.npz` and `metadata_*.parquet` files.

  `LegacyFalcon.LegacyWorkDir` plays the same role for the earlier driver. The driver's methods update these fields.
- **Methods are proved against pure functions.** Each loop of the source is a method. Its postcondition equates the result to a pure specification: `ClusterPass`, `LegacyLoop`, `Consume`, `Persist`, `Accepted` or `Buckets`. Lemmas state what each of those functions guarantees.
- **Library calls are parameters.** Processing, vectorising, nearest-neighbour distances, clustering and medoid selection are fields of a `Collaborators` value, with their configuration already bound.
- **Failures are values.** An exception in the source is a `Failure` in the model:
  - `pd.concat([])`;
  - `np.amax` of an empty array;
  - opening a missing dataset;
  - a label column of the wrong length;
  - a worker pool of size zero.

## Model

| member | source | states |
|---|---|---|
| Spectra.OfCharge | falcon/falcon.py:493-494 | a spectrum is staged for a charge exactly when it arrived and has that charge, and no more spectra are staged than arrived |
| Spectra.OfChargeOrdered | falcon/falcon.py:493-494 | the spectra staged for a charge keep their arrival order: they are a subsequence of the input |
| Spectra.OfChargeCounts | falcon/falcon.py:493-494 | every spectrum of the charge is staged as often as it arrived, and no spectrum of another charge is staged |
| Spectra.ChargeOccurs | falcon/falcon.py:493-495 | a charge is recorded in the charge set exactly when at least one spectrum of that charge arrived |
| Sorting.SortBy | falcon.py:158 | the m/z sort returns its input reordered (same multiset), in non-decreasing key order |
| Sorting.SortByStable | falcon.py:158 | the sort is stable: the spectra sharing one key keep their input order |
| Sorting.Argsort | falcon.py:95 | `argsort` returns a permutation of the indices under which the keys are non-decreasing |
| Sorting.PermutationInRange | falcon.py:96-97 | every index of a permutation is in range, so indexing the parallel arrays by it is defined |
| Sorting.PermuteIsPermutation | falcon.py:96-97 | indexing an array by a permutation keeps its elements with their multiplicities |
| Sorting.PermutationDistinct | falcon.py:95 | a permutation lists no index twice |
| Sorting.SortedWithoutTiesUnique | falcon.py:71 | two non-decreasing orderings of the same elements without key ties are equal: the sorted order is unique |
| Sorting.MapKeepsPermutation | falcon.py:91-97 | columns taken from two orderings of the same spectra have the same elements |
| Labels.Max | falcon/falcon.py:234 | `np.amax` of a non-empty array is one of its elements and bounds all of them |
| Labels.OffsetChargesShifts | falcon/falcon.py:218-234 | each table is one clustered charge's labels shifted by the counter: the first by the start value, each later one by the maximum of the previous table plus one, and the final counter is the last table's maximum plus one; charges without metadata give no table |
| Labels.OffsetChargesDisjoint | falcon/falcon.py:231-234 | with non-negative labels, all labels lie in [start, counter); the counter stays at start only with no table; earlier tables' labels are below later ones' |
| Labels.MaskedShiftNonNoise | falcon.py:103-104 | masking keeps noise out of the shift: shifted cluster labels are at least the offset, a charge keeps a cluster exactly when it had one, and the cluster labels after masking are the original cluster labels shifted |
| Labels.MaskedNonNoise | falcon.py:103-105 | the labels the mask selects after the shift are the labels that were not noise before it, shifted, in order |
| Labels.MaskedShiftMasks | falcon.py:103-104 | masking with a non-negative offset keeps the length, and a label is noise after it exactly when it was noise before |
| Labels.OffsetNonNoiseFails | falcon.py:103-105 | the noise-masked offsetting fails exactly when some charge has only noise labels, because the maximum of nothing fails; the counter never goes below its start |
| Labels.OffsetNonNoiseShifts | falcon.py:103-105 | on success each table is its charge's labels with noise kept and the others shifted by the counter: the start value first, then the maximum of the previous charge's selected labels plus one; every charge had a label to select |
| Labels.OffsetNonNoiseDisjoint | falcon.py:102-105 | on success the non-noise labels lie in [start, counter) and those of an earlier charge are all below those of a later one |
| Labels.OffsetNonNoiseMasks | falcon.py:103-104 | on success a label is noise in the output exactly when it was noise in the input, and every table keeps its charge's length |
| WriterSpec.FirstSentinel | falcon/falcon.py:476-478 | the writer stops at the first `None` of the queue, and everything before it is a spectrum |
| WriterSpec.AcceptStaged | falcon/falcon.py:493-505 | after a spectrum is staged, every list holds only its own charge and fewer than 10,000 spectra, keys are unique, and every write so far is a full single-charge batch |
| WriterSpec.AcceptConserves | falcon/falcon.py:493-505 | staging one spectrum adds it to its charge's written-plus-staged spectra and changes no other charge |
| WriterSpec.AcceptAllKeys | falcon/falcon.py:493-495 | the dictionary's keys are the charges in the order each was first seen |
| WriterSpec.AcceptAllStaged | falcon/falcon.py:476-505 | the staging invariant holds after any prefix of the queue, and the dictionary's keys are exactly the charges seen |
| WriterSpec.AcceptAllConserves | falcon/falcon.py:476-505 | before the sentinel, for each charge, what was written plus what is staged is that charge's spectra in arrival order |
| WriterSpec.FlushKeyMoves | falcon/falcon.py:480-491 | writing one key's list moves its spectra from the list to the dataset and clears that list only |
| WriterSpec.DrainKeysMoves | falcon/falcon.py:480-491 | the final drain loses and duplicates no spectrum of any charge |
| WriterSpec.DrainKeysClears | falcon/falcon.py:480-491 | after the drain over the first n keys, exactly those keys' lists are empty |
| WriterSpec.DrainKeysBatches | falcon/falcon.py:480-491 | the drain keeps the earlier writes and adds non-empty single-charge batches of fewer than 10,000 spectra, one per key |
| WriterSpec.DrainKeysLog | falcon/falcon.py:480-491 | the drain over the first n keys appends, in key order, one batch per key whose list is not empty, holding that list |
| WriterSpec.WriterConserves | falcon/falcon.py:475-505 | everything one writer writes to a charge's dataset is exactly the spectra of that charge taken before the sentinel, in order |
| WriterSpec.WriterBatches | falcon/falcon.py:475-505 | the writer's writes are all single-charge and non-empty: full 10,000-spectrum batches, then final partial batches at most one per charge |
| WriterSpec.WriterDrainOrder | falcon/falcon.py:476-505 | the writer's final writes follow the order in which the charges were first seen |
| WriterSpec.WriterCharges | falcon/falcon.py:493-495 | a charge is added to the charge set exactly when something is written to its dataset |
| FalconPipeline.KeptAndRejected | falcon/falcon.py:439-449 | every spectrum read is either kept or counted as low quality |
| FalconPipeline.KeptExactly | falcon/falcon.py:442-448 | a spectrum is kept exactly when it is the processing result of a spectrum of the file with its file name set |
| FalconPipeline.ReadSpectra | falcon/falcon.py:419-449 | the reader returns the kept spectra in file order and the count of rejected ones, which add up to the file's spectra |
| FalconPipeline.ReadAll | falcon/falcon.py:322-329 | the queue holds every kept spectrum of every file in reading order, and the low-quality count is the sum over files |
| FalconPipeline.QueueConsumed | falcon/falcon.py:357-360 | with at least one sentinel behind the spectra, a writer takes exactly the kept spectra of all files |
| FalconPipeline.FileWorkers | falcon/falcon.py:316 | the number of workers is the smaller of the file count and the CPU count |
| FalconPipeline.PersistWritten | falcon/falcon.py:540-549 | after the appends, a charge's dataset holds its old rows followed by everything written to it, each with its own vector, and exists exactly when it existed or was written to |
| FalconPipeline.PreparedDatasets | falcon/falcon.py:319-362 | after preparation, each charge's dataset holds its old rows followed by the kept spectra of that charge, in reading order; every charge that occurs has a dataset |
| FalconPipeline.WrittenCharge | falcon/falcon.py:546-549 | a charge that received spectra was the target of one of the appends |
| FalconPipeline.PutAllBlocks | falcon/falcon.py:319-329 | putting one item after another on a bounded queue that nothing takes from blocks exactly when the items do not fit, once the queue is full; otherwise every item is appended in order |
| FalconPipeline.QueueBlocksBeforeWriters | falcon/falcon.py:319-360 | as written, the puts of every kept spectrum before any writer exists block exactly when more than 1,000,000 spectra are kept; otherwise a writer started afterwards takes every kept spectrum |
| FalconPipeline.EnumerateCharges | falcon/falcon.py:177 | iterating the charge set visits every charge exactly once |
| FalconPipeline.WithCharge | falcon/falcon.py:203 | the metadata gains the charge on every row, with nothing else changed |
| FalconPipeline.CacheRoundTrip | falcon/falcon.py:188-217 | once a charge is handled both cache files exist, so a later run loads exactly the pair this run used; other charges' files are untouched |
| FalconPipeline.ClusterPass | falcon/falcon.py:176-237 | the clustering loop fails only on a missing dataset or a label array of the wrong length |
| FalconPipeline.ClusterPassFails | falcon/falcon.py:177-237 | the first failing charge ends the loop with its error |
| FalconPipeline.PassCachesFails | falcon/falcon.py:188-234 | once the loop fails on a charge, the cache files left behind are those saved up to and including that charge |
| FalconPipeline.SkippedCharge | falcon/falcon.py:218-220 | a charge without metadata adds no table and no representatives and leaves the counter alone |
| FalconPipeline.ClusterPassOffsets | falcon/falcon.py:176-250 | the loop's tables and counter are the current label offsetting of the raw labels: one table per clustered charge, one label per metadata row; representatives are collected per table when exporting and not otherwise |
| FalconPipeline.ClusterPassCache | falcon/falcon.py:182-217 | with distinct charges, each charge is clustered from the cached pair, or a fresh one when a file is missing, and the cache then holds that pair; other charges' files are unchanged |
| FalconPipeline.ClusterPassDisjoint | falcon/falcon.py:231-234 | with non-negative raw labels, every label lies in [0, counter), the counter is 0 only with no table, and no two charges share a label |
| FalconPipeline.RemoveFailsOnDirectory | falcon/falcon.py:161-165 | removing the listed entries one by one with the call for plain files fails exactly when a directory is listed, and then on such a directory |
| FalconPipeline.CleanupFailsOnDatasets | falcon/falcon.py:161-165 | as written, the overwrite cleanup of the spectra directory fails exactly when a dataset is present |
| FalconPipeline.CleanupFailsAfterPrepare | falcon/falcon.py:161-165 | a working directory prepared from input that kept a spectrum makes the cleanup as written fail on the next run with overwriting on |
| FalconPipeline.WorkDir.ResolveOutputs | falcon/falcon.py:96-129 | aborts exactly when overwriting is off and an output file exists; when overwriting, both outputs are gone; otherwise nothing changes |
| FalconPipeline.WorkDir.WriteToDataset | falcon/falcon.py:508-550 | appends the batch with one vector per spectrum to its charge's dataset, creating it if missing, and returns the batch size |
| FalconPipeline.WorkDir.WriteSpectraLance | falcon/falcon.py:452-505 | the charge set gains the charges taken, and the datasets receive the appends of the staging state machine over the queue up to its first sentinel |
| FalconPipeline.WorkDir.StageArrivals | falcon/falcon.py:475-505 | the loop up to the first sentinel leaves the staging state of the state machine over the spectra taken, the charges taken added to the set, and the datasets holding exactly the appends made |
| FalconPipeline.WorkDir.DrainStaging | falcon/falcon.py:478-492 | on the sentinel the appends made are exactly the drain of the staging state, in key order |
| FalconPipeline.WorkDir.CleanWorkDir | falcon/falcon.py:161-165 | the intended cleanup: no dataset, no charge file, no cache file remains |
| FalconPipeline.WorkDir.PrepareSpectra | falcon/falcon.py:294-385 | fails exactly when there is no input file, and then changes nothing; otherwise returns the charges of the kept spectra and appends them to the datasets through the writer |
| FalconPipeline.WorkDir.ClusterCharge | falcon/falcon.py:177-250 | one charge of the loop is the specification's step; the cache files are those saved at that charge, whether its clustering succeeds or fails |
| FalconPipeline.WorkDir.ClusterCharges | falcon/falcon.py:176-250 | the loop's result is the specification's pass from the cache files at the start, and the cache files left are those saved up to the last charge reached, a failing one included |
| FalconPipeline.WorkDir.LoadCharges | falcon/falcon.py:161-173 | when overwriting, every cache file is gone; a saved charge set is used as is when not overwriting; otherwise the spectra are prepared and the charge set they produced is saved; failure only without input files |
| FalconPipeline.WorkDir.ClusterAndWrite | falcon/falcon.py:176-285 | on status 0 the pass over the charges succeeded with at least one table, the tables, cache files and representatives are the pass's, the cluster table is written, and the spectra file only when exporting; a failure is never the no-input error; whatever the status, the cache files are those saved up to the last charge reached |
| FalconPipeline.WorkDir.Run | falcon/falcon.py:94-291 | exit status 1 exactly on an unresolved output collision, with nothing touched; on status 0 the tables come from the pass over every saved or prepared charge once, with the caches cleared when overwriting; representatives only when exporting; unless the run stops before clustering, the cache files are those the pass saved, a failing charge included |
| LegacyFalcon.AcceptedExactly | falcon.py:147-157 | a spectrum is kept exactly when it is the processing result of a prefixed spectrum of the file and has a configured charge |
| LegacyFalcon.AcceptedPrefixed | falcon.py:148-149 | when processing keeps identifiers, each kept spectrum's identifier is `mzspec:{pxd}:` followed by a read identifier |
| LegacyFalcon.AcceptedCharges | falcon.py:155-157 | every kept spectrum has a configured charge |
| LegacyFalcon.ReadProcessSpectra | falcon.py:147-159 | the reader returns the kept spectra stably sorted by precursor m/z: a sorted permutation of them, all of configured charges |
| LegacyFalcon.ReadFiles | falcon.py:47-49 | the per-file results, file after file |
| LegacyFalcon.Dedup | falcon.py:45 | the dictionary's charges are the configured ones, each once |
| LegacyFalcon.BucketSpectra | falcon.py:45-51 | there is one list per configured charge, holding exactly the spectra of that charge in reading order |
| LegacyFalcon.ProcessedCharges | falcon.py:50-51 | every read spectrum's charge has a list, so the dictionary lookup never fails |
| LegacyFalcon.Buckets | falcon.py:45-51 | the lists exist exactly for the configured charges, and the loop's charges all have one |
| LegacyFalcon.ReadAndBucket | falcon.py:44-51 | reading and bucketing give the charges in dictionary order and their lists |
| LegacyFalcon.ComputePathPairs | falcon.py:69-87 | on the compute path every row pairs a spectrum's identifier with its own m/z, in non-decreasing m/z order |
| LegacyFalcon.CachePathPairs | falcon.py:88-97 | for any order that sorts the m/z column, the cache path reorders identifiers and m/z values together, sorted, with the compute path's rows up to order |
| LegacyFalcon.PermuteNoTies | falcon.py:95-97 | a charge without repeated m/z values keeps none after reordering |
| LegacyFalcon.CachePathMatchesComputePath | falcon.py:69-97 | without repeated m/z values, the cache path's columns equal the compute path's, so cached matrix rows line up with identifiers |
| LegacyFalcon.CachedColumnsMatchComputed | falcon.py:68-97 | a matrix cached by an earlier run over the same spectra is used with the same columns that run computed |
| LegacyFalcon.CachedColumnsSorted | falcon.py:88-97 | on the cache path with no repeated m/z, the columns are the m/z and identifiers of the m/z-sorted spectra |
| LegacyFalcon.LegacyLoopFails | falcon.py:64-117 | the first failing charge ends the loop with its error |
| LegacyFalcon.LegacyLoopCaches | falcon.py:68-86 | the loop leaves a distance matrix for every charge it handled and keeps every matrix already there |
| LegacyFalcon.LegacyLoopOffsets | falcon.py:102-117 | the loop's tables and counter are the noise-masked label offsetting of the raw labels, with one label per identifier |
| LegacyFalcon.LegacyLoopDisjoint | falcon.py:102-105 | with density labels, noise stays noise and only noise, non-noise labels lie in [0, counter), and no two charges share a cluster |
| LegacyFalcon.LegacyLoopKeepsCluster | falcon.py:103-105 | every charge the loop got through had at least one raw label that is not noise |
| LegacyFalcon.LoopDistFails | falcon.py:69-86 | once the loop fails on a charge, the distance files left behind are those saved up to and including that charge |
| LegacyFalcon.LegacyWorkDir.LoadColumns | falcon.py:68-97 | a charge's columns follow the specification, and the distance file is saved only when it was missing |
| LegacyFalcon.LegacyWorkDir.ClusterCharge | falcon.py:65-117 | one charge of the loop is the specification's step, and the distance files are those saved at that charge, whether it succeeds or fails |
| LegacyFalcon.LegacyWorkDir.ClusterCharges | falcon.py:64-117 | the loop's result is the specification's loop from the distance files at the start, and the distance files left are those saved up to the last charge reached |
| LegacyFalcon.LegacyWorkDir.Run | falcon.py:44-128 | the run's outcome is the loop over the configured charges' lists; no table is a failure; both outputs are written on success; the representatives list is always empty; the distance files are those the loop saved, a failing charge included |

## Left out

- Concurrency:
  - The parallel readers (`joblib.Parallel`) are modelled as one sequential pass in file order.
  - The writer thread pool is modelled as one writer that takes the whole queue up to its first sentinel.
  - With several writers, the split of the queue between them and the dataset locks are not modelled.
  - The CSV and MGF writer threads are not modelled.
- Logging, `sys.argv` and configuration parsing, `os.makedirs`, `os.path.abspath` and the removal of a temporary working directory are left out.
- The file contents of `_write_cluster_info` are left out: the CSV header comments and the chunked `to_csv`. The model only records that the output file was written.
- The natural sort of the final table is left out, in both drivers. The model returns the tables in charge order.
- The row count of the prepared datasets is left out, because it only feeds a log line. The `except ValueError` branch that drops a charge whose dataset cannot be opened is left out too: every charge the writer records has a dataset (`FalconPipeline.PreparedDatasets`).
- `_create_lance_dataset` is modelled as creating an empty dataset. Schemas, storage versions and 32-bit float columns are left out, and m/z, intensities and vectors are `real`.
- The vectoriser is modelled one spectrum at a time. The source vectorises a whole batch, with a random projection fixed by a seed, which is not part of this model.
- FalconPipeline.EnumerateCharges: a set's iteration order is unspecified in the model. The contract fixes only that every charge is visited once.
- Sorting.Argsort: it keeps tied keys in index order, while `numpy.argsort` leaves their order unspecified. `LegacyFalcon.CachePathPairs` holds for any sorting order. `LegacyFalcon.CachePathMatchesComputePath` needs distinct m/z values, because with ties the cache path may pair a cached matrix row with a different spectrum of the same m/z.
- The compute path of `falcon.py` sorts the charge's list in place. The model sorts a copy, because the list is not used again.
- An earlier run can leave datasets without a `charges.joblib` file. Those datasets are appended to rather than recreated, and the model keeps that behaviour (`FalconPipeline.WorkDir.Run` states it through `Persist` over the old datasets).
- Glob expansion of input patterns is left out: the files are given as a list.
- WorkDir.Run, WorkDir.PrepareSpectra and WorkDir.LoadCharges model the corrected driver of the two rows under "## Findings": the cleanup removes dataset directories too, and the writers take from the queue while the readers fill it, so the queue bound never blocks. The driver as written is modelled by `FalconPipeline.CleanupFailsAfterPrepare` and `FalconPipeline.QueueBlocksBeforeWriters`.
- The noise mask of `falcon.py` is taken on the labels as clustered, before the shift, as the source does. Labels below -1 from the clustering are therefore shifted like cluster labels.

## Findings

| source | as written | input that shows it | evidently intended | confidence | as-written member | corrected member |
|---|---|---|---|---|---|---|
| falcon/falcon.py:161-165 | with overwriting on, every entry of the `spectra` directory is removed with the call for plain files | a working directory left by an earlier run that created any `spectra_charge_{c}.lance` dataset, which is a directory | remove every entry, dataset directories included, and start the run from a clean directory | likely; not executed | FalconPipeline.CleanupFailsAfterPrepare | FalconPipeline.WorkDir.CleanWorkDir |
| falcon/falcon.py:319-360 | the queue bounded at 1,000,000 spectra is filled completely before the writer pool that consumes it is created | more than 1,000,000 spectra passing processing: the next `put` waits for a consumer that does not exist yet | the writers consume while the readers produce, so every kept spectrum reaches its dataset | likely; not executed | FalconPipeline.QueueBlocksBeforeWriters | FalconPipeline.WorkDir.PrepareSpectra |
