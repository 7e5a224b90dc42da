/**
 * The earlier, single-file falcon driver: reading peak files with a quality
 * and charge filter, bucketing the spectra per configured charge, the
 * per-charge distance cache with its re-alignment of identifiers and m/z,
 * and the noise-masked label offsetting.
 *
 * The library calls it makes (spectrum processing, nearest-neighbour
 * distances with the vectoriser bound in, density clustering) are the
 * fields of `Collaborators`.
 */
module LegacyFalcon {
  import opened Wrappers
  import opened Spectra
  import opened Sorting
  import opened Labels

  /** The library functions the driver calls, with the configuration already bound. */
  datatype Collaborators = Collaborators(
    process: Spectrum -> Option<Spectrum>,                  // quality filtering; None rejects
    computeDistances: seq<Spectrum> -> DistMatrix,          // over the m/z-sorted spectra of a charge
    generateClusters: (DistMatrix, seq<real>) -> seq<int>)  // density clustering; -1 is noise

  /** One charge's part of the assignment table. */
  datatype Assignments = Assignments(identifiers: seq<string>, clusters: seq<int>)

  /** Why a run stops with an exception. */
  datatype LegacyError =
    | NoClusteredSpectrum(charge: int)   // every label of the charge is noise: the maximum of nothing fails
    | ColumnLengthMismatch(charge: int)  // the clustering did not return one label per identifier
    | NothingToConcatenate               // no charge is configured, so there is no table to concatenate

  // ---------------------------------------------------------------- reading

  /** The spectrum with its identifier turned into a universal spectrum identifier of dataset `pxd`. */
  function Prefixed(pxd: string, s: Spectrum): Spectrum
  {
    s.(identifier := "mzspec:" + pxd + ":" + s.identifier)
  }

  /** What one processing result contributes: the processed spectrum if it exists and has a configured charge. */
  function AcceptOne(processed: Option<Spectrum>, charges: seq<int>): (r: seq<Spectrum>)
  {
    match processed
    case Some(p) => if p.precursorCharge in charges then [p] else []
    case None => []
  }

  /** The processed spectra of a file that pass processing and have a configured charge, in file order. */
  function Accepted(raw: seq<Spectrum>, pxd: string, process: Spectrum -> Option<Spectrum>, charges: seq<int>): seq<Spectrum>
  {
    if raw == [] then []
    else Accepted(raw[..|raw| - 1], pxd, process, charges) + AcceptOne(process(Prefixed(pxd, raw[|raw| - 1])), charges)
  }

  lemma AcceptedStep(raw: seq<Spectrum>, i: nat, pxd: string, process: Spectrum -> Option<Spectrum>, charges: seq<int>)
    requires i < |raw|
    ensures Accepted(raw[..i + 1], pxd, process, charges)
      == Accepted(raw[..i], pxd, process, charges) + AcceptOne(process(Prefixed(pxd, raw[i])), charges)
  {
    assert raw[..i + 1][..i] == raw[..i];
  }

  /**
   * A spectrum is accepted exactly when it is the processing result of some
   * spectrum of the file (with its identifier prefixed) and has a configured
   * charge.
   */
  lemma {:induction false} AcceptedExactly(raw: seq<Spectrum>, pxd: string, process: Spectrum -> Option<Spectrum>,
                                           charges: seq<int>, p: Spectrum)
    ensures p in Accepted(raw, pxd, process, charges) <==>
      p.precursorCharge in charges && exists i :: 0 <= i < |raw| && process(Prefixed(pxd, raw[i])) == Some(p)
  {
    if raw != [] {
      var init := raw[..|raw| - 1];
      AcceptedExactly(init, pxd, process, charges, p);
      assert p in Accepted(raw, pxd, process, charges) <==>
        p in Accepted(init, pxd, process, charges) || (p.precursorCharge in charges && process(Prefixed(pxd, raw[|raw| - 1])) == Some(p));
      assert (exists i :: 0 <= i < |raw| && process(Prefixed(pxd, raw[i])) == Some(p))
        <==> (exists i :: 0 <= i < |init| && process(Prefixed(pxd, init[i])) == Some(p)) || process(Prefixed(pxd, raw[|raw| - 1])) == Some(p)
      by {
        forall i | 0 <= i < |init| ensures init[i] == raw[i] {
        }
      }
    }
  }

  /**
   * When processing keeps identifiers, every accepted spectrum carries the
   * identifier of a spectrum of the file behind the `mzspec:{pxd}:` prefix.
   */
  lemma AcceptedPrefixed(raw: seq<Spectrum>, pxd: string, process: Spectrum -> Option<Spectrum>, charges: seq<int>, p: Spectrum)
    requires forall s :: process(s).Some? ==> process(s).value.identifier == s.identifier
    requires p in Accepted(raw, pxd, process, charges)
    ensures exists i :: 0 <= i < |raw| && p.identifier == "mzspec:" + pxd + ":" + raw[i].identifier
  {
    AcceptedExactly(raw, pxd, process, charges, p);
    var i :| 0 <= i < |raw| && process(Prefixed(pxd, raw[i])) == Some(p);
    assert p.identifier == Prefixed(pxd, raw[i]).identifier;
  }

  /**
   * Reads one peak file: prefixes each identifier, keeps the spectra that
   * pass processing and have a configured charge, and sorts them by
   * precursor m/z (a stable sort).
   */
  method ReadProcessSpectra(file: PeakFile, pxd: string, process: Spectrum -> Option<Spectrum>, charges: seq<int>)
    returns (spectra: seq<Spectrum>)
    ensures spectra == SortBy(Accepted(file.spectra, pxd, process, charges), MzKey)
    ensures SortedBy(spectra, MzKey)
    ensures multiset(spectra) == multiset(Accepted(file.spectra, pxd, process, charges))
    ensures forall s :: s in spectra ==> s.precursorCharge in charges
  {
    spectra := [];
    var raw := file.spectra;
    for i := 0 to |raw|
      invariant spectra == Accepted(raw[..i], pxd, process, charges)
    {
      AcceptedStep(raw, i, pxd, process, charges);
      var processed := process(Prefixed(pxd, raw[i]));
      if processed.Some? && processed.value.precursorCharge in charges {
        spectra := spectra + [processed.value];
      }
    }
    assert raw[..|raw|] == raw;
    AcceptedCharges(raw, pxd, process, charges);
    ghost var accepted := spectra;
    spectra := SortBy(spectra, MzKey);
    forall s | s in spectra ensures s.precursorCharge in charges {
      assert s in multiset(accepted);
    }
  }

  /** Every accepted spectrum has a configured charge. */
  lemma {:induction false} AcceptedCharges(raw: seq<Spectrum>, pxd: string, process: Spectrum -> Option<Spectrum>, charges: seq<int>)
    ensures forall s :: s in Accepted(raw, pxd, process, charges) ==> s.precursorCharge in charges
  {
    if raw != [] {
      AcceptedCharges(raw[..|raw| - 1], pxd, process, charges);
    }
  }

  /** What reading one file returns. */
  function ReadResult(file: PeakFile, pxd: string, process: Spectrum -> Option<Spectrum>, charges: seq<int>): seq<Spectrum>
  {
    SortBy(Accepted(file.spectra, pxd, process, charges), MzKey)
  }

  /** What reading every file returns, file after file. */
  function ProcessedFiles(files: seq<PeakFile>, pxd: string, process: Spectrum -> Option<Spectrum>, charges: seq<int>)
    : (r: seq<seq<Spectrum>>)
    ensures |r| == |files|
    ensures forall f :: 0 <= f < |files| ==> r[f] == ReadResult(files[f], pxd, process, charges)
  {
    if files == [] then []
    else ProcessedFiles(files[..|files| - 1], pxd, process, charges) + [ReadResult(files[|files| - 1], pxd, process, charges)]
  }

  lemma ProcessedFilesStep(files: seq<PeakFile>, i: nat, pxd: string, process: Spectrum -> Option<Spectrum>, charges: seq<int>)
    requires i < |files|
    ensures ProcessedFiles(files[..i + 1], pxd, process, charges)
      == ProcessedFiles(files[..i], pxd, process, charges) + [ReadResult(files[i], pxd, process, charges)]
  {
    assert files[..i + 1][..i] == files[..i];
  }

  /** Reads the peak files one after the other. */
  method ReadFiles(files: seq<PeakFile>, pxd: string, process: Spectrum -> Option<Spectrum>, charges: seq<int>)
    returns (fileSpectra: seq<seq<Spectrum>>)
    ensures fileSpectra == ProcessedFiles(files, pxd, process, charges)
  {
    fileSpectra := [];
    for i := 0 to |files|
      invariant fileSpectra == ProcessedFiles(files[..i], pxd, process, charges)
    {
      var spectra := ReadProcessSpectra(files[i], pxd, process, charges);
      ProcessedFilesStep(files, i, pxd, process, charges);
      fileSpectra := fileSpectra + [spectra];
    }
    assert files[..|files|] == files;
  }

  // ---------------------------------------------------------------- bucketing

  /** The charges in first-occurrence order, each once: the keys of a dictionary built from them. */
  function Dedup(s: seq<int>): (r: seq<int>)
    ensures forall x :: x in r <==> x in s
    ensures Distinct(r)
  {
    if s == [] then []
    else
      var init := Dedup(s[..|s| - 1]);
      var last := s[|s| - 1];
      assert forall x :: x in s[..|s| - 1] ==> x in s;
      if last in init then init else init + [last]
  }

  /** Appending one spectrum extends the filter of its own charge and leaves the other charges' filters alone. */
  lemma OfChargeSnoc(items: seq<Spectrum>, s: Spectrum, c: int)
    ensures OfCharge(items + [s], c) == OfCharge(items, c) + (if s.precursorCharge == c then [s] else [])
  {
    assert (items + [s])[..|items|] == items;
  }

  /** Flattening one more list appends it. */
  lemma FlattenStep<T>(xss: seq<seq<T>>, f: nat)
    requires f < |xss|
    ensures Flatten(xss[..f + 1]) == Flatten(xss[..f]) + xss[f]
  {
    assert xss[..f + 1][..f] == xss[..f];
  }

  /** The buckets hold, per configured charge, the spectra of `seen` of that charge. */
  ghost predicate Bucketed(buckets: map<int, seq<Spectrum>>, charges: seq<int>, seen: seq<Spectrum>)
  {
    && (forall c :: c in buckets <==> c in charges)
    && (forall c :: c in buckets ==> buckets[c] == OfCharge(seen, c))
  }

  /** Appends every spectrum of one file to the list of its charge. */
  method BucketFile(buckets: map<int, seq<Spectrum>>, charges: seq<int>, ghost seen: seq<Spectrum>, spectra: seq<Spectrum>)
    returns (updated: map<int, seq<Spectrum>>)
    requires Bucketed(buckets, charges, seen)
    requires forall s :: s in spectra ==> s.precursorCharge in charges
    ensures Bucketed(updated, charges, seen + spectra)
  {
    updated := buckets;
    assert seen + spectra[..0] == seen;
    for j := 0 to |spectra|
      invariant Bucketed(updated, charges, seen + spectra[..j])
    {
      var spec := spectra[j];
      assert seen + spectra[..j + 1] == (seen + spectra[..j]) + [spec];
      forall c ensures OfCharge(seen + spectra[..j + 1], c)
        == OfCharge(seen + spectra[..j], c) + (if spec.precursorCharge == c then [spec] else [])
      {
        OfChargeSnoc(seen + spectra[..j], spec, c);
      }
      updated := updated[spec.precursorCharge := updated[spec.precursorCharge] + [spec]];
    }
    assert spectra[..|spectra|] == spectra;
  }

  /**
   * Puts every read spectrum into the list of its own charge. The lists
   * exist for exactly the configured charges, in their order; the charge
   * filter of the reader makes every lookup succeed.
   */
  method BucketSpectra(charges: seq<int>, fileSpectra: seq<seq<Spectrum>>)
    returns (order: seq<int>, buckets: map<int, seq<Spectrum>>)
    requires forall f, s :: 0 <= f < |fileSpectra| && s in fileSpectra[f] ==> s.precursorCharge in charges
    ensures order == Dedup(charges)
    ensures forall c :: c in buckets <==> c in charges
    ensures forall c :: c in buckets ==> buckets[c] == OfCharge(Flatten(fileSpectra), c)
  {
    order := Dedup(charges);
    buckets := map c | c in charges :: [];
    for f := 0 to |fileSpectra|
      invariant Bucketed(buckets, charges, Flatten(fileSpectra[..f]))
    {
      FlattenStep(fileSpectra, f);
      buckets := BucketFile(buckets, charges, Flatten(fileSpectra[..f]), fileSpectra[f]);
    }
    assert fileSpectra[..|fileSpectra|] == fileSpectra;
  }

  /** The read spectra all have configured charges, so bucketing them never misses. */
  lemma ProcessedCharges(files: seq<PeakFile>, pxd: string, process: Spectrum -> Option<Spectrum>, charges: seq<int>)
    ensures var fileSpectra := ProcessedFiles(files, pxd, process, charges);
      forall f, s :: 0 <= f < |fileSpectra| && s in fileSpectra[f] ==> s.precursorCharge in charges
  {
    var fileSpectra := ProcessedFiles(files, pxd, process, charges);
    forall f: int, s: Spectrum | 0 <= f < |fileSpectra| && s in fileSpectra[f] ensures s.precursorCharge in charges {
      var accepted := Accepted(files[f].spectra, pxd, process, charges);
      AcceptedCharges(files[f].spectra, pxd, process, charges);
      assert s in multiset(SortBy(accepted, MzKey));
    }
  }

  /** The per-charge lists after reading every file: for each configured charge, its spectra in reading order. */
  function Buckets(files: seq<PeakFile>, pxd: string, process: Spectrum -> Option<Spectrum>, charges: seq<int>)
    : (r: map<int, seq<Spectrum>>)
    ensures forall c :: c in r <==> c in charges
    ensures forall c :: c in Dedup(charges) ==> c in r
  {
    map c | c in charges :: OfCharge(Flatten(ProcessedFiles(files, pxd, process, charges)), c)
  }

  /** Reads every file and puts each kept spectrum into the list of its charge. */
  method ReadAndBucket(charges: seq<int>, files: seq<PeakFile>, pxd: string, process: Spectrum -> Option<Spectrum>)
    returns (order: seq<int>, buckets: map<int, seq<Spectrum>>)
    ensures order == Dedup(charges)
    ensures buckets == Buckets(files, pxd, process, charges)
  {
    var fileSpectra := ReadFiles(files, pxd, process, charges);
    ProcessedCharges(files, pxd, process, charges);
    order, buckets := BucketSpectra(charges, fileSpectra);
    ghost var spec := Buckets(files, pxd, process, charges);
    assert forall c :: c in buckets <==> c in spec;
  }

  // ---------------------------------------------------------------- the cache and the alignment

  /** The columns one charge is clustered with: distances, m/z values and identifiers, row by row. */
  datatype Columns = Columns(dist: DistMatrix, mzs: seq<real>, identifiers: seq<string>)

  /**
   * The compute path sorts the charge's spectra by m/z and takes both columns
   * from the sorted list; the cache path loads the matrix and reorders both
   * columns of the unsorted list by one m/z argsort.
   */
  function ChargeColumns(bucket: seq<Spectrum>, dist: map<int, DistMatrix>, c: int, collab: Collaborators): Columns
  {
    if c !in dist then
      var sorted := SortBy(bucket, MzKey);
      Columns(collab.computeDistances(sorted), Map(MzKey, sorted), Map(Identifier, sorted))
    else
      var order := Argsort(Map(MzKey, bucket));
      Columns(dist[c], Permute(Map(MzKey, bucket), order), Permute(Map(Identifier, bucket), order))
  }

  /** An identifier with its m/z. */
  function MzPair(s: Spectrum): (string, real) { (s.identifier, s.precursorMz) }

  /** The m/z of a pair. */
  function PairMz(p: (string, real)): real { p.1 }

  /** Two columns read row by row. */
  function Zip(ids: seq<string>, mzs: seq<real>): (r: seq<(string, real)>)
    requires |ids| == |mzs|
  {
    seq(|ids|, k requires 0 <= k < |ids| => (ids[k], mzs[k]))
  }

  /** A column of m/z values in non-decreasing order. */
  predicate NonDecreasing(col: seq<real>)
  {
    forall i, j :: 0 <= i < j < |col| ==> col[i] <= col[j]
  }

  /** On the compute path each row pairs a spectrum's identifier with its own m/z, in non-decreasing m/z order. */
  lemma ComputePathPairs(bucket: seq<Spectrum>)
    ensures var sorted := SortBy(bucket, MzKey);
      && Zip(Map(Identifier, sorted), Map(MzKey, sorted)) == Map(MzPair, sorted)
      && NonDecreasing(Map(MzKey, sorted))
  {
    var sorted := SortBy(bucket, MzKey);
    var rows := Zip(Map(Identifier, sorted), Map(MzKey, sorted));
    forall k | 0 <= k < |sorted| ensures rows[k] == MzPair(sorted[k]) {
    }
    forall i, j | 0 <= i < j < |sorted| ensures Map(MzKey, sorted)[i] <= Map(MzKey, sorted)[j] {
      assert MzKey(sorted[i]) <= MzKey(sorted[j]);
    }
  }

  /**
   * On the cache path, any order that sorts the m/z column (whatever it
   * does with ties) reorders identifiers and m/z values together: each row
   * pairs a spectrum's identifier with its own m/z, the m/z column is
   * non-decreasing, and the rows are those of the compute path up to order.
   */
  lemma CachePathPairs(bucket: seq<Spectrum>, order: seq<nat>)
    requires SortsKeys(order, Map(MzKey, bucket))
    ensures |Permute(Map(Identifier, bucket), order)| == |Permute(Map(MzKey, bucket), order)| == |bucket|
    ensures var rows := Zip(Permute(Map(Identifier, bucket), order), Permute(Map(MzKey, bucket), order));
      && rows == Permute(Map(MzPair, bucket), order)
      && NonDecreasing(Permute(Map(MzKey, bucket), order))
      && multiset(rows) == multiset(Map(MzPair, SortBy(bucket, MzKey)))
  {
    var pairs := Map(MzPair, bucket);
    PermutationInRange(order, |bucket|);
    var mzs := Permute(Map(MzKey, bucket), order);
    var rows := Zip(Permute(Map(Identifier, bucket), order), mzs);
    forall k | 0 <= k < |order| ensures rows[k] == Permute(pairs, order)[k] {
      assert order[k] < |bucket|;
      assert Permute(Map(Identifier, bucket), order)[k] == Map(Identifier, bucket)[order[k]] == Identifier(bucket[order[k]]);
      assert mzs[k] == Map(MzKey, bucket)[order[k]] == MzKey(bucket[order[k]]);
      assert rows[k] == (Permute(Map(Identifier, bucket), order)[k], mzs[k]);
      assert Permute(pairs, order)[k] == pairs[order[k]] == MzPair(bucket[order[k]]);
    }
    assert rows == Permute(pairs, order);
    PermuteIsPermutation(pairs, order);
    MapKeepsPermutation(MzPair, SortBy(bucket, MzKey), bucket);
  }

  /** Reordering distinct indices of a column without repeated m/z values repeats no m/z value. */
  lemma PermuteNoTies(bucket: seq<Spectrum>, order: seq<nat>)
    requires SortsKeys(order, Map(MzKey, bucket))
    requires forall i, j :: 0 <= i < j < |bucket| ==> bucket[i].precursorMz != bucket[j].precursorMz
    ensures var rows := Permute(Map(MzPair, bucket), order);
      forall i, j :: 0 <= i < j < |rows| ==> PairMz(rows[i]) != PairMz(rows[j])
  {
    PermutationDistinct(order, |bucket|);
    var rows := Permute(Map(MzPair, bucket), order);
    forall i, j | 0 <= i < j < |rows| ensures PairMz(rows[i]) != PairMz(rows[j]) {
      assert order[i] != order[j];
      assert PairMz(rows[i]) == bucket[order[i]].precursorMz;
      assert PairMz(rows[j]) == bucket[order[j]].precursorMz;
    }
  }

  /**
   * When no two spectra of the charge share an m/z, the cache path yields
   * exactly the identifier and m/z columns the compute path produced, so the
   * cached matrix rows line up with the identifiers.
   */
  lemma CachePathMatchesComputePath(bucket: seq<Spectrum>, order: seq<nat>)
    requires SortsKeys(order, Map(MzKey, bucket))
    requires forall i, j :: 0 <= i < j < |bucket| ==> bucket[i].precursorMz != bucket[j].precursorMz
    ensures Permute(Map(MzKey, bucket), order) == Map(MzKey, SortBy(bucket, MzKey))
    ensures Permute(Map(Identifier, bucket), order) == Map(Identifier, SortBy(bucket, MzKey))
  {
    var sorted := SortBy(bucket, MzKey);
    var cached := Permute(Map(MzPair, bucket), order);
    var computed := Map(MzPair, sorted);
    var mzs := Permute(Map(MzKey, bucket), order);
    var ids := Permute(Map(Identifier, bucket), order);
    assert cached == Zip(ids, mzs) && multiset(cached) == multiset(computed) by { CachePathPairs(bucket, order); }
    assert computed == Zip(Map(Identifier, sorted), Map(MzKey, sorted)) by { ComputePathPairs(bucket); }
    PermuteNoTies(bucket, order);
    assert SortedBy(cached, PairMz) by { CachedRowsSorted(bucket, order); }
    assert SortedBy(computed, PairMz) by { ComputedRowsSorted(bucket); }
    SortedWithoutTiesUnique(cached, computed, PairMz);
    ZipSame(ids, mzs, Map(Identifier, sorted), Map(MzKey, sorted));
  }

  /** The cache-path rows are sorted by their m/z. */
  lemma CachedRowsSorted(bucket: seq<Spectrum>, order: seq<nat>)
    requires SortsKeys(order, Map(MzKey, bucket))
    ensures SortedBy(Permute(Map(MzPair, bucket), order), PairMz)
  {
    CachePathPairs(bucket, order);
    var cached := Permute(Map(MzPair, bucket), order);
    var mzs := Permute(Map(MzKey, bucket), order);
    var ids := Permute(Map(Identifier, bucket), order);
    forall i, j | 0 <= i < j < |cached| ensures PairMz(cached[i]) <= PairMz(cached[j]) {
      assert cached[i] == Zip(ids, mzs)[i] && cached[j] == Zip(ids, mzs)[j];
    }
  }

  /** The compute-path rows are sorted by their m/z. */
  lemma ComputedRowsSorted(bucket: seq<Spectrum>)
    ensures SortedBy(Map(MzPair, SortBy(bucket, MzKey)), PairMz)
  {
    var sorted := SortBy(bucket, MzKey);
    var computed := Map(MzPair, sorted);
    forall i, j | 0 <= i < j < |computed| ensures PairMz(computed[i]) <= PairMz(computed[j]) {
      assert computed[i] == MzPair(sorted[i]) && computed[j] == MzPair(sorted[j]);
      assert MzKey(sorted[i]) <= MzKey(sorted[j]);
    }
  }

  /** Two equal zips of equal-length columns have equal columns. */
  lemma ZipSame(a: seq<string>, b: seq<real>, c: seq<string>, d: seq<real>)
    requires |a| == |b| && |c| == |d|
    requires Zip(a, b) == Zip(c, d)
    ensures a == c && b == d
  {
    assert |a| == |Zip(a, b)| == |c|;
    forall k | 0 <= k < |a| ensures a[k] == c[k] && b[k] == d[k] {
      assert Zip(a, b)[k] == Zip(c, d)[k];
    }
  }

  /**
   * A matrix cached for a charge by an earlier run over the same spectra is
   * used with the same m/z and identifier columns that run computed, as long
   * as no two spectra of the charge share an m/z.
   */
  lemma CachedColumnsMatchComputed(bucket: seq<Spectrum>, dist: map<int, DistMatrix>, c: int, collab: Collaborators)
    requires c in dist && dist[c] == collab.computeDistances(SortBy(bucket, MzKey))
    requires forall i, j :: 0 <= i < j < |bucket| ==> bucket[i].precursorMz != bucket[j].precursorMz
    ensures ChargeColumns(bucket, dist, c, collab) == ChargeColumns(bucket, map[], c, collab)
  {
    var sorted := SortBy(bucket, MzKey);
    CachedColumnsSorted(bucket, dist, c, collab);
    assert ChargeColumns(bucket, map[], c, collab)
      == Columns(collab.computeDistances(sorted), Map(MzKey, sorted), Map(Identifier, sorted));
  }

  /** On the cache path, with no repeated m/z, the columns are those of the m/z-sorted spectra. */
  lemma CachedColumnsSorted(bucket: seq<Spectrum>, dist: map<int, DistMatrix>, c: int, collab: Collaborators)
    requires c in dist
    requires forall i, j :: 0 <= i < j < |bucket| ==> bucket[i].precursorMz != bucket[j].precursorMz
    ensures var sorted := SortBy(bucket, MzKey);
      ChargeColumns(bucket, dist, c, collab) == Columns(dist[c], Map(MzKey, sorted), Map(Identifier, sorted))
  {
    CachePathMatchesComputePath(bucket, Argsort(Map(MzKey, bucket)));
  }

  // ---------------------------------------------------------------- clustering charge by charge

  /** The state of the loop over charges: tables so far, raw label arrays, the label counter, the cache files. */
  datatype LegacyPass = LegacyPass(tables: seq<Assignments>, raw: seq<seq<int>>, next: int, dist: map<int, DistMatrix>)

  /**
   * The distance files once charge `c` has been reached, whether its
   * clustering then succeeds or fails: a computed matrix is saved before the
   * labels are looked at.
   */
  function StepDist(p: LegacyPass, c: int, bucket: seq<Spectrum>, collab: Collaborators): map<int, DistMatrix>
  {
    if c in p.dist then p.dist else p.dist[c := ChargeColumns(bucket, p.dist, c, collab).dist]
  }

  /** Handles one charge: columns, clustering, noise-masked offsetting, the table. */
  function LegacyStep(p: LegacyPass, c: int, bucket: seq<Spectrum>, collab: Collaborators): Result<LegacyPass, LegacyError>
  {
    var columns := ChargeColumns(bucket, p.dist, c, collab);
    var dist := StepDist(p, c, bucket, collab);
    var labels := collab.generateClusters(columns.dist, columns.mzs);
    var shifted := MaskedShift(labels, p.next);
    var kept := Shift(NonNoise(labels), p.next);
    if kept == [] then Failure(LegacyError.NoClusteredSpectrum(c))
    else if |labels| != |columns.identifiers| then Failure(ColumnLengthMismatch(c))
    else Success(LegacyPass(p.tables + [Assignments(columns.identifiers, shifted)], p.raw + [labels], Max(kept) + 1, dist))
  }

  /** The loop over the charges in `order`, from label 0; the first failing charge ends it. */
  function LegacyLoop(order: seq<int>, buckets: map<int, seq<Spectrum>>, dist: map<int, DistMatrix>, collab: Collaborators)
    : Result<LegacyPass, LegacyError>
    requires forall c :: c in order ==> c in buckets
  {
    if order == [] then Success(LegacyPass([], [], 0, dist))
    else
      assert forall c :: c in order[..|order| - 1] ==> c in order;
      match LegacyLoop(order[..|order| - 1], buckets, dist, collab)
      case Failure(e) => Failure(e)
      case Success(p) => LegacyStep(p, order[|order| - 1], buckets[order[|order| - 1]], collab)
  }

  /** Once a prefix of the charges fails, the whole loop fails with that error. */
  lemma {:induction false} LegacyLoopFails(order: seq<int>, n: nat, buckets: map<int, seq<Spectrum>>,
                                           dist: map<int, DistMatrix>, collab: Collaborators)
    requires forall c :: c in order ==> c in buckets
    requires n <= |order|
    requires forall c :: c in order[..n] ==> c in buckets
    requires LegacyLoop(order[..n], buckets, dist, collab).Failure?
    ensures LegacyLoop(order, buckets, dist, collab) == LegacyLoop(order[..n], buckets, dist, collab)
  {
    if n < |order| {
      var init := order[..|order| - 1];
      assert init[..n] == order[..n];
      assert forall c :: c in init ==> c in order;
      LegacyLoopFails(init, n, buckets, dist, collab);
    } else {
      assert order[..n] == order;
    }
  }

  /** The distance files the loop leaves behind: those after the last charge it reached, a failing one included. */
  function LoopDist(order: seq<int>, buckets: map<int, seq<Spectrum>>, dist: map<int, DistMatrix>, collab: Collaborators)
    : map<int, DistMatrix>
    requires forall c :: c in order ==> c in buckets
  {
    if order == [] then dist
    else
      assert forall c :: c in order[..|order| - 1] ==> c in order;
      match LegacyLoop(order[..|order| - 1], buckets, dist, collab)
      case Failure(_) => LoopDist(order[..|order| - 1], buckets, dist, collab)
      case Success(p) => StepDist(p, order[|order| - 1], buckets[order[|order| - 1]], collab)
  }

  /** On a successful loop, the distance files left behind are the ones the loop carries. */
  lemma {:induction false} LoopDistSuccess(order: seq<int>, buckets: map<int, seq<Spectrum>>, dist: map<int, DistMatrix>,
                                           collab: Collaborators)
    requires forall c :: c in order ==> c in buckets
    requires LegacyLoop(order, buckets, dist, collab).Success?
    ensures LoopDist(order, buckets, dist, collab) == LegacyLoop(order, buckets, dist, collab).value.dist
  {
  }

  /** Once a prefix of the charges fails, the distance files are those that prefix left. */
  lemma {:induction false} LoopDistFails(order: seq<int>, n: nat, buckets: map<int, seq<Spectrum>>,
                                         dist: map<int, DistMatrix>, collab: Collaborators)
    requires forall c :: c in order ==> c in buckets
    requires n <= |order|
    requires forall c :: c in order[..n] ==> c in buckets
    requires LegacyLoop(order[..n], buckets, dist, collab).Failure?
    ensures LoopDist(order, buckets, dist, collab) == LoopDist(order[..n], buckets, dist, collab)
  {
    if n < |order| {
      var init := order[..|order| - 1];
      assert init[..n] == order[..n];
      assert forall c :: c in init ==> c in order;
      LoopDistFails(init, n, buckets, dist, collab);
      LegacyLoopFails(init, n, buckets, dist, collab);
    } else {
      assert order[..n] == order;
    }
  }

  /** A successful step adds the charge's matrix when it was missing and keeps every matrix already there. */
  lemma LegacyStepCaches(p: LegacyPass, c: int, bucket: seq<Spectrum>, collab: Collaborators)
    requires LegacyStep(p, c, bucket, collab).Success?
    ensures var d := LegacyStep(p, c, bucket, collab).value.dist;
      && (forall c' :: c' in d <==> c' in p.dist || c' == c)
      && (forall c' :: c' in p.dist ==> d[c'] == p.dist[c'])
  {
  }

  /**
   * The loop leaves a distance matrix for every charge it got through and
   * keeps every matrix that was already there: a charge is computed at most
   * once across runs.
   */
  lemma {:induction false} LegacyLoopCaches(order: seq<int>, buckets: map<int, seq<Spectrum>>, dist: map<int, DistMatrix>,
                                            collab: Collaborators)
    requires forall c :: c in order ==> c in buckets
    requires LegacyLoop(order, buckets, dist, collab).Success?
    ensures var p := LegacyLoop(order, buckets, dist, collab).value;
      && (forall c :: c in p.dist <==> c in dist || c in order)
      && (forall c :: c in dist ==> p.dist[c] == dist[c])
  {
    if order != [] {
      var init, c := order[..|order| - 1], order[|order| - 1];
      assert forall c :: c in init ==> c in order;
      assert forall c' :: c' in order <==> c' in init || c' == c by {
        assert order == init + [c];
      }
      LegacyLoopCaches(init, buckets, dist, collab);
      LegacyStepCaches(LegacyLoop(init, buckets, dist, collab).value, c, buckets[c], collab);
    }
  }

  /** The cluster columns of the tables, in order. */
  function ClusterColumns(tables: seq<Assignments>): (r: seq<seq<int>>)
    ensures |r| == |tables|
  {
    seq(|tables|, k requires 0 <= k < |tables| => tables[k].clusters)
  }

  /** The tables and the counter of `p` are the legacy label offsetting of `p.raw`, one table per charge. */
  ghost predicate LegacyOffsetted(p: LegacyPass)
  {
    && |p.tables| == |p.raw|
    && OffsetNonNoise(p.raw, 0) == Success(Offsets(ClusterColumns(p.tables), p.next))
    && (forall k :: 0 <= k < |p.tables| ==> |p.tables[k].identifiers| == |p.tables[k].clusters|)
  }

  lemma StepLegacyOffsetted(p: LegacyPass, c: int, bucket: seq<Spectrum>, collab: Collaborators)
    requires LegacyOffsetted(p)
    requires LegacyStep(p, c, bucket, collab).Success?
    ensures LegacyOffsetted(LegacyStep(p, c, bucket, collab).value)
  {
    var p' := LegacyStep(p, c, bucket, collab).value;
    assert p'.raw[..|p.raw|] == p.raw;
    assert ClusterColumns(p'.tables) == ClusterColumns(p.tables) + [p'.tables[|p.tables|].clusters];
  }

  /**
   * The loop is the legacy label offsetting applied to the raw label arrays:
   * noise stays -1, the other labels of a charge are shifted by the counter,
   * one table per charge, one label per identifier.
   */
  lemma {:induction false} LegacyLoopOffsets(order: seq<int>, buckets: map<int, seq<Spectrum>>, dist: map<int, DistMatrix>,
                                             collab: Collaborators)
    requires forall c :: c in order ==> c in buckets
    requires LegacyLoop(order, buckets, dist, collab).Success?
    ensures var p := LegacyLoop(order, buckets, dist, collab).value;
      |p.raw| == |order| && LegacyOffsetted(p)
  {
    if order != [] {
      var init := order[..|order| - 1];
      assert forall c :: c in init ==> c in order;
      LegacyLoopOffsets(init, buckets, dist, collab);
      StepLegacyOffsetted(LegacyLoop(init, buckets, dist, collab).value, order[|order| - 1], buckets[order[|order| - 1]], collab);
    }
  }

  /**
   * With density labels (noise or a cluster number), noise stays noise and
   * only noise, the non-noise labels lie in [0, counter), and those of an
   * earlier charge are all smaller than those of a later one: no two
   * charges share a cluster.
   */
  lemma LegacyLoopDisjoint(order: seq<int>, buckets: map<int, seq<Spectrum>>, dist: map<int, DistMatrix>, collab: Collaborators)
    requires forall c :: c in order ==> c in buckets
    requires LegacyLoop(order, buckets, dist, collab).Success?
    requires DensityLabels(LegacyLoop(order, buckets, dist, collab).value.raw)
    ensures var p := LegacyLoop(order, buckets, dist, collab).value;
      && |p.tables| == |p.raw| == |order|
      && (forall k :: 0 <= k < |p.tables| ==> |p.tables[k].clusters| == |p.raw[k]|)
      && (forall k, i :: 0 <= k < |p.tables| && 0 <= i < |p.raw[k]| ==>
            (p.tables[k].clusters[i] == Noise <==> p.raw[k][i] == Noise))
      && (forall k, x :: 0 <= k < |p.tables| && x in NonNoise(p.tables[k].clusters) ==> 0 <= x < p.next)
      && (forall k1, k2, x, y ::
            0 <= k1 < k2 < |p.tables| && x in NonNoise(p.tables[k1].clusters) && y in NonNoise(p.tables[k2].clusters)
            ==> x < y)
  {
    LegacyLoopOffsets(order, buckets, dist, collab);
    OffsettedDisjoint(LegacyLoop(order, buckets, dist, collab).value);
  }

  /** The disjointness and masking facts for any pass whose tables are the offsetting of its raw labels. */
  lemma OffsettedDisjoint(p: LegacyPass)
    requires LegacyOffsetted(p)
    requires DensityLabels(p.raw)
    ensures && (forall k :: 0 <= k < |p.tables| ==> |p.tables[k].clusters| == |p.raw[k]|)
      && (forall k, i :: 0 <= k < |p.tables| && 0 <= i < |p.raw[k]| ==>
            (p.tables[k].clusters[i] == Noise <==> p.raw[k][i] == Noise))
      && (forall k, x :: 0 <= k < |p.tables| && x in NonNoise(p.tables[k].clusters) ==> 0 <= x < p.next)
      && (forall k1, k2, x, y ::
            0 <= k1 < k2 < |p.tables| && x in NonNoise(p.tables[k1].clusters) && y in NonNoise(p.tables[k2].clusters)
            ==> x < y)
  {
    var cols := ClusterColumns(p.tables);
    OffsetNonNoiseDisjoint(p.raw, 0);
    OffsetNonNoiseMasks(p.raw, 0);
    assert OffsetNonNoise(p.raw, 0).value.tables == cols;
    assert forall k :: 0 <= k < |p.tables| ==> p.tables[k].clusters == cols[k];
  }

  /**
   * Every charge the loop got through had at least one label outside the
   * noise mask: a charge whose clustering is all noise stops the run.
   */
  lemma {:induction false} LegacyLoopKeepsCluster(order: seq<int>, buckets: map<int, seq<Spectrum>>, dist: map<int, DistMatrix>,
                                                  collab: Collaborators, k: nat)
    requires forall c :: c in order ==> c in buckets
    requires LegacyLoop(order, buckets, dist, collab).Success?
    requires k < |LegacyLoop(order, buckets, dist, collab).value.raw|
    ensures NonNoise(LegacyLoop(order, buckets, dist, collab).value.raw[k]) != []
  {
    var init := order[..|order| - 1];
    assert forall c :: c in init ==> c in order;
    var q := LegacyLoop(init, buckets, dist, collab).value;
    var p := LegacyLoop(order, buckets, dist, collab).value;
    assert p.raw == q.raw + [p.raw[|q.raw|]];
    if k < |q.raw| {
      LegacyLoopKeepsCluster(init, buckets, dist, collab, k);
      assert p.raw[k] == q.raw[k];
    }
  }

  // ---------------------------------------------------------------- the working directory

  /** The files of the legacy working directory. */
  class LegacyWorkDir {
    var distFiles: map<int, DistMatrix>   // dist_{charge}.npz
    var csvWritten: bool                  // clusters.csv
    var mgfWritten: bool                  // clusters.mgf

    constructor (dist: map<int, DistMatrix>)
      ensures distFiles == dist && !csvWritten && !mgfWritten
    {
      distFiles := dist;
      csvWritten, mgfWritten := false, false;
    }

    /**
     * The columns of one charge: on a missing distance file the spectra are
     * sorted by m/z and the distances computed and saved; otherwise the
     * matrix is loaded and the m/z and identifier columns, collected in list
     * order, are reordered by one argsort.
     */
    method LoadColumns(c: int, bucket: seq<Spectrum>, collab: Collaborators) returns (columns: Columns)
      modifies this`distFiles
      ensures columns == ChargeColumns(bucket, old(distFiles), c, collab)
      ensures distFiles == if c in old(distFiles) then old(distFiles) else old(distFiles)[c := columns.dist]
    {
      if c !in distFiles {
        var sorted := SortBy(bucket, MzKey);
        var dist := collab.computeDistances(sorted);
        distFiles := distFiles[c := dist];
        return Columns(dist, Map(MzKey, sorted), Map(Identifier, sorted));
      }
      var precursorMzs: seq<real>, identifiers: seq<string> := [], [];
      for i := 0 to |bucket|
        invariant precursorMzs == Map(MzKey, bucket[..i])
        invariant identifiers == Map(Identifier, bucket[..i])
        invariant distFiles == old(distFiles)
      {
        assert bucket[..i + 1] == bucket[..i] + [bucket[i]];
        MapSnoc(MzKey, bucket[..i], bucket[i]);
        MapSnoc(Identifier, bucket[..i], bucket[i]);
        precursorMzs := precursorMzs + [MzKey(bucket[i])];
        identifiers := identifiers + [Identifier(bucket[i])];
      }
      assert bucket[..|bucket|] == bucket;
      var order := Argsort(precursorMzs);
      columns := Columns(distFiles[c], Permute(precursorMzs, order), Permute(identifiers, order));
    }

    /**
     * One charge of the loop: its columns, its clustering, non-noise labels
     * offset by the counter, which moves past the largest of them.
     */
    method ClusterCharge(c: int, bucket: seq<Spectrum>, collab: Collaborators, tables: seq<Assignments>,
                         raw: seq<seq<int>>, currentLabel: int)
      returns (r: Result<LegacyPass, LegacyError>)
      modifies this`distFiles
      ensures r == LegacyStep(LegacyPass(tables, raw, currentLabel, old(distFiles)), c, bucket, collab)
      ensures distFiles == StepDist(LegacyPass(tables, raw, currentLabel, old(distFiles)), c, bucket, collab)
    {
      var columns := LoadColumns(c, bucket, collab);
      var clusters := collab.generateClusters(columns.dist, columns.mzs);
      var shifted := MaskedShift(clusters, currentLabel);
      var kept := Shift(NonNoise(clusters), currentLabel);   // the masked selection, after the shift
      if kept == [] {
        return Failure(LegacyError.NoClusteredSpectrum(c));
      }
      var next := Max(kept) + 1;
      if |clusters| != |columns.identifiers| {
        return Failure(ColumnLengthMismatch(c));
      }
      r := Success(LegacyPass(tables + [Assignments(columns.identifiers, shifted)], raw + [clusters], next, distFiles));
    }

    /** The loop over the charges in `order`. */
    method ClusterCharges(order: seq<int>, buckets: map<int, seq<Spectrum>>, collab: Collaborators)
      returns (r: Result<LegacyPass, LegacyError>)
      requires forall c :: c in order ==> c in buckets
      modifies this`distFiles
      ensures r == LegacyLoop(order, buckets, old(distFiles), collab)
      ensures r.Success? ==> distFiles == r.value.dist
      ensures distFiles == LoopDist(order, buckets, old(distFiles), collab)
    {
      var p := LegacyPass([], [], 0, distFiles);
      for i := 0 to |order|
        invariant LegacyLoop(order[..i], buckets, old(distFiles), collab) == Success(p)
        invariant distFiles == p.dist
      {
        assert order[..i + 1][..i] == order[..i];
        assert forall c :: c in order[..i + 1] ==> c in order;
        var step := ClusterCharge(order[i], buckets[order[i]], collab, p.tables, p.raw, p.next);
        if step.Failure? {
          assert step == LegacyLoop(order, buckets, old(distFiles), collab) by {
            LegacyLoopFails(order, i + 1, buckets, old(distFiles), collab);
          }
          assert distFiles == LoopDist(order, buckets, old(distFiles), collab) by {
            LoopDistFails(order, i + 1, buckets, old(distFiles), collab);
          }
          return step;
        }
        p := step.value;
      }
      assert order[..|order|] == order;
      LoopDistSuccess(order, buckets, old(distFiles), collab);
      r := Success(p);
    }

    /**
     * The driver: reads every file, buckets the spectra per configured
     * charge, clusters charge after charge, and writes the assignments and
     * the (always empty) list of representatives.
     */
    method Run(charges: seq<int>, files: seq<PeakFile>, pxd: string, collab: Collaborators)
      returns (r: Result<seq<Assignments>, LegacyError>, representatives: seq<Spectrum>)
      modifies this
      ensures representatives == []
      ensures var loop := LegacyLoop(Dedup(charges), Buckets(files, pxd, collab.process, charges), old(distFiles), collab);
        && (loop.Failure? ==> r == Failure(loop.error))
        && distFiles == LoopDist(Dedup(charges), Buckets(files, pxd, collab.process, charges), old(distFiles), collab)
        && (loop.Success? && loop.value.tables == [] ==> r == Failure(NothingToConcatenate))
        && (loop.Success? && loop.value.tables != [] ==> r == Success(loop.value.tables) && csvWritten && mgfWritten)
    {
      representatives := [];
      var order, buckets := ReadAndBucket(charges, files, pxd, collab.process);
      var clustered := ClusterCharges(order, buckets, collab);
      if clustered.Failure? {
        return Failure(clustered.error), representatives;
      }
      var tables := clustered.value.tables;
      if tables == [] {
        return Failure(NothingToConcatenate), representatives;
      }
      csvWritten := true;
      mgfWritten := true;
      r := Success(tables);
    }
  }
}
