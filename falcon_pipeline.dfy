/**
 * The current falcon pipeline driver: reading and filtering peak files,
 * staging spectra per charge into per-charge datasets, the cache decisions
 * for the per-charge distance matrices, and the loop that clusters charge
 * after charge with globally unique labels.
 *
 * The working directory is a `WorkDir` object whose fields are the files
 * the driver reads, writes and removes. The library calls it makes
 * (spectrum processing, vectorising, nearest-neighbour distances,
 * clustering, medoid selection) are the fields of `Collaborators`.
 */
module FalconPipeline {
  import opened Wrappers
  import opened Spectra
  import opened Labels
  import opened WriterSpec

  /** One row of a charge's metadata table. */
  datatype MetaRow = MetaRow(identifier: string, precursorMz: real, precursorCharge: int, retentionTime: real, filename: string)

  /** A charge's metadata table with the `cluster` column added. */
  datatype ClusterTable = ClusterTable(metadata: seq<MetaRow>, clusters: seq<int>)

  /** The configuration values the driver branches on. */
  datatype Config = Config(overwrite: bool, exportRepresentatives: bool)

  /** The library functions the driver calls, with the configuration already bound. */
  datatype Collaborators = Collaborators(
    process: Spectrum -> Option<Spectrum>,                          // quality filtering; None rejects
    vectorize: Spectrum -> seq<real>,                                // one low-dimensional vector per spectrum
    computeDistances: (seq<Row>, int) -> (DistMatrix, seq<MetaRow>), // from a charge's dataset
    generateClusters: (DistMatrix, seq<MetaRow>) -> seq<int>,        // one label per metadata row
    representatives: (seq<int>, DistMatrix, seq<Row>) -> seq<Row>)   // medoid rows taken from the dataset

  /** Why a run stops with an exception instead of an exit status. */
  datatype PipelineError =
    | NoInputFiles                 // no input file: pools of zero workers cannot be created
    | MissingDataset(charge: int)  // a listed charge has no spectra dataset to open
    | LabelCountMismatch(charge: int) // the clustering did not return one label per metadata row
    | NothingToConcatenate         // no charge produced a cluster table

  // ---------------------------------------------------------------- reading

  /** The spectrum with its source file set, before processing. */
  function Named(s: Spectrum, name: string): Spectrum
  {
    s.(filename := name)
  }

  /** The processed spectra of a file that pass quality filtering, in file order. */
  function Kept(raw: seq<Spectrum>, name: string, process: Spectrum -> Option<Spectrum>): seq<Spectrum>
  {
    if raw == [] then []
    else
      Kept(raw[..|raw| - 1], name, process)
        + match process(Named(raw[|raw| - 1], name)) case Some(p) => [p] case None => []
  }

  /** How many spectra of a file processing rejects. */
  function Rejected(raw: seq<Spectrum>, name: string, process: Spectrum -> Option<Spectrum>): nat
  {
    if raw == [] then 0
    else Rejected(raw[..|raw| - 1], name, process) + (if process(Named(raw[|raw| - 1], name)).None? then 1 else 0)
  }

  /** Every spectrum read is either kept or counted as low quality, never both. */
  lemma {:induction false} KeptAndRejected(raw: seq<Spectrum>, name: string, process: Spectrum -> Option<Spectrum>)
    ensures |Kept(raw, name, process)| + Rejected(raw, name, process) == |raw|
  {
    if raw != [] {
      KeptAndRejected(raw[..|raw| - 1], name, process);
    }
  }

  /** The kept spectra are exactly the processing results that are not `None`. */
  lemma {:induction false} KeptExactly(raw: seq<Spectrum>, name: string, process: Spectrum -> Option<Spectrum>, p: Spectrum)
    ensures p in Kept(raw, name, process) <==> exists i :: 0 <= i < |raw| && process(Named(raw[i], name)) == Some(p)
  {
    if raw != [] {
      var init := raw[..|raw| - 1];
      var last := process(Named(raw[|raw| - 1], name));
      KeptExactly(init, name, process, p);
      assert p in Kept(raw, name, process) <==> p in Kept(init, name, process) || last == Some(p);
      assert (exists i :: 0 <= i < |raw| && process(Named(raw[i], name)) == Some(p))
        <==> (exists i :: 0 <= i < |init| && process(Named(init[i], name)) == Some(p)) || last == Some(p)
      by {
        forall i | 0 <= i < |init| ensures init[i] == raw[i] {
        }
      }
    }
  }

  /** Reads one peak file: keeps the spectra that pass processing and counts the others. */
  method ReadSpectra(file: PeakFile, process: Spectrum -> Option<Spectrum>) returns (spectra: seq<Spectrum>, lowQuality: nat)
    ensures spectra == Kept(file.spectra, file.name, process)
    ensures lowQuality == Rejected(file.spectra, file.name, process)
    ensures |spectra| + lowQuality == |file.spectra|
  {
    lowQuality := 0;
    spectra := [];
    var raw := file.spectra;
    for i := 0 to |raw|
      invariant spectra == Kept(raw[..i], file.name, process)
      invariant lowQuality == Rejected(raw[..i], file.name, process)
    {
      assert raw[..i + 1][..i] == raw[..i];
      var spec := Named(raw[i], file.name);
      var processed := process(spec);
      if processed.None? {
        lowQuality := lowQuality + 1;
      } else {
        spectra := spectra + [processed.value];
      }
    }
    assert raw[..|raw|] == raw;
    KeptAndRejected(raw, file.name, process);
  }

  /** The spectra of all files that pass processing, file after file. */
  function KeptAll(files: seq<PeakFile>, process: Spectrum -> Option<Spectrum>): seq<Spectrum>
  {
    if files == [] then []
    else
      var last := files[|files| - 1];
      KeptAll(files[..|files| - 1], process) + Kept(last.spectra, last.name, process)
  }

  /** The low-quality count of the whole run: the sum of the per-file counts. */
  function RejectedAll(files: seq<PeakFile>, process: Spectrum -> Option<Spectrum>): nat
  {
    if files == [] then 0
    else
      var last := files[|files| - 1];
      RejectedAll(files[..|files| - 1], process) + Rejected(last.spectra, last.name, process)
  }

  /** The queue items for a list of spectra. */
  function Enqueued(spectra: seq<Spectrum>): (r: seq<Option<Spectrum>>)
  {
    seq(|spectra|, i requires 0 <= i < |spectra| => Some(spectra[i]))
  }

  /** The queue as the writers find it: every kept spectrum, then one sentinel per writer. */
  function SpectraQueue(files: seq<PeakFile>, process: Spectrum -> Option<Spectrum>, workers: nat): seq<Option<Spectrum>>
  {
    Enqueued(KeptAll(files, process)) + seq(workers, _ => None)
  }

  /** With at least one writer, the writer takes exactly the kept spectra of all files. */
  lemma QueueConsumed(files: seq<PeakFile>, process: Spectrum -> Option<Spectrum>, workers: nat)
    requires workers > 0
    ensures None in SpectraQueue(files, process, workers)
    ensures Consumed(SpectraQueue(files, process, workers)) == KeptAll(files, process)
  {
    var kept := KeptAll(files, process);
    var q := SpectraQueue(files, process, workers);
    assert q[|kept|] == None;
    assert FirstSentinel(q) == |kept|;
  }

  /**
   * The reading half of preparing the spectra: reads the files one after the
   * other, adds up the low-quality counts and puts every kept spectrum on the
   * queue.
   */
  method ReadAll(files: seq<PeakFile>, process: Spectrum -> Option<Spectrum>)
    returns (queue: seq<Option<Spectrum>>, lowQuality: nat)
    ensures queue == Enqueued(KeptAll(files, process))
    ensures lowQuality == RejectedAll(files, process)
  {
    queue := [];
    lowQuality := 0;
    for f := 0 to |files|
      invariant queue == Enqueued(KeptAll(files[..f], process))
      invariant lowQuality == RejectedAll(files[..f], process)
    {
      assert files[..f + 1][..f] == files[..f];
      var fileSpectra, lqc := ReadSpectra(files[f], process);
      lowQuality := lowQuality + lqc;
      ghost var before := KeptAll(files[..f], process);
      for j := 0 to |fileSpectra|
        invariant queue == Enqueued(before + fileSpectra[..j])
      {
        assert before + fileSpectra[..j + 1] == (before + fileSpectra[..j]) + [fileSpectra[j]];
        queue := queue + [Some(fileSpectra[j])];
      }
      assert fileSpectra[..|fileSpectra|] == fileSpectra;
    }
    assert files[..|files|] == files;
  }

  // ---------------------------------------------------------------- datasets

  /** The rows of the dataset of charge `c`; a dataset that does not exist reads as empty. */
  function Dataset(datasets: map<int, seq<Row>>, c: int): seq<Row>
  {
    if c in datasets then datasets[c] else []
  }

  /** The datasets after a sequence of appends (each creating its dataset first if needed). */
  function Persist(datasets: map<int, seq<Row>>, flushed: seq<Flush>, vectorize: Spectrum -> seq<real>): map<int, seq<Row>>
  {
    if flushed == [] then datasets
    else
      var prev := Persist(datasets, flushed[..|flushed| - 1], vectorize);
      var f := flushed[|flushed| - 1];
      prev[f.charge := Dataset(prev, f.charge) + Attach(f.batch, vectorize)]
  }

  /**
   * After the appends, the dataset of each charge holds its old rows followed
   * by everything written to that charge, in order, each spectrum with its
   * own vector; a dataset exists for every charge that was written to.
   */
  lemma {:induction false} PersistWritten(datasets: map<int, seq<Row>>, flushed: seq<Flush>, vectorize: Spectrum -> seq<real>, c: int)
    ensures Dataset(Persist(datasets, flushed, vectorize), c) == Dataset(datasets, c) + Attach(Written(flushed, c), vectorize)
    ensures c in Persist(datasets, flushed, vectorize) <==> c in datasets || exists k :: 0 <= k < |flushed| && flushed[k].charge == c
  {
    if flushed != [] {
      var init, f := flushed[..|flushed| - 1], flushed[|flushed| - 1];
      PersistWritten(datasets, init, vectorize, c);
      AttachKeepsSpectra(Written(init, c), f.batch, vectorize);
      if c !in datasets && c != f.charge && exists k :: 0 <= k < |flushed| && flushed[k].charge == c {
        var k :| 0 <= k < |flushed| && flushed[k].charge == c;
        assert init[k] == flushed[k];
      }
      if exists k :: 0 <= k < |init| && init[k].charge == c {
        var k :| 0 <= k < |init| && init[k].charge == c;
        assert flushed[k] == init[k];
      }
    }
  }

  lemma PersistSnoc(datasets: map<int, seq<Row>>, flushed: seq<Flush>, f: Flush, vectorize: Spectrum -> seq<real>)
    ensures Persist(datasets, flushed + [f], vectorize)
         == Persist(datasets, flushed, vectorize)[f.charge := Dataset(Persist(datasets, flushed, vectorize), f.charge) + Attach(f.batch, vectorize)]
  {
    assert (flushed + [f])[..|flushed|] == flushed;
  }

  lemma ArrivedSnoc(queue: seq<Option<Spectrum>>, i: nat)
    requires i < |queue| && queue[i].Some?
    requires forall j :: 0 <= j < i ==> queue[j].Some?
    ensures Arrived(queue, i + 1) == Arrived(queue, i) + [queue[i].value]
    ensures ChargesOf(Arrived(queue, i + 1)) == ChargesOf(Arrived(queue, i)) + {queue[i].value.precursorCharge}
  {
    assert Arrived(queue, i + 1) == Arrived(queue, i) + [queue[i].value];
  }

  /** The writer's in-place update for one spectrum is the state machine's `Accept`. */
  lemma AcceptStep(keys: seq<int>, buffers: map<int, seq<Spectrum>>, log: seq<Flush>, spec: Spectrum)
    ensures var c := spec.precursorCharge;
      var keys' := if c in buffers then keys else keys + [c];
      var created := if c in buffers then buffers else buffers[c := []];
      var appended := created[c := created[c] + [spec]];
      Accept(Staging(keys, buffers, log), spec)
        == if |appended[c]| >= FlushThreshold
           then Staging(keys', appended[c := []], log + [Flush(c, appended[c])])
           else Staging(keys', appended, log)
  {
  }

  /** The writer's in-place update for one key of the final drain is the state machine's `FlushKey`. */
  lemma FlushStep(keys: seq<int>, buffers: map<int, seq<Spectrum>>, log: seq<Flush>, c: int)
    ensures var buffer := if c in buffers then buffers[c] else [];
      FlushKey(Staging(keys, buffers, log), c)
        == if |buffer| != 0 then Staging(keys, buffers[c := []], log + [Flush(c, buffer)])
           else Staging(keys, buffers, log)
  {
  }

  // ---------------------------------------------------------------- preparing the spectra

  /** The number of reader and writer workers: one per input file, at most one per core. */
  function FileWorkers(fileCount: nat, cpuCount: nat): (w: nat)
    ensures w <= fileCount && w <= cpuCount
    ensures w == fileCount || w == cpuCount
  {
    if fileCount < cpuCount then fileCount else cpuCount
  }

  /**
   * After the writer has consumed the queue of a run, the dataset of every
   * charge holds its old rows followed by exactly the kept spectra of that
   * charge, in reading order, each with its own vector; and every charge the
   * writer reports has a dataset.
   */
  lemma PreparedDatasets(files: seq<PeakFile>, process: Spectrum -> Option<Spectrum>, workers: nat,
                         datasets: map<int, seq<Row>>, vectorize: Spectrum -> seq<real>, c: int)
    requires workers > 0
    ensures None in SpectraQueue(files, process, workers)
    ensures var after := Persist(datasets, Consume(SpectraQueue(files, process, workers)).flushed, vectorize);
      && Dataset(after, c) == Dataset(datasets, c) + Attach(OfCharge(KeptAll(files, process), c), vectorize)
      && (c in ChargesOf(KeptAll(files, process)) ==> c in after)
  {
    var q := SpectraQueue(files, process, workers);
    QueueConsumed(files, process, workers);
    WriterConserves(q, c);
    WriterCharges(q, c);
    PersistWritten(datasets, Consume(q).flushed, vectorize, c);
    var flushed := Consume(q).flushed;
    if c in ChargesOf(KeptAll(files, process)) && c !in datasets {
      // Some flush wrote to charge c, so its dataset was created.
      WrittenCharge(flushed, c);
    }
  }

  /** A charge that received spectra was the charge of one of the flushes. */
  lemma {:induction false} WrittenCharge(flushed: seq<Flush>, c: int)
    requires Written(flushed, c) != []
    ensures exists k :: 0 <= k < |flushed| && flushed[k].charge == c
  {
    var init, f := flushed[..|flushed| - 1], flushed[|flushed| - 1];
    WrittenSnoc(init, f, c);
    assert init + [f] == flushed;
    if f.charge != c {
      WrittenCharge(init, c);
      var k :| 0 <= k < |init| && init[k].charge == c;
      assert flushed[k] == init[k];
    }
  }

  /** Capacity of the queue between the readers and the writers. */
  const MaxSpectraInMemory: nat := 1000000

  /** Why filling the bounded queue never returns: it is full after `put` spectra and nothing takes from it yet. */
  datatype QueueError = QueueFullWithoutConsumer(put: nat)

  /**
   * `put` of each spectrum of `items`, in order, on a queue bounded at
   * `capacity` that already holds `queued` and that nothing consumes: a put
   * on a full queue waits for ever.
   */
  function PutAll(queued: seq<Option<Spectrum>>, items: seq<Spectrum>, capacity: nat)
    : Result<seq<Option<Spectrum>>, QueueError>
    decreases |items|
  {
    if items == [] then Success(queued)
    else if |queued| >= capacity then Failure(QueueFullWithoutConsumer(|queued|))
    else PutAll(queued + [Some(items[0])], items[1..], capacity)
  }

  /**
   * The queue as the driver as written fills it: every kept spectrum is put
   * on the bounded queue, file after file, before any writer is started.
   */
  function FillQueueBeforeWriters(files: seq<PeakFile>, process: Spectrum -> Option<Spectrum>)
    : Result<seq<Option<Spectrum>>, QueueError>
  {
    PutAll([], KeptAll(files, process), MaxSpectraInMemory)
  }

  /**
   * Putting onto a queue nobody takes from succeeds, appending every item,
   * exactly when the items fit in the room left; otherwise it blocks once
   * the queue holds `capacity` items.
   */
  lemma {:induction false} PutAllBlocks(queued: seq<Option<Spectrum>>, items: seq<Spectrum>, capacity: nat)
    requires |queued| <= capacity
    ensures var r := PutAll(queued, items, capacity);
      && (r.Failure? <==> |queued| + |items| > capacity)
      && (r.Failure? ==> r.error == QueueFullWithoutConsumer(capacity))
      && (r.Success? ==> r.value == queued + Enqueued(items))
    decreases |items|
  {
    if items != [] && |queued| < capacity {
      PutAllBlocks(queued + [Some(items[0])], items[1..], capacity);
      assert queued + [Some(items[0])] + Enqueued(items[1..]) == queued + Enqueued(items);
    }
  }

  /**
   * As written, filling the queue before the writers exist blocks, after
   * 1,000,000 puts, exactly when more spectra are kept than the queue holds;
   * when it does not block, a writer started afterwards takes every kept
   * spectrum.
   */
  lemma QueueBlocksBeforeWriters(files: seq<PeakFile>, process: Spectrum -> Option<Spectrum>)
    ensures var r := FillQueueBeforeWriters(files, process);
      && (r.Failure? <==> |KeptAll(files, process)| > MaxSpectraInMemory)
      && (r.Failure? ==> r.error == QueueFullWithoutConsumer(MaxSpectraInMemory))
      && (r.Success? ==> None in r.value + [None] && Consumed(r.value + [None]) == KeptAll(files, process))
  {
    var kept := KeptAll(files, process);
    PutAllBlocks([], kept, MaxSpectraInMemory);
    if |kept| <= MaxSpectraInMemory {
      assert FillQueueBeforeWriters(files, process).value == Enqueued(kept) by {
        assert [] + Enqueued(kept) == Enqueued(kept);
      }
      SentinelAfter(kept);
    }
  }

  /** A writer started on the spectra followed by a sentinel takes exactly those spectra. */
  lemma SentinelAfter(kept: seq<Spectrum>)
    ensures None in Enqueued(kept) + [None]
    ensures Consumed(Enqueued(kept) + [None]) == kept
  {
    var q := Enqueued(kept) + [None];
    assert q[|kept|] == None;
    assert FirstSentinel(q) == |kept|;
  }

  /**
   * The iteration order of a set of charges. The order is the container's
   * own and is not specified; the model picks an arbitrary remaining charge
   * at each step.
   */
  method EnumerateCharges(charges: set<int>) returns (order: seq<int>)
    ensures forall c :: c in order <==> c in charges
    ensures forall i, j :: 0 <= i < j < |order| ==> order[i] != order[j]
    ensures |order| == |charges|
  {
    order := [];
    var rest := charges;
    while rest != {}
      invariant rest <= charges
      invariant forall c :: c in order <==> c in charges && c !in rest
      invariant forall i, j :: 0 <= i < j < |order| ==> order[i] != order[j]
      invariant |order| + |rest| == |charges|
      decreases |rest|
    {
      if forall x :: x !in rest {
        assert false;
      }
      var c :| c in rest;
      order := order + [c];
      rest := rest - {c};
    }
  }

  // ---------------------------------------------------------------- clustering charge by charge

  /** The metadata table with the precursor charge column set to `c` on every row. */
  function WithCharge(meta: seq<MetaRow>, c: int): (r: seq<MetaRow>)
    ensures |r| == |meta|
    ensures forall i :: 0 <= i < |r| ==> r[i].precursorCharge == c && r[i].(precursorCharge := meta[i].precursorCharge) == meta[i]
  {
    seq(|meta|, i requires 0 <= i < |meta| => meta[i].(precursorCharge := c))
  }

  /** The distances of a charge are recomputed unless both of its cache files exist. */
  predicate Recompute(dist: map<int, DistMatrix>, meta: map<int, seq<MetaRow>>, c: int)
  {
    c !in dist || c !in meta
  }

  /**
   * The distance matrix and metadata the clustering of charge `c` uses: the
   * cached pair when both files exist, otherwise a fresh computation from
   * the charge's dataset with the charge column added.
   */
  function ChargeInputs(dist: map<int, DistMatrix>, meta: map<int, seq<MetaRow>>, rows: seq<Row>, c: int,
                        collab: Collaborators): (DistMatrix, seq<MetaRow>)
  {
    if Recompute(dist, meta, c) then
      var (d, m) := collab.computeDistances(rows, c);
      (d, WithCharge(m, c))
    else (dist[c], meta[c])
  }

  /** The cache files after handling charge `c`: a recomputed pair is saved, a loaded pair is left alone. */
  function Store(dist: map<int, DistMatrix>, meta: map<int, seq<MetaRow>>, c: int, inputs: (DistMatrix, seq<MetaRow>))
    : (map<int, DistMatrix>, map<int, seq<MetaRow>>)
  {
    if Recompute(dist, meta, c) then (dist[c := inputs.0], meta[c := inputs.1]) else (dist, meta)
  }

  /**
   * The cache round trip: after a charge has been handled, both of its files
   * exist, so a later run loads exactly the pair this run used, whatever the
   * dataset holds by then; the files of other charges are untouched. A
   * recomputed metadata table carries the charge on every row.
   */
  lemma CacheRoundTrip(dist: map<int, DistMatrix>, meta: map<int, seq<MetaRow>>, rows: seq<Row>, later: seq<Row>,
                       c: int, collab: Collaborators)
    ensures var inputs := ChargeInputs(dist, meta, rows, c, collab);
      var (dist', meta') := Store(dist, meta, c, inputs);
      && !Recompute(dist', meta', c)
      && ChargeInputs(dist', meta', later, c, collab) == inputs
      && (forall c' :: c' != c ==> (c' in dist' <==> c' in dist) && (c' in meta' <==> c' in meta))
      && (forall c' :: c' != c && c' in dist ==> dist'[c'] == dist[c'])
      && (forall c' :: c' != c && c' in meta ==> meta'[c'] == meta[c'])
      && (Recompute(dist, meta, c) ==> forall i :: 0 <= i < |inputs.1| ==> inputs.1[i].precursorCharge == c)
  {
  }

  /** The labels the clustering gives a charge; a charge without metadata is skipped and gets none. */
  function RawLabels(inputs: (DistMatrix, seq<MetaRow>), collab: Collaborators): seq<int>
  {
    if |inputs.1| == 0 then [] else collab.generateClusters(inputs.0, inputs.1)
  }

  /**
   * The state of the loop over charges: the cluster tables so far, the raw
   * label arrays of the charges handled (empty for a skipped charge), the
   * label counter, the representatives per clustered charge, and the cache
   * files.
   */
  datatype Pass = Pass(tables: seq<ClusterTable>, raw: seq<seq<int>>, next: int, reps: seq<seq<Row>>,
                       dist: map<int, DistMatrix>, meta: map<int, seq<MetaRow>>)

  /** Handles one charge of the loop. */
  function ClusterStep(p: Pass, c: int, datasets: map<int, seq<Row>>, exporting: bool, collab: Collaborators)
    : Result<Pass, PipelineError>
  {
    if c !in datasets then Failure(MissingDataset(c))
    else
      var inputs := ChargeInputs(p.dist, p.meta, datasets[c], c, collab);
      var (dist, meta) := Store(p.dist, p.meta, c, inputs);
      if |inputs.1| == 0 then Success(p.(raw := p.raw + [[]], dist := dist, meta := meta))
      else
        var labels := collab.generateClusters(inputs.0, inputs.1);
        if |labels| != |inputs.1| then Failure(LabelCountMismatch(c))
        else
          var shifted := Shift(labels, p.next);
          var reps := if exporting then p.reps + [collab.representatives(shifted, inputs.0, datasets[c])] else p.reps;
          Success(Pass(p.tables + [ClusterTable(inputs.1, shifted)], p.raw + [labels], Max(shifted) + 1, reps, dist, meta))
  }

  /** The loop over the charges in `order`, from label 0; the first failing charge ends it. */
  function ClusterPass(order: seq<int>, datasets: map<int, seq<Row>>, dist: map<int, DistMatrix>,
                       meta: map<int, seq<MetaRow>>, exporting: bool, collab: Collaborators): (r: Result<Pass, PipelineError>)
    ensures r.Failure? ==> r.error.MissingDataset? || r.error.LabelCountMismatch?
  {
    if order == [] then Success(Pass([], [], 0, [], dist, meta))
    else
      match ClusterPass(order[..|order| - 1], datasets, dist, meta, exporting, collab)
      case Failure(e) => Failure(e)
      case Success(p) => ClusterStep(p, order[|order| - 1], datasets, exporting, collab)
  }

  /** Once a prefix of the charges fails, the whole loop fails with that error. */
  lemma {:induction false} ClusterPassFails(order: seq<int>, n: nat, datasets: map<int, seq<Row>>, dist: map<int, DistMatrix>,
                                            meta: map<int, seq<MetaRow>>, exporting: bool, collab: Collaborators)
    requires n <= |order|
    requires ClusterPass(order[..n], datasets, dist, meta, exporting, collab).Failure?
    ensures ClusterPass(order, datasets, dist, meta, exporting, collab) == ClusterPass(order[..n], datasets, dist, meta, exporting, collab)
  {
    if n < |order| {
      var init := order[..|order| - 1];
      assert init[..n] == order[..n];
      ClusterPassFails(init, n, datasets, dist, meta, exporting, collab);
    } else {
      assert order[..n] == order;
    }
  }

  /**
   * The cache files once charge `c` has been reached, whether its clustering
   * then succeeds or fails: a recomputed pair is saved before the labels are
   * looked at.
   */
  function StepCaches(p: Pass, c: int, datasets: map<int, seq<Row>>, collab: Collaborators)
    : (map<int, DistMatrix>, map<int, seq<MetaRow>>)
  {
    if c !in datasets then (p.dist, p.meta)
    else Store(p.dist, p.meta, c, ChargeInputs(p.dist, p.meta, datasets[c], c, collab))
  }

  /** The cache files the loop leaves behind: those after the last charge it reached, a failing one included. */
  function PassCaches(order: seq<int>, datasets: map<int, seq<Row>>, dist: map<int, DistMatrix>,
                      meta: map<int, seq<MetaRow>>, exporting: bool, collab: Collaborators)
    : (map<int, DistMatrix>, map<int, seq<MetaRow>>)
  {
    if order == [] then (dist, meta)
    else
      match ClusterPass(order[..|order| - 1], datasets, dist, meta, exporting, collab)
      case Failure(_) => PassCaches(order[..|order| - 1], datasets, dist, meta, exporting, collab)
      case Success(p) => StepCaches(p, order[|order| - 1], datasets, collab)
  }

  /** On a successful pass, the cache files left behind are the ones the pass carries. */
  lemma {:induction false} PassCachesSuccess(order: seq<int>, datasets: map<int, seq<Row>>, dist: map<int, DistMatrix>,
                                             meta: map<int, seq<MetaRow>>, exporting: bool, collab: Collaborators)
    requires ClusterPass(order, datasets, dist, meta, exporting, collab).Success?
    ensures var p := ClusterPass(order, datasets, dist, meta, exporting, collab).value;
      PassCaches(order, datasets, dist, meta, exporting, collab) == (p.dist, p.meta)
  {
    if order != [] {
      var p := ClusterPass(order[..|order| - 1], datasets, dist, meta, exporting, collab).value;
      ClusterStepParts(p, order[|order| - 1], datasets, exporting, collab);
    }
  }

  /** Once a prefix of the charges fails, the cache files are those that prefix left. */
  lemma {:induction false} PassCachesFails(order: seq<int>, n: nat, datasets: map<int, seq<Row>>, dist: map<int, DistMatrix>,
                                           meta: map<int, seq<MetaRow>>, exporting: bool, collab: Collaborators)
    requires n <= |order|
    requires ClusterPass(order[..n], datasets, dist, meta, exporting, collab).Failure?
    ensures PassCaches(order, datasets, dist, meta, exporting, collab) == PassCaches(order[..n], datasets, dist, meta, exporting, collab)
  {
    if n < |order| {
      var init := order[..|order| - 1];
      assert init[..n] == order[..n];
      PassCachesFails(init, n, datasets, dist, meta, exporting, collab);
      ClusterPassFails(init, n, datasets, dist, meta, exporting, collab);
    } else {
      assert order[..n] == order;
    }
  }

  /** A charge without metadata is skipped: no table, no representatives, the counter unchanged. */
  lemma SkippedCharge(p: Pass, c: int, datasets: map<int, seq<Row>>, exporting: bool, collab: Collaborators)
    requires c in datasets
    requires |ChargeInputs(p.dist, p.meta, datasets[c], c, collab).1| == 0
    ensures var r := ClusterStep(p, c, datasets, exporting, collab);
      r.Success? && r.value.tables == p.tables && r.value.next == p.next && r.value.reps == p.reps && r.value.raw == p.raw + [[]]
  {
  }

  /** The tables, counter and representatives of `p` are the current pipeline's label offsetting of `p.raw`. */
  ghost predicate Offsetted(p: Pass, exporting: bool)
  {
    var offsets := OffsetCharges(p.raw, 0);
    && p.next == offsets.next
    && |p.tables| == |offsets.tables|
    && (forall k :: 0 <= k < |p.tables| ==> p.tables[k].clusters == offsets.tables[k])
    && (forall k :: 0 <= k < |p.tables| ==> |p.tables[k].metadata| == |p.tables[k].clusters|)
    && (if exporting then |p.reps| == |p.tables| else p.reps == [])
  }

  lemma StepOffsetted(p: Pass, c: int, datasets: map<int, seq<Row>>, exporting: bool, collab: Collaborators)
    requires Offsetted(p, exporting)
    requires ClusterStep(p, c, datasets, exporting, collab).Success?
    ensures var p' := ClusterStep(p, c, datasets, exporting, collab).value;
      Offsetted(p', exporting) && |p'.raw| == |p.raw| + 1
  {
    var p' := ClusterStep(p, c, datasets, exporting, collab).value;
    assert p'.raw[..|p.raw|] == p.raw;
    if p'.raw[|p.raw|] != [] {
      assert p'.tables == p.tables + [p'.tables[|p.tables|]];
      forall k | 0 <= k < |p.tables| ensures p'.tables[k].clusters == OffsetCharges(p'.raw, 0).tables[k] {
        assert p'.tables[k] == p.tables[k];
      }
    }
  }

  /**
   * The loop is the label offsetting of the current pipeline applied to the
   * raw label arrays: every table's cluster column is its charge's labels
   * shifted by the counter, one table per clustered charge, one label per
   * metadata row; representatives are collected per table when exporting and
   * never otherwise.
   */
  lemma {:induction false} ClusterPassOffsets(order: seq<int>, datasets: map<int, seq<Row>>, dist: map<int, DistMatrix>,
                                              meta: map<int, seq<MetaRow>>, exporting: bool, collab: Collaborators)
    requires ClusterPass(order, datasets, dist, meta, exporting, collab).Success?
    ensures var p := ClusterPass(order, datasets, dist, meta, exporting, collab).value;
      |p.raw| == |order| && Offsetted(p, exporting)
  {
    if order != [] {
      var init := order[..|order| - 1];
      ClusterPassOffsets(init, datasets, dist, meta, exporting, collab);
      var q := ClusterPass(init, datasets, dist, meta, exporting, collab).value;
      StepOffsetted(q, order[|order| - 1], datasets, exporting, collab);
    }
  }

  /**
   * The cache files of `p` hold, for every charge of `handled`, the inputs
   * that charge had from the files `dist` and `meta`, and the raw labels are
   * those inputs' labels; other charges' files are as in `dist` and `meta`.
   */
  ghost predicate CacheAgrees(p: Pass, handled: seq<int>, datasets: map<int, seq<Row>>, dist: map<int, DistMatrix>,
                              meta: map<int, seq<MetaRow>>, collab: Collaborators)
  {
    && |p.raw| == |handled|
    && (forall k :: 0 <= k < |handled| ==>
          handled[k] in datasets && p.raw[k] == RawLabels(ChargeInputs(dist, meta, datasets[handled[k]], handled[k], collab), collab))
    && (forall c :: c in handled ==>
          c in datasets && c in p.dist && c in p.meta && (p.dist[c], p.meta[c]) == ChargeInputs(dist, meta, datasets[c], c, collab))
    && (forall c :: c !in handled ==> (c in p.dist <==> c in dist) && (c in p.meta <==> c in meta))
    && (forall c :: c !in handled && c in dist ==> p.dist[c] == dist[c])
    && (forall c :: c !in handled && c in meta ==> p.meta[c] == meta[c])
  }

  /** A successful step appends the charge's raw labels and stores its inputs in the cache files. */
  lemma ClusterStepParts(p: Pass, c: int, datasets: map<int, seq<Row>>, exporting: bool, collab: Collaborators)
    requires ClusterStep(p, c, datasets, exporting, collab).Success?
    ensures c in datasets
    ensures var p' := ClusterStep(p, c, datasets, exporting, collab).value;
      var inputs := ChargeInputs(p.dist, p.meta, datasets[c], c, collab);
      && p'.raw == p.raw + [RawLabels(inputs, collab)]
      && (p'.dist, p'.meta) == Store(p.dist, p.meta, c, inputs)
  {
  }

  lemma StepCacheAgrees(p: Pass, handled: seq<int>, c: int, datasets: map<int, seq<Row>>, dist: map<int, DistMatrix>,
                        meta: map<int, seq<MetaRow>>, exporting: bool, collab: Collaborators)
    requires c !in handled
    requires CacheAgrees(p, handled, datasets, dist, meta, collab)
    requires ClusterStep(p, c, datasets, exporting, collab).Success?
    ensures CacheAgrees(ClusterStep(p, c, datasets, exporting, collab).value, handled + [c], datasets, dist, meta, collab)
  {
    var p' := ClusterStep(p, c, datasets, exporting, collab).value;
    var h := handled + [c];
    ClusterStepParts(p, c, datasets, exporting, collab);
    assert ChargeInputs(p.dist, p.meta, datasets[c], c, collab) == ChargeInputs(dist, meta, datasets[c], c, collab);
    CacheRoundTrip(p.dist, p.meta, datasets[c], datasets[c], c, collab);
    forall k | 0 <= k < |h|
      ensures h[k] in datasets && p'.raw[k] == RawLabels(ChargeInputs(dist, meta, datasets[h[k]], h[k], collab), collab)
    {
      if k < |handled| {
        assert p'.raw[k] == p.raw[k];
      }
    }
  }

  /**
   * With distinct charges, each charge is clustered from the inputs the
   * cache files held before the loop (or freshly computed ones), and the
   * loop leaves the cache files of every handled charge holding those
   * inputs; the files of other charges stay as they were.
   */
  lemma {:induction false} ClusterPassCache(order: seq<int>, datasets: map<int, seq<Row>>, dist: map<int, DistMatrix>,
                                            meta: map<int, seq<MetaRow>>, exporting: bool, collab: Collaborators)
    requires forall i, j :: 0 <= i < j < |order| ==> order[i] != order[j]
    requires ClusterPass(order, datasets, dist, meta, exporting, collab).Success?
    ensures CacheAgrees(ClusterPass(order, datasets, dist, meta, exporting, collab).value, order, datasets, dist, meta, collab)
  {
    if order != [] {
      var init, c := order[..|order| - 1], order[|order| - 1];
      ClusterPassCache(init, datasets, dist, meta, exporting, collab);
      assert order == init + [c];
      StepCacheAgrees(ClusterPass(init, datasets, dist, meta, exporting, collab).value, init, c, datasets, dist, meta, exporting, collab);
    }
  }

  /**
   * With non-negative raw labels, all labels of the run lie in [0, counter),
   * and every label of a table is smaller than every label of a later one:
   * clusters of different charges never share a label.
   */
  lemma ClusterPassDisjoint(order: seq<int>, datasets: map<int, seq<Row>>, dist: map<int, DistMatrix>,
                            meta: map<int, seq<MetaRow>>, exporting: bool, collab: Collaborators)
    requires ClusterPass(order, datasets, dist, meta, exporting, collab).Success?
    requires NonNegative(ClusterPass(order, datasets, dist, meta, exporting, collab).value.raw)
    ensures var p := ClusterPass(order, datasets, dist, meta, exporting, collab).value;
      && 0 <= p.next
      && (p.next == 0 <==> p.tables == [])
      && (forall k, x :: 0 <= k < |p.tables| && x in p.tables[k].clusters ==> 0 <= x < p.next)
      && (forall k1, k2, x, y :: 0 <= k1 < k2 < |p.tables| && x in p.tables[k1].clusters && y in p.tables[k2].clusters ==> x < y)
  {
    var p := ClusterPass(order, datasets, dist, meta, exporting, collab).value;
    ClusterPassOffsets(order, datasets, dist, meta, exporting, collab);
    OffsetChargesDisjoint(p.raw, 0);
    forall k, x | 0 <= k < |p.tables| && x in p.tables[k].clusters ensures 0 <= x < p.next {
      assert x in OffsetCharges(p.raw, 0).tables[k];
    }
  }

  // ---------------------------------------------------------------- cleaning on overwrite

  /** An entry of the working directory's `spectra` or `nn` directory. */
  datatype Entry = ChargesFile | DatasetDir(charge: int) | DistFile(charge: int) | MetaFile(charge: int)

  /** A charge's dataset is stored as a directory; every other entry is a plain file. */
  predicate IsDirectory(e: Entry)
  {
    e.DatasetDir?
  }

  /** Why removing the entries of the working directory fails. */
  datatype CleanError = IsADirectory(entry: Entry)

  /**
   * The overwrite cleanup as written: each listed entry is removed in turn
   * with the call for plain files, which refuses a directory and so stops
   * the cleanup at the first one.
   */
  function RemoveEntriesAsWritten(entries: seq<Entry>): Result<(), CleanError>
  {
    if entries == [] then Success(())
    else if IsDirectory(entries[0]) then Failure(IsADirectory(entries[0]))
    else RemoveEntriesAsWritten(entries[1..])
  }

  /** `listing` lists the spectra directory: the charge file when saved and one directory per dataset, in any order. */
  ghost predicate ListsSpectraDir(listing: seq<Entry>, datasets: map<int, seq<Row>>, hasCharges: bool)
  {
    forall e :: e in listing <==> (e == ChargesFile && hasCharges) || (e.DatasetDir? && e.charge in datasets)
  }

  /** Removing entries one by one fails exactly when a directory is listed, and it fails on a listed directory. */
  lemma {:induction false} RemoveFailsOnDirectory(entries: seq<Entry>)
    ensures var r := RemoveEntriesAsWritten(entries);
      && (r.Failure? <==> exists i :: 0 <= i < |entries| && IsDirectory(entries[i]))
      && (r.Failure? ==> IsDirectory(r.error.entry) && r.error.entry in entries)
  {
    if entries != [] && !IsDirectory(entries[0]) {
      RemoveFailsOnDirectory(entries[1..]);
      if exists i :: 0 <= i < |entries| && IsDirectory(entries[i]) {
        var i :| 0 <= i < |entries| && IsDirectory(entries[i]);
        assert entries[1..][i - 1] == entries[i];
      }
    }
  }

  /** As written, the overwrite cleanup of the spectra directory fails exactly when a dataset is present. */
  lemma CleanupFailsOnDatasets(listing: seq<Entry>, datasets: map<int, seq<Row>>, hasCharges: bool)
    requires ListsSpectraDir(listing, datasets, hasCharges)
    ensures RemoveEntriesAsWritten(listing).Failure? <==> exists c :: c in datasets
  {
    RemoveFailsOnDirectory(listing);
    if exists c :: c in datasets {
      var c :| c in datasets;
      assert DatasetDir(c) in listing;
      var i :| 0 <= i < |listing| && listing[i] == DatasetDir(c);
      assert IsDirectory(listing[i]);
    }
    if RemoveEntriesAsWritten(listing).Failure? {
      var i :| 0 <= i < |listing| && IsDirectory(listing[i]);
      assert listing[i] in listing;
    }
  }

  /**
   * A working directory whose spectra were prepared from input that kept
   * at least one spectrum holds a dataset, so rerunning over it with
   * overwriting on fails in the cleanup as written.
   */
  lemma CleanupFailsAfterPrepare(files: seq<PeakFile>, process: Spectrum -> Option<Spectrum>, workers: nat,
                                 datasets: map<int, seq<Row>>, vectorize: Spectrum -> seq<real>, listing: seq<Entry>)
    requires workers > 0
    requires KeptAll(files, process) != []
    requires None in SpectraQueue(files, process, workers)
    requires ListsSpectraDir(listing, Persist(datasets, Consume(SpectraQueue(files, process, workers)).flushed, vectorize), true)
    ensures RemoveEntriesAsWritten(listing).Failure?
  {
    var kept := KeptAll(files, process);
    var c := kept[0].precursorCharge;
    assert kept[0] in kept;
    PreparedDatasets(files, process, workers, datasets, vectorize, c);
    CleanupFailsOnDatasets(listing, Persist(datasets, Consume(SpectraQueue(files, process, workers)).flushed, vectorize), true);
  }

  // ---------------------------------------------------------------- the working directory

  /** The files of the working directory and the output files the driver looks at. */
  class WorkDir {
    var csvExists: bool                        // <output>.csv
    var mgfExists: bool                        // <output>.mgf
    var chargesFile: Option<set<int>>          // spectra/charges.joblib
    var datasets: map<int, seq<Row>>           // spectra/spectra_charge_{charge}.lance
    var distFiles: map<int, DistMatrix>        // nn/dist_{charge}.npz
    var metaFiles: map<int, seq<MetaRow>>      // nn/metadata_{charge}.parquet
    ghost var flushes: seq<Flush>              // every append made to a dataset, in order

    constructor (csv: bool, mgf: bool)
      ensures csvExists == csv && mgfExists == mgf
      ensures chargesFile == None && datasets == map[] && distFiles == map[] && metaFiles == map[] && flushes == []
    {
      csvExists, mgfExists := csv, mgf;
      chargesFile := None;
      datasets, distFiles, metaFiles := map[], map[], map[];
      flushes := [];
    }

    /**
     * Output collision: an existing output file is removed when overwriting
     * is requested; otherwise its existence aborts the run. Both files are
     * looked at before deciding.
     */
    method ResolveOutputs(overwrite: bool) returns (abort: bool)
      modifies this`csvExists, this`mgfExists
      ensures abort <==> !overwrite && (old(csvExists) || old(mgfExists))
      ensures overwrite ==> !csvExists && !mgfExists
      ensures !overwrite ==> csvExists == old(csvExists) && mgfExists == old(mgfExists)
    {
      abort := false;
      if csvExists {
        if overwrite {
          csvExists := false;
        } else {
          abort := true;
        }
      }
      if mgfExists {
        if overwrite {
          mgfExists := false;
        } else {
          abort := true;
        }
      }
    }

    /** Writes one batch: vectorises it, creates the charge's dataset if missing, appends the rows. */
    method WriteToDataset(batch: seq<Spectrum>, charge: int, vectorize: Spectrum -> seq<real>) returns (n: nat)
      modifies this`datasets, this`flushes
      ensures n == |batch|
      ensures datasets == old(datasets)[charge := Dataset(old(datasets), charge) + Attach(batch, vectorize)]
      ensures flushes == old(flushes) + [Flush(charge, batch)]
    {
      var vectors := Vectors(batch, vectorize);
      var rows: seq<Row> := [];
      for i := 0 to |vectors|
        invariant rows == Attach(batch[..i], vectorize)
      {
        rows := rows + [Row(batch[i], vectors[i])];
      }
      assert batch[..|batch|] == batch;
      if charge !in datasets {
        datasets := datasets[charge := []];
      }
      datasets := datasets[charge := datasets[charge] + rows];
      flushes := flushes + [Flush(charge, batch)];
      n := |rows|;
    }

    /** The appends made since `before` are exactly `log`, and the datasets are `base` with them persisted. */
    ghost predicate Logged(base: map<int, seq<Row>>, before: seq<Flush>, log: seq<Flush>, vectorize: Spectrum -> seq<real>)
      reads this
    {
      flushes == before + log && datasets == Persist(base, log, vectorize)
    }

    /** Writes one staging list to its charge's dataset and records the append. */
    method Emit(charge: int, buffer: seq<Spectrum>, vectorize: Spectrum -> seq<real>,
                ghost base: map<int, seq<Row>>, ghost before: seq<Flush>, ghost log: seq<Flush>)
      returns (ghost log': seq<Flush>)
      requires Logged(base, before, log, vectorize)
      modifies this`datasets, this`flushes
      ensures log' == log + [Flush(charge, buffer)]
      ensures Logged(base, before, log', vectorize)
    {
      var _ := WriteToDataset(buffer, charge, vectorize);
      PersistSnoc(base, log, Flush(charge, buffer), vectorize);
      log' := log + [Flush(charge, buffer)];
    }

    /** Stages one spectrum, writing its charge's list when it reaches the threshold. */
    method Stage(keys: seq<int>, buffers: map<int, seq<Spectrum>>, spec: Spectrum, vectorize: Spectrum -> seq<real>,
                 ghost base: map<int, seq<Row>>, ghost before: seq<Flush>, ghost log: seq<Flush>)
      returns (keys': seq<int>, buffers': map<int, seq<Spectrum>>, ghost log': seq<Flush>)
      requires Logged(base, before, log, vectorize)
      modifies this`datasets, this`flushes
      ensures Staging(keys', buffers', log') == Accept(Staging(keys, buffers, log), spec)
      ensures Logged(base, before, log', vectorize)
    {
      var charge := spec.precursorCharge;
      AcceptStep(keys, buffers, log, spec);
      keys', buffers', log' := keys, buffers, log;
      if charge !in buffers' {
        keys' := keys' + [charge];
        buffers' := buffers'[charge := []];
      }
      buffers' := buffers'[charge := buffers'[charge] + [spec]];
      if |buffers'[charge]| >= FlushThreshold {
        log' := Emit(charge, buffers'[charge], vectorize, base, before, log');
        buffers' := buffers'[charge := []];
      }
    }

    /** Writes the staging list of one key if it is non-empty. */
    method FlushOne(keys: seq<int>, buffers: map<int, seq<Spectrum>>, charge: int, vectorize: Spectrum -> seq<real>,
                    ghost base: map<int, seq<Row>>, ghost before: seq<Flush>, ghost log: seq<Flush>)
      returns (buffers': map<int, seq<Spectrum>>, ghost log': seq<Flush>)
      requires Logged(base, before, log, vectorize)
      modifies this`datasets, this`flushes
      ensures Staging(keys, buffers', log') == FlushKey(Staging(keys, buffers, log), charge)
      ensures Logged(base, before, log', vectorize)
    {
      var buffer := if charge in buffers then buffers[charge] else [];
      FlushStep(keys, buffers, log, charge);
      buffers', log' := buffers, log;
      if |buffer| != 0 {
        log' := Emit(charge, buffer, vectorize, base, before, log);
        buffers' := buffers[charge := []];
      }
    }

    /**
     * One writer worker: takes spectra from the queue and stages them per
     * charge, writing a charge's list once it reaches the threshold; on the
     * first sentinel it writes every non-empty list and returns. Every
     * charge it sees is added to `charges`.
     */
    method WriteSpectraLance(queue: seq<Option<Spectrum>>, charges0: set<int>, vectorize: Spectrum -> seq<real>)
      returns (charges: set<int>)
      requires None in queue
      modifies this`datasets, this`flushes
      ensures charges == charges0 + ChargesOf(Consumed(queue))
      ensures flushes == old(flushes) + Consume(queue).flushed
      ensures datasets == Persist(old(datasets), Consume(queue).flushed, vectorize)
    {
      ghost var base, before := datasets, flushes;
      var keys, specToWrite;
      ghost var log;
      keys, specToWrite, charges, log := StageArrivals(queue, charges0, vectorize, base, before);
      log := DrainStaging(keys, specToWrite, vectorize, base, before, log);
    }

    /** The worker's loop up to the first sentinel: every spectrum taken is staged. */
    method StageArrivals(queue: seq<Option<Spectrum>>, charges0: set<int>, vectorize: Spectrum -> seq<real>,
                         ghost base: map<int, seq<Row>>, ghost before: seq<Flush>)
      returns (keys: seq<int>, specToWrite: map<int, seq<Spectrum>>, charges: set<int>, ghost log: seq<Flush>)
      requires None in queue
      requires Logged(base, before, [], vectorize)
      modifies this`datasets, this`flushes
      ensures Staging(keys, specToWrite, log) == AcceptAll(Consumed(queue))
      ensures charges == charges0 + ChargesOf(Consumed(queue))
      ensures Logged(base, before, log, vectorize)
    {
      charges := charges0;
      specToWrite := map[];
      keys := [];
      log := [];
      var i := 0;
      while queue[i].Some?
        invariant i <= FirstSentinel(queue)
        invariant Logged(base, before, log, vectorize)
        invariant Staging(keys, specToWrite, log) == AcceptAll(Arrived(queue, i))
        invariant charges == charges0 + ChargesOf(Arrived(queue, i))
        decreases FirstSentinel(queue) - i
      {
        var spec := queue[i].value;
        ArrivedSnoc(queue, i);
        keys, specToWrite, log := Stage(keys, specToWrite, spec, vectorize, base, before, log);
        charges := charges + {spec.precursorCharge};
        i := i + 1;
      }
      assert Arrived(queue, i) == Consumed(queue);
    }

    /** The sentinel: writes every non-empty staging list, in key order. */
    method DrainStaging(keys: seq<int>, specToWrite: map<int, seq<Spectrum>>, vectorize: Spectrum -> seq<real>,
                        ghost base: map<int, seq<Row>>, ghost before: seq<Flush>, ghost log: seq<Flush>)
      returns (ghost log': seq<Flush>)
      requires Logged(base, before, log, vectorize)
      modifies this`datasets, this`flushes
      ensures log' == Drain(Staging(keys, specToWrite, log)).flushed
      ensures Logged(base, before, log', vectorize)
    {
      ghost var staged := Staging(keys, specToWrite, log);
      var buffers := specToWrite;
      log' := log;
      var j := 0;
      while j < |keys|
        invariant j <= |keys|
        invariant Logged(base, before, log', vectorize)
        invariant Staging(keys, buffers, log') == DrainKeys(staged, j)
      {
        buffers, log' := FlushOne(keys, buffers, keys[j], vectorize, base, before, log');
        j := j + 1;
      }
    }

    /**
     * The overwrite cleanup as intended: every file of the spectra and
     * nearest-neighbour directories is gone afterwards, datasets included.
     */
    method CleanWorkDir()
      modifies this`datasets, this`chargesFile, this`distFiles, this`metaFiles
      ensures datasets == map[] && chargesFile == None && distFiles == map[] && metaFiles == map[]
    {
      datasets, chargesFile := map[], None;
      distFiles, metaFiles := map[], map[];
    }

    /**
     * Reads every peak file, puts the kept spectra on the queue followed by
     * one sentinel per writer, and runs the writer over the queue. With no
     * input file there is no worker, and creating a pool of none fails.
     */
    method PrepareSpectra(files: seq<PeakFile>, cpuCount: nat, process: Spectrum -> Option<Spectrum>,
                          vectorize: Spectrum -> seq<real>)
      returns (r: Result<set<int>, PipelineError>, lowQuality: nat)
      requires cpuCount >= 1
      modifies this`datasets, this`flushes
      ensures lowQuality == RejectedAll(files, process)
      ensures r.Failure? <==> files == []
      ensures r.Failure? ==> r.error == NoInputFiles && datasets == old(datasets) && flushes == old(flushes)
      ensures r.Success? ==> None in SpectraQueue(files, process, FileWorkers(|files|, cpuCount))
      ensures r.Success? ==> r.value == ChargesOf(KeptAll(files, process))
      ensures r.Success? ==>
        var flushed := Consume(SpectraQueue(files, process, FileWorkers(|files|, cpuCount))).flushed;
        datasets == Persist(old(datasets), flushed, vectorize) && flushes == old(flushes) + flushed
    {
      var queue;
      queue, lowQuality := ReadAll(files, process);
      var workers := FileWorkers(|files|, cpuCount);
      if workers == 0 {
        r := Failure(NoInputFiles);
        return;
      }
      for w := 0 to workers
        invariant queue == Enqueued(KeptAll(files, process)) + seq(w, _ => None)
      {
        queue := queue + [None];
      }
      QueueConsumed(files, process, workers);
      var charges := WriteSpectraLance(queue, {}, vectorize);
      r := Success(charges);
    }

    /**
     * One charge of the clustering loop: opens the charge's dataset, loads or
     * recomputes its distances (saving recomputed ones), skips the charge
     * when it has no metadata, and otherwise clusters it with labels offset
     * by the counter and collects its representatives when exporting.
     */
    method ClusterCharge(c: int, exporting: bool, collab: Collaborators, tables: seq<ClusterTable>, raw: seq<seq<int>>,
                         currentLabel: int, representatives: seq<seq<Row>>)
      returns (r: Result<Pass, PipelineError>)
      modifies this`distFiles, this`metaFiles
      ensures r == ClusterStep(Pass(tables, raw, currentLabel, representatives, old(distFiles), old(metaFiles)),
                               c, datasets, exporting, collab)
      ensures r.Success? ==> distFiles == r.value.dist && metaFiles == r.value.meta
      ensures (distFiles, metaFiles)
           == StepCaches(Pass(tables, raw, currentLabel, representatives, old(distFiles), old(metaFiles)), c, datasets, collab)
    {
      if c !in datasets {
        return Failure(MissingDataset(c));
      }
      var rows := datasets[c];
      var dist: DistMatrix;
      var metadata: seq<MetaRow>;
      if c !in distFiles || c !in metaFiles {
        var computed := collab.computeDistances(rows, c);
        dist, metadata := computed.0, WithCharge(computed.1, c);
        distFiles := distFiles[c := dist];
        metaFiles := metaFiles[c := metadata];
      } else {
        dist, metadata := distFiles[c], metaFiles[c];
      }
      if |metadata| == 0 {
        return Success(Pass(tables, raw + [[]], currentLabel, representatives, distFiles, metaFiles));
      }
      var clusters := collab.generateClusters(dist, metadata);
      if |clusters| != |metadata| {
        return Failure(LabelCountMismatch(c));
      }
      var shifted := Shift(clusters, currentLabel);
      var next := Max(shifted) + 1;
      var reps := representatives;
      if exporting {
        reps := reps + [collab.representatives(shifted, dist, rows)];
      }
      r := Success(Pass(tables + [ClusterTable(metadata, shifted)], raw + [clusters], next, reps, distFiles, metaFiles));
    }

    /** The clustering loop over the charges in `order`, from label 0; the first failing charge ends the run. */
    method ClusterCharges(order: seq<int>, exporting: bool, collab: Collaborators) returns (r: Result<Pass, PipelineError>)
      modifies this`distFiles, this`metaFiles
      ensures r == ClusterPass(order, datasets, old(distFiles), old(metaFiles), exporting, collab)
      ensures r.Success? ==> distFiles == r.value.dist && metaFiles == r.value.meta
      ensures (distFiles, metaFiles) == PassCaches(order, datasets, old(distFiles), old(metaFiles), exporting, collab)
    {
      var p := Pass([], [], 0, [], distFiles, metaFiles);
      for i := 0 to |order|
        invariant ClusterPass(order[..i], datasets, old(distFiles), old(metaFiles), exporting, collab) == Success(p)
        invariant distFiles == p.dist && metaFiles == p.meta
      {
        assert order[..i + 1][..i] == order[..i];
        var step := ClusterCharge(order[i], exporting, collab, p.tables, p.raw, p.next, p.reps);
        if step.Failure? {
          assert step == ClusterPass(order, datasets, old(distFiles), old(metaFiles), exporting, collab) by {
            ClusterPassFails(order, i + 1, datasets, old(distFiles), old(metaFiles), exporting, collab);
          }
          assert (distFiles, metaFiles) == PassCaches(order, datasets, old(distFiles), old(metaFiles), exporting, collab) by {
            PassCachesFails(order, i + 1, datasets, old(distFiles), old(metaFiles), exporting, collab);
          }
          return step;
        }
        p := step.value;
      }
      assert order[..|order|] == order;
      PassCachesSuccess(order, datasets, old(distFiles), old(metaFiles), exporting, collab);
      r := Success(p);
    }

    /**
     * The part of the driver between the collision check and clustering:
     * cleans the working directory when overwriting, then loads the saved
     * charge set or, when there is none or overwriting, prepares the
     * spectra and saves the charge set they produced.
     */
    method LoadCharges(overwrite: bool, files: seq<PeakFile>, cpuCount: nat, collab: Collaborators)
      returns (r: Result<set<int>, PipelineError>)
      requires cpuCount >= 1
      modifies this`datasets, this`chargesFile, this`distFiles, this`metaFiles, this`flushes
      ensures r.Failure? ==> r.error == NoInputFiles && files == []
      ensures r.Success? ==> chargesFile == Some(r.value)
      ensures distFiles == (if overwrite then map[] else old(distFiles))
      ensures metaFiles == (if overwrite then map[] else old(metaFiles))
      ensures !overwrite && old(chargesFile).Some? ==> r == Success(old(chargesFile).value) && datasets == old(datasets)
      ensures r.Success? && (overwrite || old(chargesFile).None?) ==>
        && None in SpectraQueue(files, collab.process, FileWorkers(|files|, cpuCount))
        && r.value == ChargesOf(KeptAll(files, collab.process))
        && datasets == Persist(if overwrite then map[] else old(datasets),
                               Consume(SpectraQueue(files, collab.process, FileWorkers(|files|, cpuCount))).flushed,
                               collab.vectorize)
    {
      if overwrite {
        CleanWorkDir();
      }
      if chargesFile.Some? && !overwrite {
        r := Success(chargesFile.value);
      } else {
        var prepared, _ := PrepareSpectra(files, cpuCount, collab.process, collab.vectorize);
        r := prepared;
        if prepared.Success? {
          chargesFile := Some(prepared.value);
        }
      }
    }

    /**
     * The driver: resolves output collisions (returning 1 before any work
     * when a file exists and overwriting is off), cleans the working
     * directory when overwriting, loads the charge set or prepares the
     * spectra and saves it, clusters charge after charge, and marks the
     * output files written. Returns the exit status, the cluster tables and
     * the representative spectra.
     */
    method Run(cfg: Config, files: seq<PeakFile>, cpuCount: nat, collab: Collaborators)
      returns (status: Result<int, PipelineError>, assignments: seq<ClusterTable>, representatives: seq<Row>,
               ghost order: seq<int>, ghost pass: Pass)
      requires cpuCount >= 1
      modifies this
      ensures status == Success(1) <==> !cfg.overwrite && (old(csvExists) || old(mgfExists))
      ensures status == Success(1) ==> unchanged(this) && assignments == []
      ensures !cfg.exportRepresentatives ==> representatives == []
      ensures status == Failure(NoInputFiles) ==> files == []
      ensures status != Success(1) && status != Failure(NoInputFiles) ==>
        (distFiles, metaFiles) == PassCaches(order, datasets, if cfg.overwrite then map[] else old(distFiles),
                                             if cfg.overwrite then map[] else old(metaFiles), cfg.exportRepresentatives, collab)
      ensures status == Success(0) ==>
        && chargesFile.Some?
        && (forall c :: c in order <==> c in chargesFile.value)
        && (forall i, j :: 0 <= i < j < |order| ==> order[i] != order[j])
        && ClusterPass(order, datasets, if cfg.overwrite then map[] else old(distFiles),
                       if cfg.overwrite then map[] else old(metaFiles), cfg.exportRepresentatives, collab) == Success(pass)
        && assignments == pass.tables && assignments != []
        && distFiles == pass.dist && metaFiles == pass.meta
        && (cfg.exportRepresentatives ==> representatives == Flatten(pass.reps))
        && csvExists && mgfExists == cfg.exportRepresentatives
      ensures status == Success(0) && !cfg.overwrite && old(chargesFile).Some? ==>
        chargesFile == old(chargesFile) && datasets == old(datasets)
      ensures status == Success(0) && (cfg.overwrite || old(chargesFile).None?) ==>
        && None in SpectraQueue(files, collab.process, FileWorkers(|files|, cpuCount))
        && chargesFile == Some(ChargesOf(KeptAll(files, collab.process)))
        && datasets == Persist(if cfg.overwrite then map[] else old(datasets),
                               Consume(SpectraQueue(files, collab.process, FileWorkers(|files|, cpuCount))).flushed,
                               collab.vectorize)
    {
      assignments, representatives := [], [];
      order, pass := [], Pass([], [], 0, [], map[], map[]);
      var abort := ResolveOutputs(cfg.overwrite);
      if abort {
        status := Success(1);
        return;
      }
      var loaded := LoadCharges(cfg.overwrite, files, cpuCount, collab);
      if loaded.Failure? {
        status := Failure(loaded.error);
        return;
      }
      var chargeOrder := EnumerateCharges(loaded.value);
      order := chargeOrder;
      status, assignments, representatives, pass := ClusterAndWrite(chargeOrder, cfg.exportRepresentatives, collab);
    }

    /**
     * The end of the driver: clusters the charges in `order`, fails when no
     * charge produced a table, and otherwise writes the cluster table and,
     * when exporting, the representatives.
     */
    method ClusterAndWrite(order: seq<int>, exporting: bool, collab: Collaborators)
      returns (status: Result<int, PipelineError>, assignments: seq<ClusterTable>, representatives: seq<Row>, ghost pass: Pass)
      modifies this`distFiles, this`metaFiles, this`csvExists, this`mgfExists
      ensures status.Success? ==> status.value == 0
      ensures status.Failure? ==> status.error != NoInputFiles
      ensures !exporting ==> representatives == []
      ensures (distFiles, metaFiles) == PassCaches(order, datasets, old(distFiles), old(metaFiles), exporting, collab)
      ensures status == Success(0) ==>
        && ClusterPass(order, datasets, old(distFiles), old(metaFiles), exporting, collab) == Success(pass)
        && assignments == pass.tables && assignments != []
        && distFiles == pass.dist && metaFiles == pass.meta
        && (exporting ==> representatives == Flatten(pass.reps))
        && csvExists && mgfExists == (exporting || old(mgfExists))
    {
      assignments, representatives := [], [];
      pass := Pass([], [], 0, [], map[], map[]);
      var clustered := ClusterCharges(order, exporting, collab);
      if clustered.Failure? {
        status := Failure(clustered.error);
        return;
      }
      var result := clustered.value;
      pass := result;
      if result.tables == [] {
        status := Failure(NothingToConcatenate);
        return;
      }
      assignments := result.tables;
      csvExists := true;
      if exporting {
        representatives := Flatten(result.reps);
        mgfExists := true;
      }
      status := Success(0);
    }
  }
}
