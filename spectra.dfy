/**
 * The records that flow through both pipelines, and the order-keeping
 * filters used to talk about them.
 *
 * Floating-point values (m/z, intensities, retention times, vector
 * components) are modelled as `real`: the model only compares and copies
 * them, it never computes with them.
 */
module Spectra {

  /** One MS/MS spectrum: the reader's record, also after quality processing. */
  datatype Spectrum = Spectrum(
    identifier: string,
    precursorMz: real,
    precursorCharge: int,
    retentionTime: real,
    mz: seq<real>,
    intensity: seq<real>,
    filename: string)

  /** A peak file as the reader sees it: its path and the spectra it yields, in file order. */
  datatype PeakFile = PeakFile(name: string, spectra: seq<Spectrum>)

  /** A row of a per-charge spectra dataset: the spectrum plus its low-dimensional vector. */
  datatype Row = Row(spectrum: Spectrum, vector: seq<real>)

  /** A sparse pairwise distance matrix in compressed-row form, as cached for one charge. */
  datatype DistMatrix = DistMatrix(indptr: seq<nat>, indices: seq<nat>, data: seq<real>)

  /** The m/z key by which spectra are sorted. */
  function MzKey(s: Spectrum): real { s.precursorMz }

  /** The identifier of a spectrum. */
  function Identifier(s: Spectrum): string { s.identifier }

  /** `a` is `b` with some elements left out: what is kept keeps its order. */
  predicate IsSubsequence<T(==)>(a: seq<T>, b: seq<T>)
    decreases |b|
  {
    || a == []
    || (b != [] && (|| (a[|a| - 1] == b[|b| - 1] && IsSubsequence(a[..|a| - 1], b[..|b| - 1]))
                    || IsSubsequence(a, b[..|b| - 1])))
  }

  /** The spectra of `items` whose precursor charge is `c`, in arrival order. */
  function OfCharge(items: seq<Spectrum>, c: int): (r: seq<Spectrum>)
    ensures |r| <= |items|
    ensures forall s :: s in r <==> s in items && s.precursorCharge == c
  {
    if items == [] then []
    else
      var last := items[|items| - 1];
      OfCharge(items[..|items| - 1], c) + (if last.precursorCharge == c then [last] else [])
  }

  /** The charge filter keeps the order of what it keeps. */
  lemma {:induction false} OfChargeOrdered(items: seq<Spectrum>, c: int)
    ensures IsSubsequence(OfCharge(items, c), items)
  {
    if items != [] {
      var init, last := items[..|items| - 1], items[|items| - 1];
      OfChargeOrdered(init, c);
      var rest := OfCharge(init, c);
      if last.precursorCharge == c {
        var r := rest + [last];
        assert r[..|r| - 1] == rest;
        assert IsSubsequence(r, items);
      } else {
        assert OfCharge(items, c) == rest;
        assert IsSubsequence(rest, init);
        assert items != [] && items[..|items| - 1] == init;
      }
    }
  }

  /**
   * The charge filter drops nothing of charge `c`: each spectrum occurs in
   * the result exactly as often as in the input if it has charge `c`, and
   * not at all otherwise.
   */
  lemma {:induction false} OfChargeCounts(items: seq<Spectrum>, c: int, s: Spectrum)
    ensures multiset(OfCharge(items, c))[s] == if s.precursorCharge == c then multiset(items)[s] else 0
  {
    if items != [] {
      var init, last := items[..|items| - 1], items[|items| - 1];
      OfChargeCounts(init, c, s);
      assert items == init + [last];
    }
  }

  /** The set of precursor charges that occur in `items`. */
  function ChargesOf(items: seq<Spectrum>): set<int>
  {
    set s | s in items :: s.precursorCharge
  }

  /** A charge occurs in `items` exactly when its filter is non-empty. */
  lemma {:induction false} ChargeOccurs(items: seq<Spectrum>, c: int)
    ensures c in ChargesOf(items) <==> OfCharge(items, c) != []
  {
    if items != [] {
      var init, last := items[..|items| - 1], items[|items| - 1];
      assert items == init + [last];
      ChargeOccurs(init, c);
      if c in ChargesOf(init) {
        var s :| s in init && s.precursorCharge == c;
        assert s in items;
      }
      if c in ChargesOf(items) && last.precursorCharge != c {
        var s :| s in items && s.precursorCharge == c;
        assert s in init;
      }
    }
  }

  /** Concatenation of a sequence of lists, as a list of lists is flattened by iterating it. */
  function Flatten<T>(xss: seq<seq<T>>): (r: seq<T>)
  {
    if xss == [] then [] else Flatten(xss[..|xss| - 1]) + xss[|xss| - 1]
  }

  /** The vectors of `batch`, one per spectrum, as the vectoriser returns them. */
  function Vectors(batch: seq<Spectrum>, vectorize: Spectrum -> seq<real>): (r: seq<seq<real>>)
  {
    seq(|batch|, i requires 0 <= i < |batch| => vectorize(batch[i]))
  }

  /** The dataset rows a batch becomes once every spectrum carries its vector. */
  function Attach(batch: seq<Spectrum>, vectorize: Spectrum -> seq<real>): (r: seq<Row>)
  {
    seq(|batch|, i requires 0 <= i < |batch| => Row(batch[i], vectorize(batch[i])))
  }

  /** The spectrum column of a sequence of rows. */
  function SpectraOf(rows: seq<Row>): (r: seq<Spectrum>)
  {
    seq(|rows|, i requires 0 <= i < |rows| => rows[i].spectrum)
  }

  /** Attaching vectors keeps the spectra and their order, and distributes over concatenation. */
  lemma AttachKeepsSpectra(a: seq<Spectrum>, b: seq<Spectrum>, vectorize: Spectrum -> seq<real>)
    ensures SpectraOf(Attach(a, vectorize)) == a
    ensures Attach(a + b, vectorize) == Attach(a, vectorize) + Attach(b, vectorize)
  {
  }
}
