/**
 * What one spectra-writer worker does, stated as a state machine over the
 * items it takes from the queue.
 *
 * The worker keeps, per precursor charge, a staging list of spectra (a
 * dictionary whose keys appear in first-seen order). Each spectrum is
 * appended to its charge's list; a list that reaches the flush threshold is
 * written out as one batch and cleared. The first `None` taken from the
 * queue is the end-of-stream sentinel: every non-empty list is written out,
 * in key order, and the worker stops. A flush is recorded as a
 * (charge, batch) pair.
 */
module WriterSpec {
  import opened Wrappers
  import opened Spectra

  /** A charge's staging list is written out once it holds this many spectra. */
  const FlushThreshold: nat := 10000

  /** One call that writes a batch of spectra to the dataset of `charge`. */
  datatype Flush = Flush(charge: int, batch: seq<Spectrum>)

  /** The staging dictionary (keys in insertion order, lists) and the flushes made so far. */
  datatype Staging = Staging(keys: seq<int>, buffers: map<int, seq<Spectrum>>, flushed: seq<Flush>)

  /** The staging list of charge `c`; an absent key reads as an empty list. */
  function Buffer(st: Staging, c: int): seq<Spectrum>
  {
    if c in st.buffers then st.buffers[c] else []
  }

  /** Handles one spectrum taken from the queue. */
  function Accept(st: Staging, s: Spectrum): Staging
  {
    var c := s.precursorCharge;
    var keys := if c in st.buffers then st.keys else st.keys + [c];
    var buf := Buffer(st, c) + [s];
    if |buf| >= FlushThreshold then Staging(keys, st.buffers[c := []], st.flushed + [Flush(c, buf)])
    else Staging(keys, st.buffers[c := buf], st.flushed)
  }

  /** The state after handling `items` in order, from an empty dictionary. */
  function AcceptAll(items: seq<Spectrum>): Staging
  {
    if items == [] then Staging([], map[], [])
    else Accept(AcceptAll(items[..|items| - 1]), items[|items| - 1])
  }

  /** The charges of `items` in the order they first occur, each once. */
  function FirstSeen(items: seq<Spectrum>): seq<int>
  {
    if items == [] then []
    else
      var init, c := items[..|items| - 1], items[|items| - 1].precursorCharge;
      FirstSeen(init) + (if c in ChargesOf(init) then [] else [c])
  }

  /** Writes out the staging list of `c` if it is not empty, then clears it. */
  function FlushKey(st: Staging, c: int): (r: Staging)
    ensures r.keys == st.keys && r.buffers.Keys == st.buffers.Keys + (if Buffer(st, c) == [] then {} else {c})
  {
    if Buffer(st, c) == [] then st
    else Staging(st.keys, st.buffers[c := []], st.flushed + [Flush(c, Buffer(st, c))])
  }

  /** Writes out the lists of the first `n` keys, in key order. */
  function DrainKeys(st: Staging, n: nat): (r: Staging)
    requires n <= |st.keys|
    ensures r.keys == st.keys
  {
    if n == 0 then st else FlushKey(DrainKeys(st, n - 1), st.keys[n - 1])
  }

  /**
   * The flushes of `st` followed by those that writing out the lists of
   * `keys`, in that order, adds: one per non-empty list, that list whole.
   */
  function DrainLog(st: Staging, keys: seq<int>): seq<Flush>
  {
    if keys == [] then st.flushed
    else
      var c := keys[|keys| - 1];
      DrainLog(st, keys[..|keys| - 1]) + (if Buffer(st, c) == [] then [] else [Flush(c, Buffer(st, c))])
  }

  /** What the worker does on the sentinel. */
  function Drain(st: Staging): Staging
  {
    DrainKeys(st, |st.keys|)
  }

  /** The position of the first sentinel in the queue. */
  function FirstSentinel(queue: seq<Option<Spectrum>>): (k: nat)
    requires None in queue
    ensures k < |queue| && queue[k] == None
    ensures forall j :: 0 <= j < k ==> queue[j].Some?
  {
    if queue[0] == None then 0
    else
      assert None in queue[1..];
      1 + FirstSentinel(queue[1..])
  }

  /** The spectra among the first `n` queue items, none of which is a sentinel. */
  function Arrived(queue: seq<Option<Spectrum>>, n: nat): (r: seq<Spectrum>)
    requires n <= |queue|
    requires forall j :: 0 <= j < n ==> queue[j].Some?
  {
    seq(n, j requires 0 <= j < n => queue[j].value)
  }

  /** The spectra the worker takes before it meets the sentinel. */
  function Consumed(queue: seq<Option<Spectrum>>): seq<Spectrum>
    requires None in queue
  {
    Arrived(queue, FirstSentinel(queue))
  }

  /** The worker's final state after draining `queue` up to its first sentinel. */
  function Consume(queue: seq<Option<Spectrum>>): Staging
    requires None in queue
  {
    Drain(AcceptAll(Consumed(queue)))
  }

  /** Everything written to the dataset of charge `c`, in write order. */
  function Written(flushed: seq<Flush>, c: int): seq<Spectrum>
  {
    if flushed == [] then []
    else
      var f := flushed[|flushed| - 1];
      Written(flushed[..|flushed| - 1], c) + (if f.charge == c then f.batch else [])
  }

  /** Every spectrum of `batch` has precursor charge `c`. */
  ghost predicate AllOfCharge(batch: seq<Spectrum>, c: int)
  {
    forall s :: s in batch ==> s.precursorCharge == c
  }

  /**
   * The worker's invariant between two queue items: the keys are the
   * dictionary's keys, each once; every list holds spectra of its own charge
   * and fewer than the threshold; every flush so far is a full,
   * single-charge batch.
   */
  ghost predicate Staged(st: Staging)
  {
    && (forall c :: c in st.buffers <==> c in st.keys)
    && (forall i, j :: 0 <= i < j < |st.keys| ==> st.keys[i] != st.keys[j])
    && (forall c :: c in st.buffers ==> |st.buffers[c]| < FlushThreshold && AllOfCharge(st.buffers[c], c))
    && (forall k :: 0 <= k < |st.flushed| ==>
          |st.flushed[k].batch| == FlushThreshold && AllOfCharge(st.flushed[k].batch, st.flushed[k].charge))
  }

  lemma WrittenSnoc(flushed: seq<Flush>, f: Flush, c: int)
    ensures Written(flushed + [f], c) == Written(flushed, c) + (if f.charge == c then f.batch else [])
  {
    assert (flushed + [f])[..|flushed|] == flushed;
  }

  /** One item keeps the worker's invariant. */
  lemma AcceptStaged(st: Staging, s: Spectrum)
    requires Staged(st)
    ensures Staged(Accept(st, s))
    ensures Accept(st, s).buffers.Keys == st.buffers.Keys + {s.precursorCharge}
  {
    var c := s.precursorCharge;
    var r := Accept(st, s);
    var buf := Buffer(st, c) + [s];
    assert AllOfCharge(buf, c);
    if |buf| >= FlushThreshold {
      assert r.flushed == st.flushed + [Flush(c, buf)];
      assert |buf| == FlushThreshold;
    }
    if c !in st.buffers {
      assert r.keys == st.keys + [c];
      forall i, j | 0 <= i < j < |r.keys| ensures r.keys[i] != r.keys[j] {
        if j == |r.keys| - 1 {
          assert r.keys[i] in st.keys;
        }
      }
    }
  }

  /** One item goes to the end of its own charge's staged-or-written spectra and nowhere else. */
  lemma AcceptConserves(st: Staging, s: Spectrum, c: int)
    ensures Written(Accept(st, s).flushed, c) + Buffer(Accept(st, s), c)
         == Written(st.flushed, c) + Buffer(st, c) + (if s.precursorCharge == c then [s] else [])
  {
    var d := s.precursorCharge;
    var buf := Buffer(st, d) + [s];
    if |buf| >= FlushThreshold {
      WrittenSnoc(st.flushed, Flush(d, buf), c);
    }
  }

  /** Between items the worker's invariant holds, whatever it has taken. */
  lemma {:induction false} AcceptAllStaged(items: seq<Spectrum>)
    ensures Staged(AcceptAll(items))
    ensures forall c :: c in AcceptAll(items).buffers <==> c in ChargesOf(items)
  {
    if items != [] {
      var init, s := items[..|items| - 1], items[|items| - 1];
      AcceptAllStaged(init);
      AcceptStaged(AcceptAll(init), s);
      assert items == init + [s];
      assert ChargesOf(items) == ChargesOf(init) + {s.precursorCharge};
    }
  }

  /** The dictionary's keys are the charges seen, in the order they first arrived. */
  lemma {:induction false} AcceptAllKeys(items: seq<Spectrum>)
    ensures AcceptAll(items).keys == FirstSeen(items)
  {
    if items != [] {
      var init := items[..|items| - 1];
      AcceptAllKeys(init);
      AcceptAllStaged(init);
    }
  }

  /** Between items, what was written plus what is staged is exactly what arrived, per charge and in order. */
  lemma {:induction false} AcceptAllConserves(items: seq<Spectrum>, c: int)
    ensures Written(AcceptAll(items).flushed, c) + Buffer(AcceptAll(items), c) == OfCharge(items, c)
  {
    if items != [] {
      var init, s := items[..|items| - 1], items[|items| - 1];
      AcceptAllConserves(init, c);
      AcceptConserves(AcceptAll(init), s, c);
    }
  }

  /** Flushing one key moves its list behind what was written and leaves the other lists alone. */
  lemma FlushKeyMoves(st: Staging, k: int, c: int)
    ensures Written(FlushKey(st, k).flushed, c) + Buffer(FlushKey(st, k), c) == Written(st.flushed, c) + Buffer(st, c)
    ensures Buffer(FlushKey(st, k), c) == if c == k then [] else Buffer(st, c)
  {
    if Buffer(st, k) != [] {
      WrittenSnoc(st.flushed, Flush(k, Buffer(st, k)), c);
    }
  }

  /** Draining the first `n` keys moves each of their lists, whole, behind what was already written. */
  lemma {:induction false} DrainKeysMoves(st: Staging, n: nat, c: int)
    requires n <= |st.keys|
    ensures Written(DrainKeys(st, n).flushed, c) + Buffer(DrainKeys(st, n), c) == Written(st.flushed, c) + Buffer(st, c)
  {
    if n > 0 {
      var prev := DrainKeys(st, n - 1);
      assert Written(prev.flushed, c) + Buffer(prev, c) == Written(st.flushed, c) + Buffer(st, c) by {
        DrainKeysMoves(st, n - 1, c);
      }
      assert Written(DrainKeys(st, n).flushed, c) + Buffer(DrainKeys(st, n), c) == Written(prev.flushed, c) + Buffer(prev, c) by {
        FlushKeyMoves(prev, st.keys[n - 1], c);
      }
    }
  }

  /** Draining the first `n` keys empties exactly their lists. */
  lemma {:induction false} DrainKeysClears(st: Staging, n: nat, c: int)
    requires n <= |st.keys|
    ensures Buffer(DrainKeys(st, n), c) == if c in st.keys[..n] then [] else Buffer(st, c)
  {
    if n > 0 {
      var k := st.keys[n - 1];
      var prev := DrainKeys(st, n - 1);
      assert Buffer(prev, c) == if c in st.keys[..n - 1] then [] else Buffer(st, c) by {
        DrainKeysClears(st, n - 1, c);
      }
      assert Buffer(DrainKeys(st, n), c) == if c == k then [] else Buffer(prev, c) by {
        FlushKeyMoves(prev, k, c);
      }
      assert c in st.keys[..n] <==> c in st.keys[..n - 1] || c == k by {
        assert st.keys[..n] == st.keys[..n - 1] + [k];
      }
    }
  }

  /** The drain of the first `n` keys appends, in key order, one batch per non-empty list: that list, whole. */
  lemma {:induction false} DrainKeysLog(st: Staging, n: nat)
    requires Staged(st)
    requires n <= |st.keys|
    ensures DrainKeys(st, n).flushed == DrainLog(st, st.keys[..n])
  {
    if n > 0 {
      DrainKeysLog(st, n - 1);
      DrainKeyStep(st, n);
      assert st.keys[..n][..n - 1] == st.keys[..n - 1];
    }
  }

  /**
   * The flushes made by the drain: each writes one key's non-empty list,
   * so each batch is non-empty, single-charge and below the threshold, and
   * no charge is written twice.
   */
  lemma {:induction false} DrainKeysBatches(st: Staging, n: nat)
    requires Staged(st)
    requires n <= |st.keys|
    ensures |st.flushed| <= |DrainKeys(st, n).flushed|
    ensures DrainKeys(st, n).flushed[..|st.flushed|] == st.flushed
    ensures forall k :: |st.flushed| <= k < |DrainKeys(st, n).flushed| ==>
      var f := DrainKeys(st, n).flushed[k];
      && 0 < |f.batch| < FlushThreshold && AllOfCharge(f.batch, f.charge)
      && f.charge in st.keys[..n] && f.batch == Buffer(st, f.charge)
    ensures forall k1, k2 :: |st.flushed| <= k1 < k2 < |DrainKeys(st, n).flushed| ==>
      DrainKeys(st, n).flushed[k1].charge != DrainKeys(st, n).flushed[k2].charge
  {
    if n > 0 {
      DrainKeysBatches(st, n - 1);
      DrainKeyStep(st, n);
    }
  }

  /**
   * The `n`-th key of the drain adds at most one flush: its list, taken
   * whole from the worker's state because no earlier key is the same
   * charge; a non-empty list is one of the dictionary's and so below the
   * threshold and single-charge.
   */
  lemma DrainKeyStep(st: Staging, n: nat)
    requires Staged(st)
    requires 0 < n <= |st.keys|
    ensures var c := st.keys[n - 1];
      && (forall x :: x in st.keys[..n] <==> x in st.keys[..n - 1] || x == c)
      && c !in st.keys[..n - 1]
      && DrainKeys(st, n).flushed
         == DrainKeys(st, n - 1).flushed + (if Buffer(st, c) == [] then [] else [Flush(c, Buffer(st, c))])
      && (Buffer(st, c) != [] ==> |Buffer(st, c)| < FlushThreshold && AllOfCharge(Buffer(st, c), c))
  {
    var c := st.keys[n - 1];
    assert c !in st.keys[..n - 1] by {
      forall i | 0 <= i < n - 1 ensures st.keys[i] != c { }
    }
    assert Buffer(DrainKeys(st, n - 1), c) == Buffer(st, c) by {
      DrainKeysClears(st, n - 1, c);
    }
    assert st.keys[..n] == st.keys[..n - 1] + [c];
  }

  /**
   * Every spectrum taken before the sentinel is written exactly once, to
   * the dataset of its own charge, and spectra of one charge are written
   * in the order they arrived.
   */
  lemma WriterConserves(queue: seq<Option<Spectrum>>, c: int)
    requires None in queue
    ensures Written(Consume(queue).flushed, c) == OfCharge(Consumed(queue), c)
  {
    var items := Consumed(queue);
    var st := AcceptAll(items);
    AcceptAllStaged(items);
    AcceptAllConserves(items, c);
    DrainKeysMoves(st, |st.keys|, c);
    DrainKeysClears(st, |st.keys|, c);
    assert st.keys[..|st.keys|] == st.keys;
  }

  /**
   * How the worker batches: first the threshold flushes, each exactly
   * FlushThreshold spectra of one charge; then the final drain, which writes
   * each non-empty staging list once, as a non-empty single-charge batch below
   * the threshold. Nothing stays staged when the worker returns.
   */
  lemma WriterBatches(queue: seq<Option<Spectrum>>)
    requires None in queue
    ensures var staged := AcceptAll(Consumed(queue)).flushed;
      var flushed := Consume(queue).flushed;
      && |staged| <= |flushed| && flushed[..|staged|] == staged
      && (forall k :: 0 <= k < |flushed| ==> AllOfCharge(flushed[k].batch, flushed[k].charge))
      && (forall k :: 0 <= k < |staged| ==> |flushed[k].batch| == FlushThreshold)
      && (forall k :: |staged| <= k < |flushed| ==> 0 < |flushed[k].batch| < FlushThreshold)
      && (forall k1, k2 :: |staged| <= k1 < k2 < |flushed| ==> flushed[k1].charge != flushed[k2].charge)
    ensures forall c :: Buffer(Consume(queue), c) == []
  {
    var items := Consumed(queue);
    var st := AcceptAll(items);
    AcceptAllStaged(items);
    DrainKeysBatches(st, |st.keys|);
    assert st.keys[..|st.keys|] == st.keys;
    var flushed := Consume(queue).flushed;
    forall k | 0 <= k < |st.flushed| ensures flushed[k] == st.flushed[k] {
      assert flushed[..|st.flushed|][k] == flushed[k];
    }
    forall c ensures Buffer(Consume(queue), c) == [] {
      DrainKeysClears(st, |st.keys|, c);
    }
  }

  /**
   * The worker's writes are its threshold flushes followed by the final
   * drain, which writes the non-empty staging lists in the order their
   * charges first arrived.
   */
  lemma WriterDrainOrder(queue: seq<Option<Spectrum>>)
    requires None in queue
    ensures Consume(queue).flushed == DrainLog(AcceptAll(Consumed(queue)), FirstSeen(Consumed(queue)))
  {
    var items := Consumed(queue);
    var st := AcceptAll(items);
    AcceptAllStaged(items);
    AcceptAllKeys(items);
    DrainKeysLog(st, |st.keys|);
    assert st.keys[..|st.keys|] == st.keys;
  }

  /** A charge is recorded by the worker exactly when some spectrum of that charge was written. */
  lemma WriterCharges(queue: seq<Option<Spectrum>>, c: int)
    requires None in queue
    ensures c in ChargesOf(Consumed(queue)) <==> Written(Consume(queue).flushed, c) != []
  {
    WriterConserves(queue, c);
    ChargeOccurs(Consumed(queue), c);
  }
}
