/**
 * Cross-charge cluster label offsetting.
 *
 * Charges are clustered one at a time; a running counter (`current_label`)
 * is added to the labels of each charge so that labels of different
 * charges never collide, and is then moved one past the largest label
 * handed out. Two variants exist:
 *  - the current pipeline shifts every label of a charge and skips a charge
 *    without metadata (`OffsetCharges`);
 *  - the legacy pipeline leaves the noise label -1 alone, shifts only the
 *    other labels, and fails when a charge has no non-noise label because
 *    the maximum of an empty selection is undefined (`OffsetNonNoise`).
 */
module Labels {
  import opened Wrappers

  /** The label density clustering gives to noise points. */
  const Noise: int := -1

  /** The largest element of a non-empty array: `numpy.amax`. */
  function Max(s: seq<int>): (m: int)
    requires |s| > 0
    ensures m in s
    ensures forall x :: x in s ==> x <= m
  {
    if |s| == 1 then s[0]
    else
      var rest := Max(s[1..]);
      assert s == [s[0]] + s[1..];
      if s[0] >= rest then s[0] else rest
  }

  /** `labels += offset` on a whole array. */
  function Shift(labels: seq<int>, offset: int): (r: seq<int>)
  {
    seq(|labels|, i requires 0 <= i < |labels| => labels[i] + offset)
  }

  /** The tables produced so far and the counter value for the next charge. */
  datatype Offsets = Offsets(tables: seq<seq<int>>, next: int)

  /** Every label of every charge is non-negative. */
  ghost predicate NonNegative(perCharge: seq<seq<int>>)
  {
    forall k, i :: 0 <= k < |perCharge| && 0 <= i < |perCharge[k]| ==> perCharge[k][i] >= 0
  }

  /** The per-charge arrays of the charges that were not skipped (the non-empty ones), in charge order. */
  function Clustered<T>(perCharge: seq<seq<T>>): (r: seq<seq<T>>)
    ensures |r| <= |perCharge|
    ensures forall k :: 0 <= k < |r| ==> r[k] != []
  {
    if perCharge == [] then []
    else
      var last := perCharge[|perCharge| - 1];
      Clustered(perCharge[..|perCharge| - 1]) + (if last == [] then [] else [last])
  }

  /**
   * The current pipeline's loop over charges, starting from counter `start`.
   * An empty label array stands for a charge without metadata: it is skipped
   * and leaves the counter alone. Otherwise every label is shifted by the
   * counter and the counter becomes the largest shifted label plus one.
   */
  function OffsetCharges(perCharge: seq<seq<int>>, start: int): (r: Offsets)
  {
    if perCharge == [] then Offsets([], start)
    else
      var acc := OffsetCharges(perCharge[..|perCharge| - 1], start);
      var labels := perCharge[|perCharge| - 1];
      if labels == [] then acc
      else
        var shifted := Shift(labels, acc.next);
        Offsets(acc.tables + [shifted], Max(shifted) + 1)
  }

  /**
   * `tables` are the label arrays `sources`, each shifted by its entry of
   * `offsets`, and the offsets are the running counter: it starts at
   * `start`, after each table it is one past that table's largest label,
   * and `next` is its value after the last table.
   */
  ghost predicate ShiftedByCounter(tables: seq<seq<int>>, sources: seq<seq<int>>, offsets: seq<int>, start: int, next: int)
  {
    && |offsets| == |tables| == |sources|
    && (forall k :: 0 <= k < |tables| ==> tables[k] == Shift(sources[k], offsets[k]) && tables[k] != [])
    && (|offsets| > 0 ==> offsets[0] == start)
    && (forall k :: 0 <= k < |offsets| - 1 ==> offsets[k + 1] == Max(tables[k]) + 1)
    && next == if offsets == [] then start else Max(tables[|offsets| - 1]) + 1
  }

  /** Shifting one more non-empty array by the counter, then moving the counter past it, keeps the relation. */
  lemma ShiftedByCounterSnoc(tables: seq<seq<int>>, sources: seq<seq<int>>, offsets: seq<int>, start: int, next: int,
                             labels: seq<int>)
    requires ShiftedByCounter(tables, sources, offsets, start, next)
    requires labels != []
    ensures var shifted := Shift(labels, next);
      ShiftedByCounter(tables + [shifted], sources + [labels], offsets + [next], start, Max(shifted) + 1)
  {
    var tables', offsets' := tables + [Shift(labels, next)], offsets + [next];
    forall k | 0 <= k < |offsets'| - 1 ensures offsets'[k + 1] == Max(tables'[k]) + 1 {
      assert tables'[k] == tables[k];
    }
  }

  /**
   * Each table is the label array of a clustered charge with the running
   * counter added to all of its labels: clusters within a charge are neither
   * merged nor split, and skipped charges contribute no table. The counter
   * starts at `start` and after each table is one past that table's largest
   * label.
   */
  lemma {:induction false} OffsetChargesShifts(perCharge: seq<seq<int>>, start: int) returns (offsets: seq<int>)
    ensures var r := OffsetCharges(perCharge, start);
      ShiftedByCounter(r.tables, Clustered(perCharge), offsets, start, r.next)
  {
    if perCharge == [] {
      offsets := [];
    } else {
      var init := perCharge[..|perCharge| - 1];
      var labels := perCharge[|perCharge| - 1];
      offsets := OffsetChargesShifts(init, start);
      var acc := OffsetCharges(init, start);
      if labels != [] {
        ShiftedByCounterSnoc(acc.tables, Clustered(init), offsets, start, acc.next, labels);
        offsets := offsets + [acc.next];
      }
    }
  }

  /**
   * With non-negative labels from the clustering, every label handed to a
   * charge lies in [counter before, counter after), so labels of successive
   * charges are disjoint and strictly increasing, and the counter grows
   * exactly when a charge is clustered.
   */
  lemma {:induction false} OffsetChargesDisjoint(perCharge: seq<seq<int>>, start: int)
    requires NonNegative(perCharge)
    ensures var r := OffsetCharges(perCharge, start);
      && start <= r.next
      && (r.next == start <==> r.tables == [])
      && (forall k, x :: 0 <= k < |r.tables| && x in r.tables[k] ==> start <= x < r.next)
      && (forall k1, k2, x, y :: 0 <= k1 < k2 < |r.tables| && x in r.tables[k1] && y in r.tables[k2] ==> x < y)
  {
    if perCharge != [] {
      var init := perCharge[..|perCharge| - 1];
      var labels := perCharge[|perCharge| - 1];
      assert NonNegative(init);
      OffsetChargesDisjoint(init, start);
      var acc := OffsetCharges(init, start);
      if labels != [] {
        var shifted := Shift(labels, acc.next);
        var next := Max(shifted) + 1;
        assert forall y :: y in shifted ==> acc.next <= y < next by {
          forall y | y in shifted ensures acc.next <= y < next {
            var i :| 0 <= i < |shifted| && shifted[i] == y;
            assert labels[i] >= 0;
          }
        }
        assert shifted[0] in shifted;
        var tables := acc.tables + [shifted];
        assert forall k :: 0 <= k < |acc.tables| ==> tables[k] == acc.tables[k];
      }
    }
  }

  /** The labels of `labels` that are not noise, in order. */
  function NonNoise(labels: seq<int>): (r: seq<int>)
    ensures forall x :: x in r <==> x in labels && x != Noise
  {
    if labels == [] then []
    else
      var last := labels[|labels| - 1];
      assert labels == labels[..|labels| - 1] + [last];
      NonNoise(labels[..|labels| - 1]) + (if last == Noise then [] else [last])
  }

  /** `clusters[clusters != -1] += offset`. */
  function MaskedShift(labels: seq<int>, offset: int): (r: seq<int>)
  {
    seq(|labels|, i requires 0 <= i < |labels| => if labels[i] == Noise then Noise else labels[i] + offset)
  }

  /** Why the legacy loop can stop early. */
  datatype LabelError = NoClusteredSpectrum   // `numpy.amax` over an empty selection

  /**
   * The legacy pipeline's loop over charges: noise stays -1, the other labels
   * are shifted by the counter, and the counter becomes the largest of the
   * labels selected by the noise mask (taken on the labels before shifting),
   * plus one. A charge without any non-noise label makes the
   * maximum fail, and with it the run.
   */
  function OffsetNonNoise(perCharge: seq<seq<int>>, start: int): (r: Result<Offsets, LabelError>)
  {
    if perCharge == [] then Success(Offsets([], start))
    else
      match OffsetNonNoise(perCharge[..|perCharge| - 1], start)
      case Failure(e) => Failure(e)
      case Success(acc) =>
        var labels := perCharge[|perCharge| - 1];
        var kept := Shift(NonNoise(labels), acc.next);
        if kept == [] then Failure(NoClusteredSpectrum)
        else Success(Offsets(acc.tables + [MaskedShift(labels, acc.next)], Max(kept) + 1))
  }

  /** Every label is noise or a cluster number, as density clustering produces them. */
  ghost predicate DensityLabels(perCharge: seq<seq<int>>)
  {
    forall k, i :: 0 <= k < |perCharge| && 0 <= i < |perCharge[k]| ==> perCharge[k][i] >= Noise
  }

  /** Shifting distributes over concatenation. */
  lemma ShiftAppend(a: seq<int>, b: seq<int>, offset: int)
    ensures Shift(a + b, offset) == Shift(a, offset) + Shift(b, offset)
  {
  }

  /**
   * With density labels and a non-negative offset, the non-noise labels
   * after masking are the labels the noise mask selected, shifted: no
   * shifted label lands on -1.
   */
  lemma {:induction false} MaskedNonNoise(labels: seq<int>, offset: int)
    requires forall i :: 0 <= i < |labels| ==> labels[i] >= Noise
    requires offset >= 0
    ensures NonNoise(MaskedShift(labels, offset)) == Shift(NonNoise(labels), offset)
  {
    if labels != [] {
      var init, last := labels[..|labels| - 1], labels[|labels| - 1];
      MaskedNonNoise(init, offset);
      var m := MaskedShift(labels, offset);
      assert m[..|m| - 1] == MaskedShift(init, offset);
      ShiftAppend(NonNoise(init), if last == Noise then [] else [last], offset);
    }
  }

  /** Masking keeps noise out of reach of the offset: shifted non-noise labels stay at or above a non-negative offset. */
  lemma MaskedShiftNonNoise(labels: seq<int>, offset: int)
    requires forall i :: 0 <= i < |labels| ==> labels[i] >= Noise
    requires offset >= 0
    ensures NonNoise(MaskedShift(labels, offset)) == [] <==> NonNoise(labels) == []
    ensures forall y :: y in NonNoise(MaskedShift(labels, offset)) ==> offset <= y
    ensures NonNoise(MaskedShift(labels, offset)) == Shift(NonNoise(labels), offset)
  {
    MaskedNonNoise(labels, offset);
    var shifted := MaskedShift(labels, offset);
    forall y | y in NonNoise(shifted) ensures offset <= y {
      var i :| 0 <= i < |shifted| && shifted[i] == y;
    }
    if NonNoise(labels) != [] {
      var x := NonNoise(labels)[0];
      assert x in NonNoise(labels);
      var i :| 0 <= i < |labels| && labels[i] == x;
      assert shifted[i] in NonNoise(shifted);
    }
    if NonNoise(shifted) != [] {
      var y := NonNoise(shifted)[0];
      assert y in NonNoise(shifted);
      var i :| 0 <= i < |shifted| && shifted[i] == y;
      assert labels[i] in NonNoise(labels);
    }
  }

  /**
   * On density labels the legacy loop succeeds, with the counter never
   * going below its start, exactly when every charge has a non-noise label.
   */
  lemma {:induction false} OffsetNonNoiseFails(perCharge: seq<seq<int>>, start: int)
    requires DensityLabels(perCharge)
    requires start >= 0
    ensures var r := OffsetNonNoise(perCharge, start);
      && (r.Failure? <==> exists k :: 0 <= k < |perCharge| && NonNoise(perCharge[k]) == [])
      && (r.Success? ==> start <= r.value.next)
  {
    if perCharge != [] {
      var init := perCharge[..|perCharge| - 1];
      var labels := perCharge[|perCharge| - 1];
      assert DensityLabels(init);
      OffsetNonNoiseFails(init, start);
      assert (exists k :: 0 <= k < |perCharge| && NonNoise(perCharge[k]) == [])
        <==> (exists k :: 0 <= k < |init| && NonNoise(init[k]) == []) || NonNoise(labels) == []
      by {
        forall k | 0 <= k < |init| ensures init[k] == perCharge[k] {
        }
      }
      var prev := OffsetNonNoise(init, start);
      if prev.Success? {
        MaskedShiftNonNoise(labels, prev.value.next);
        var kept := NonNoise(MaskedShift(labels, prev.value.next));
        if kept != [] {
          assert kept[0] in kept;
        }
      }
    }
  }

  /**
   * `tables` are the label arrays `sources` with noise kept in place and
   * every other label shifted by that array's entry of `offsets`; every
   * source has a label outside the noise mask, and the offsets are the
   * running counter: it starts at `start`, after each array it is one past
   * the largest of the array's masked labels once shifted, and `next` is its
   * value after the last array.
   */
  ghost predicate MaskedByCounter(tables: seq<seq<int>>, sources: seq<seq<int>>, offsets: seq<int>, start: int, next: int)
  {
    && |offsets| == |tables| == |sources|
    && (forall k :: 0 <= k < |tables| ==> tables[k] == MaskedShift(sources[k], offsets[k]) && NonNoise(sources[k]) != [])
    && (|offsets| > 0 ==> offsets[0] == start)
    && (forall k :: 0 <= k < |offsets| - 1 ==> offsets[k + 1] == Max(Shift(NonNoise(sources[k]), offsets[k])) + 1)
    && next == if offsets == [] then start else Max(Shift(NonNoise(sources[|offsets| - 1]), offsets[|offsets| - 1])) + 1
  }

  /** Masking one more array with a non-noise label by the counter, then moving the counter past it, keeps the relation. */
  lemma MaskedByCounterSnoc(tables: seq<seq<int>>, sources: seq<seq<int>>, offsets: seq<int>, start: int, next: int,
                            labels: seq<int>)
    requires MaskedByCounter(tables, sources, offsets, start, next)
    requires NonNoise(labels) != []
    ensures MaskedByCounter(tables + [MaskedShift(labels, next)], sources + [labels], offsets + [next], start,
                            Max(Shift(NonNoise(labels), next)) + 1)
  {
    var sources', offsets' := sources + [labels], offsets + [next];
    forall k | 0 <= k < |offsets'| - 1
      ensures offsets'[k + 1] == Max(Shift(NonNoise(sources'[k]), offsets'[k])) + 1
    {
      assert sources'[k] == sources[k] && offsets'[k] == offsets[k];
    }
  }

  /** A successful legacy loop succeeded on all charges but the last, and masked the last one, which has a non-noise label. */
  lemma OffsetNonNoiseLast(perCharge: seq<seq<int>>, start: int)
    requires perCharge != []
    requires OffsetNonNoise(perCharge, start).Success?
    ensures var init, labels := perCharge[..|perCharge| - 1], perCharge[|perCharge| - 1];
      && perCharge == init + [labels]
      && OffsetNonNoise(init, start).Success?
      && NonNoise(labels) != []
      && var acc := OffsetNonNoise(init, start).value;
         OffsetNonNoise(perCharge, start).value
           == Offsets(acc.tables + [MaskedShift(labels, acc.next)], Max(Shift(NonNoise(labels), acc.next)) + 1)
  {
  }

  /**
   * On success, each table is its charge's label array with noise kept in
   * place and every other label shifted by the running counter. The counter
   * starts at `start`, and after each charge it is one past the largest of
   * that charge's non-noise labels once shifted.
   */
  lemma {:induction false} OffsetNonNoiseShifts(perCharge: seq<seq<int>>, start: int) returns (offsets: seq<int>)
    ensures var r := OffsetNonNoise(perCharge, start);
      r.Success? ==> MaskedByCounter(r.value.tables, perCharge, offsets, start, r.value.next)
  {
    if perCharge == [] {
      offsets := [];
    } else {
      var init := perCharge[..|perCharge| - 1];
      var labels := perCharge[|perCharge| - 1];
      offsets := OffsetNonNoiseShifts(init, start);
      if OffsetNonNoise(perCharge, start).Success? {
        OffsetNonNoiseLast(perCharge, start);
        var acc := OffsetNonNoise(init, start).value;
        MaskedByCounterSnoc(acc.tables, init, offsets, start, acc.next, labels);
        offsets := offsets + [acc.next];
      }
    }
  }

  /**
   * On success with density labels, every non-noise label lies in
   * [start, final counter), and the non-noise labels of an earlier charge are
   * all smaller than those of a later one: no two charges share a cluster.
   */
  lemma {:induction false} OffsetNonNoiseDisjoint(perCharge: seq<seq<int>>, start: int)
    requires DensityLabels(perCharge)
    requires start >= 0
    ensures var r := OffsetNonNoise(perCharge, start);
      r.Success? ==>
        && (forall k, x :: 0 <= k < |r.value.tables| && x in NonNoise(r.value.tables[k]) ==> start <= x < r.value.next)
        && (forall k1, k2, x, y ::
              0 <= k1 < k2 < |r.value.tables| && x in NonNoise(r.value.tables[k1]) && y in NonNoise(r.value.tables[k2])
              ==> x < y)
  {
    if perCharge != [] {
      var init := perCharge[..|perCharge| - 1];
      var labels := perCharge[|perCharge| - 1];
      assert DensityLabels(init);
      OffsetNonNoiseDisjoint(init, start);
      OffsetNonNoiseFails(init, start);
      var r := OffsetNonNoise(perCharge, start);
      if r.Success? {
        var acc := OffsetNonNoise(init, start).value;
        var shifted := MaskedShift(labels, acc.next);
        MaskedShiftNonNoise(labels, acc.next);
        var next := Max(NonNoise(shifted)) + 1;
        assert r.value == Offsets(acc.tables + [shifted], next);
        assert forall y :: y in NonNoise(shifted) ==> acc.next <= y < next;
        forall k, x | 0 <= k < |r.value.tables| && x in NonNoise(r.value.tables[k]) ensures start <= x < next {
          if k < |acc.tables| {
            assert r.value.tables[k] == acc.tables[k];
          }
        }
        forall k1, k2, x, y | 0 <= k1 < k2 < |r.value.tables| && x in NonNoise(r.value.tables[k1]) && y in NonNoise(r.value.tables[k2])
          ensures x < y
        {
          assert r.value.tables[k1] == acc.tables[k1];
          if k2 < |acc.tables| {
            assert r.value.tables[k2] == acc.tables[k2];
          }
        }
      }
    }
  }

  /** Masking with a non-negative offset keeps the length, and a label is noise after it exactly when it was noise before. */
  lemma MaskedShiftMasks(labels: seq<int>, offset: int)
    requires forall i :: 0 <= i < |labels| ==> labels[i] >= Noise
    requires offset >= 0
    ensures |MaskedShift(labels, offset)| == |labels|
    ensures forall i :: 0 <= i < |labels| ==> (MaskedShift(labels, offset)[i] == Noise <==> labels[i] == Noise)
  {
  }

  /**
   * On success with density labels, every table has its charge's length and
   * a label is noise in the table exactly when it was noise in the input:
   * masking never turns a cluster into noise or noise into a cluster.
   */
  lemma {:induction false} OffsetNonNoiseMasks(perCharge: seq<seq<int>>, start: int)
    requires DensityLabels(perCharge)
    requires start >= 0
    ensures var r := OffsetNonNoise(perCharge, start);
      r.Success? ==>
        && |r.value.tables| == |perCharge|
        && (forall k :: 0 <= k < |perCharge| ==> |r.value.tables[k]| == |perCharge[k]|)
        && (forall k, i :: 0 <= k < |perCharge| && 0 <= i < |perCharge[k]| ==>
              (r.value.tables[k][i] == Noise <==> perCharge[k][i] == Noise))
  {
    if perCharge != [] {
      var init := perCharge[..|perCharge| - 1];
      var labels := perCharge[|perCharge| - 1];
      assert DensityLabels(init);
      OffsetNonNoiseMasks(init, start);
      OffsetNonNoiseFails(init, start);
      var r := OffsetNonNoise(perCharge, start);
      if r.Success? {
        var acc := OffsetNonNoise(init, start).value;
        var shifted := MaskedShift(labels, acc.next);
        assert r.value.tables == acc.tables + [shifted];
        MaskedShiftMasks(labels, acc.next);
        forall k | 0 <= k < |perCharge|
          ensures |r.value.tables[k]| == |perCharge[k]|
          ensures forall i :: 0 <= i < |perCharge[k]| ==> (r.value.tables[k][i] == Noise <==> perCharge[k][i] == Noise)
        {
          if k < |init| {
            assert r.value.tables[k] == acc.tables[k] && perCharge[k] == init[k];
          } else {
            assert r.value.tables[k] == shifted;
          }
        }
      }
    }
  }
}
