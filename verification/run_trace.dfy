/**
  Facts about the trace of an `execute` run on its own: what the recursive
  descriptions of how sizes evolve and how items are cut say position by
  position, and what they imply about coverage and batch lengths.
 */
module RunTrace {
  import opened BatchWorkExecutor

  /** Every batch is non-empty and no longer than the size read before it,
      and a batch shorter than that size is the last one. */
  ghost predicate Fits<T>(t: Trace<T>)
  {
    match t
    case End(_) => true
    case Abort(size, batch, _, _) => 1 <= |batch| <= size
    case Next(size, batch, _, rest) => 1 <= |batch| <= size && (|batch| < size ==> rest.End?) && Fits(rest)
  }

  /** The batch whose processing raised, or nothing if no batch did. */
  function Failed<T>(t: Trace<T>): seq<T>
  {
    match t
    case End(_) => []
    case Abort(_, batch, _, _) => batch
    case Next(_, _, _, rest) => Failed(rest)
  }

  /** Position by position, the sizes read never grow and never reach zero. */
  lemma {:induction false} SizesDescendPairwise<T>(t: Trace<T>)
    requires SizesDescend(t)
    ensures forall i, j :: 0 <= i <= j < |Sizes(t)| ==> 1 <= Sizes(t)[j] <= Sizes(t)[i]
  {
    match t
    case End(_) =>
    case Abort(size, _, _, state) =>
      assert Sizes(t) == [size] && 1 <= state.batchSize <= size;
    case Next(size, _, _, rest) =>
      SizesDescendPairwise(rest);
      var tail := Sizes(rest);
      assert Sizes(t) == [size] + tail;
      if |tail| > 0 {
        assert !rest.End? && tail[0] == rest.size <= size;
      }
      forall i, j | 0 <= i <= j < |Sizes(t)|
        ensures 1 <= Sizes(t)[j] <= Sizes(t)[i]
      {
        if j > 0 {
          assert Sizes(t)[j] == tail[j - 1] <= tail[0];
          if i > 0 {
            assert Sizes(t)[i] == tail[i - 1];
          }
        }
      }
  }

  /** A run ends with a size between one and any size it read. */
  lemma {:induction false} FinalSizeSmallest<T>(t: Trace<T>)
    requires SizesDescend(t)
    ensures 1 <= Final(t).batchSize <= StartSize(t)
    ensures forall i :: 0 <= i < |Sizes(t)| ==> Final(t).batchSize <= Sizes(t)[i]
  {
    match t
    case End(_) =>
    case Abort(size, _, _, state) =>
      assert Sizes(t) == [size] && Final(t) == state;
    case Next(size, _, _, rest) =>
      FinalSizeSmallest(rest);
      assert Final(t) == Final(rest) && Final(rest).batchSize <= StartSize(rest) <= size;
      forall i | 1 <= i < |Sizes(t)|
        ensures Final(t).batchSize <= Sizes(t)[i]
      {
        assert Sizes(t)[i] == Sizes(rest)[i - 1];
      }
  }

  /** The batches are consecutive slices from the front of the items, and
      cover all of them unless the run aborted. */
  lemma {:induction false} CutFromCovers<T>(t: Trace<T>, items: seq<T>)
    requires CutFrom(t, items)
    decreases t
    ensures Covered(t) <= items
    ensures !Aborted(t) ==> Covered(t) == items
  {
    match t
    case End(_) =>
    case Abort(_, _, _, _) =>
    case Next(_, batch, _, rest) =>
      var left := items[|batch|..];
      CutFromCovers(rest, left);
      assert items == batch + left;
  }

  /** With sizes that never reach zero, every batch fits its size and only
      the last can be short. */
  lemma {:induction false} CutFromFits<T>(t: Trace<T>, items: seq<T>)
    requires CutFrom(t, items) && SizesDescend(t) && StartSize(t) >= 1
    decreases t
    ensures Fits(t)
  {
    match t
    case End(_) =>
    case Abort(_, _, _, _) =>
    case Next(size, batch, _, rest) =>
      CutFromFits(rest, items[|batch|..]);
  }

  /** Only the batch that raised goes untracked: the tracked items and the
      failed batch together are the items of all batches. */
  lemma {:induction false} TrackedCovered<T>(t: Trace<T>)
    decreases t
    ensures Tracked(t) + |Failed(t)| == |Covered(t)|
    ensures !Aborted(t) ==> Failed(t) == []
  {
    match t
    case End(_) =>
    case Abort(_, _, _, _) =>
    case Next(_, _, _, rest) =>
      TrackedCovered(rest);
  }

  /** Position by position, `Fits` bounds each batch by the size read before
      it and makes every batch but the last exactly that long. */
  lemma {:induction false} FitsPointwise<T>(t: Trace<T>)
    requires Fits(t)
    decreases t
    ensures |Batches(t)| == |Sizes(t)|
    ensures forall i :: 0 <= i < |Batches(t)| ==> 1 <= |Batches(t)[i]| <= Sizes(t)[i]
    ensures forall i :: 0 <= i < |Batches(t)| - 1 ==> |Batches(t)[i]| == Sizes(t)[i]
  {
    match t
    case End(_) =>
    case Abort(_, _, _, _) =>
    case Next(size, batch, _, rest) =>
      FitsPointwise(rest);
      assert Batches(t) == [batch] + Batches(rest) && Sizes(t) == [size] + Sizes(rest);
      forall i | 1 <= i < |Batches(t)|
        ensures 1 <= |Batches(t)[i]| <= Sizes(t)[i]
        ensures i < |Batches(t)| - 1 ==> |Batches(t)[i]| == Sizes(t)[i]
      {
        assert Batches(t)[i] == Batches(rest)[i - 1] && Sizes(t)[i] == Sizes(rest)[i - 1];
      }
      if |Batches(t)| > 1 {
        assert !rest.End?;
      }
  }
}
