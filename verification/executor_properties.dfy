/**
  Properties of the batch executor model: the per-item pass, one batch's
  processing, and whole `execute` runs (how batches are cut with the live
  batch size, how the size evolves, what progress and the in-flight counter
  add up to), and three concrete scenarios.
 */
module ExecutorProperties {
  import opened RunTrace
  import opened BatchWorkExecutor

  /** Each call in `calls` is the singleton list of the item at the same
      position of `batch`. */
  ghost predicate SingletonsOf<T>(calls: seq<seq<T>>, batch: seq<T>)
  {
    |calls| <= |batch| && forall i :: 0 <= i < |calls| ==> calls[i] == [batch[i]]
  }

  /** The handler, called on each item's singleton list in turn starting
      `made` calls into the run, returns normally every time. */
  ghost predicate EachItemOk<T>(handler: Handler<T>, batch: seq<T>, made: nat)
  {
    forall i :: 0 <= i < |batch| ==> handler(made + i, [batch[i]]) == Ok
  }

  // ---------------------------------------------------------------------------
  // The per-item pass

  /** The per-item pass calls the handler on `[item]` for the items of the
      batch in batch order, one call per item at most. */
  lemma {:induction false} RetryEachSingletons<T>(handler: Handler<T>, batch: seq<T>, made: nat)
    decreases |batch|
    ensures SingletonsOf(RetryEach(handler, batch, made).calls, batch)
  {
    if |batch| > 0 && handler(made, [batch[0]]) == Ok {
      var r := RetryEach(handler, batch, made);
      var rest := RetryEach(handler, batch[1..], made + 1);
      RetryEachSingletons(handler, batch[1..], made + 1);
      assert r.calls == [[batch[0]]] + rest.calls;
      forall i | 1 <= i < |r.calls|
        ensures r.calls[i] == [batch[i]]
      {
        assert r.calls[i] == rest.calls[i - 1] && batch[1..][i - 1] == batch[i];
      }
    }
  }

  /** The per-item pass completes exactly when the handler returns normally
      on every item's singleton list. */
  lemma {:induction false} RetryEachCompletes<T>(handler: Handler<T>, batch: seq<T>, made: nat)
    decreases |batch|
    ensures RetryEach(handler, batch, made).completed <==> EachItemOk(handler, batch, made)
  {
    if |batch| > 0 && handler(made, [batch[0]]) == Ok {
      var tail := batch[1..];
      RetryEachCompletes(handler, tail, made + 1);
      assert RetryEach(handler, batch, made).completed == RetryEach(handler, tail, made + 1).completed;
      forall i | 1 <= i < |batch|
        ensures handler(made + i, [batch[i]]) == handler(made + 1 + (i - 1), [tail[i - 1]])
      {
        assert tail[i - 1] == batch[i];
      }
    }
  }

  /** A per-item pass that does not complete stops right after the first
      item whose call raised: every earlier item's call returned. */
  lemma {:induction false} RetryEachStopsAtFirstFailure<T>(handler: Handler<T>, batch: seq<T>, made: nat)
    decreases |batch|
    ensures var r := RetryEach(handler, batch, made);
      !r.completed ==>
        && 1 <= |r.calls| <= |batch|
        && EachItemOk(handler, batch[..|r.calls| - 1], made)
        && handler(made + |r.calls| - 1, [batch[|r.calls| - 1]]) != Ok
  {
    if |batch| > 0 && handler(made, [batch[0]]) == Ok {
      var tail := batch[1..];
      var r := RetryEach(handler, batch, made);
      var rest := RetryEach(handler, tail, made + 1);
      RetryEachStopsAtFirstFailure(handler, tail, made + 1);
      assert |r.calls| == |rest.calls| + 1 && r.completed == rest.completed;
      if !r.completed {
        assert tail[|rest.calls| - 1] == batch[|r.calls| - 1];
        forall i | 1 <= i < |r.calls| - 1
          ensures handler(made + i, [batch[i]]) == Ok
        {
          assert tail[i - 1] == batch[i];
        }
      }
    }
  }

  // ---------------------------------------------------------------------------
  // One batch

  /** After the batch call, every further handler call of the batch's
      processing is on the singleton list of the next item, in batch order,
      and when nothing escapes there is one for every item. */
  lemma StepRetriesEachItem<T>(e: Executor, handler: Handler<T>, batch: seq<T>, made: nat)
    ensures var r := Step(e, handler, batch, made);
      && (forall i :: 1 <= i < |r.calls| ==> r.calls[i] == [batch[i - 1]])
      && (handler(made, batch) == Transient && !r.raised ==> |r.calls| == |batch| + 1)
  {
    var r := Step(e, handler, batch, made);
    if handler(made, batch) == Transient {
      var pass := RetryEach(handler, batch, made + 1);
      RetryEachSingletons(handler, batch, made + 1);
      assert r.calls == [batch] + pass.calls;
      forall i | 1 <= i < |r.calls|
        ensures r.calls[i] == [batch[i - 1]]
      {
        assert r.calls[i] == pass.calls[i - 1];
      }
    }
  }

  /** A batch's processing raises exactly when the batch call fails fatally,
      or fails with a retryable error and one of the per-item calls raises. */
  lemma StepRaises<T>(e: Executor, handler: Handler<T>, batch: seq<T>, made: nat)
    ensures Step(e, handler, batch, made).raised <==>
      || handler(made, batch) == Fatal
      || (handler(made, batch) == Transient &&
          exists i :: 0 <= i < |batch| && handler(made + 1 + i, [batch[i]]) != Ok)
  {
    RetryEachCompletes(handler, batch, made + 1);
  }

  // ---------------------------------------------------------------------------
  // Whole runs

  /** Processing a batch tracks progress for the whole batch exactly when
      nothing escapes, restores the in-flight counter when nothing escapes,
      and otherwise leaves it at most one above where it was. */
  ghost predicate TracksProgress<T(!new)>(process: BatchProcessor<T>)
  {
    forall x: Executor, batch: seq<T>, made: nat ::
      && process(x, batch, made).state.progress ==
           (if process(x, batch, made).raised then x.progress else x.progress + |batch|)
      && x.counter <= process(x, batch, made).state.counter <= x.counter + 1
      && (!process(x, batch, made).raised ==> process(x, batch, made).state.counter == x.counter)
  }

  /** `_fail_safe_execute` tracks progress in that sense. */
  lemma ProcessWithTracksProgress<T(!new)>(handler: Handler<T>)
    ensures TracksProgress(ProcessWith(handler))
  {
  }

  /** Progress along a run: the final count is the starting count plus the
      items of every batch whose processing returned, and the in-flight
      counter is back where it started unless the run aborted, when it is at
      most one above. */
  lemma {:induction false} RunProgress<T(!new)>(e: Executor, process: BatchProcessor<T>, items: seq<T>, made: nat)
    requires e.batchSize >= 1 && KeepsSizeInRange(process) && TracksProgress(process)
    decreases |items|
    ensures var r := RunBatches(e, process, items, made);
      && Final(r).progress == e.progress + Tracked(r)
      && (!Aborted(r) ==> Final(r).counter == e.counter)
      && (Aborted(r) ==> e.counter <= Final(r).counter <= e.counter + 1)
  {
    if |items| > 0 {
      var batch := items[..Min(e.batchSize, |items|)];
      var s := process(e, batch, made);
      if !s.raised {
        RunProgress(s.state, process, items[|batch|..], made + |s.calls|);
      }
    }
  }

  /** The size is read afresh for every batch: when the first batch of a run
      fails with a retryable error while full-size, and its per-item pass
      succeeds, the very next batch is cut with the shrunk size. */
  lemma {:induction false} ShrinkAffectsNextBatch<T(!new)>(e: Executor, handler: Handler<T>, items: seq<T>, made: nat)
    requires 1 < e.batchSize < |items|
    requires handler(made, items[..e.batchSize]) == Transient
    requires forall i :: 0 <= i < e.batchSize ==> handler(made + 1 + i, [items[i]]) == Ok
    ensures var r := Execute(e, handler, items, made);
      var shrunk := ShrunkSize(e.batchSize, e.batchSize, e.exponentialBackoff);
      && shrunk < e.batchSize
      && r.Next? && r.size == e.batchSize && r.batch == items[..e.batchSize]
      && !r.rest.End? && r.rest.size == shrunk
      && r.rest.batch == items[e.batchSize..e.batchSize + Min(shrunk, |items| - e.batchSize)]
  {
    var b := e.batchSize;
    var batch := items[..b];
    assert Min(b, |items|) == b;
    assert RetryEach(handler, batch, made + 1).completed by {
      RetryEachCompletes(handler, batch, made + 1);
      assert forall i :: 0 <= i < |batch| ==> handler(made + 1 + i, [batch[i]]) == Ok;
    }
    var process := ProcessWith(handler);
    var s := Step(e, handler, batch, made);
    assert process(e, batch, made) == s;
    assert !s.raised && s.state.batchSize == ShrunkSize(b, b, e.exponentialBackoff);
    var r := RunBatches(e, process, items, made);
    assert r.Next? && r.batch == batch;
    var left := items[b..];
    var m := Min(s.state.batchSize, |left|);
    assert r.rest.batch == left[..m];
    assert left[..m] == items[b..b + m];
  }

  /** With a handler that never raises, every batch is handled in a single
      call and cut with the starting size, and the only change to the
      executor is progress for every item. */
  lemma {:induction false} AllOkRun<T(!new)>(e: Executor, handler: Handler<T>, items: seq<T>, made: nat)
    requires e.batchSize >= 1
    requires forall k, b :: handler(k, b) == Ok
    decreases |items|
    ensures var r := Execute(e, handler, items, made);
      && !Aborted(r)
      && Calls(r) == Batches(r)
      && Final(r) == e.(progress := e.progress + |items|)
      && forall i :: 0 <= i < |Sizes(r)| ==> Sizes(r)[i] == e.batchSize
  {
    if |items| > 0 {
      var batch := items[..Min(e.batchSize, |items|)];
      var s := Step(e, handler, batch, made);
      assert s.state == e.(progress := e.progress + |batch|) && s.calls == [batch];
      AllOkRun(s.state, handler, items[|batch|..], made + 1);
      var rest := Execute(s.state, handler, items[|batch|..], made + 1);
      var r := Execute(e, handler, items, made);
      assert Sizes(r) == [e.batchSize] + Sizes(rest);
    }
  }

  /** From construction with a positive starting size, a whole run keeps the
      size between one and the starting size; the items tracked plus the
      batch that raised, if any, are exactly the items handed out, never
      more than were given; a completed run has tracked every item and
      leaves the counter at zero, an aborted one at most at one. */
  lemma InitThenExecute<T(!new)>(startingBatchSize: nat, maxWorkers: nat, exponentialBackoff: bool,
                                 handler: Handler<T>, items: seq<T>)
    requires startingBatchSize >= 1
    ensures var r := Execute(Init(startingBatchSize, maxWorkers, exponentialBackoff), handler, items, 0);
      && 1 <= Final(r).batchSize <= startingBatchSize
      && Final(r).progress + |Failed(r)| == |Covered(r)| <= |items|
      && (!Aborted(r) ==> Final(r).progress == |items| && Final(r).counter == 0)
      && (Aborted(r) ==> 0 <= Final(r).counter <= 1)
  {
    var e := Init(startingBatchSize, maxWorkers, exponentialBackoff);
    var process := ProcessWith(handler);
    var r := RunBatches(e, process, items, 0);
    ProcessWithTracksProgress(handler);
    RunProgress(e, process, items, 0);
    CutFromCovers(r, items);
    TrackedCovered(r);
  }

  // ---------------------------------------------------------------------------
  // Three concrete scenarios

  /** A fatal error on the first batch ends the run there: no retry, no
      shrink, no progress, and the counter keeps that batch's increment. */
  lemma FatalFirstBatch<T(!new)>(e: Executor, handler: Handler<T>, items: seq<T>, made: nat)
    requires e.batchSize >= 1 && |items| > 0
    requires handler(made, items[..Min(e.batchSize, |items|)]) == Fatal
    ensures var batch := items[..Min(e.batchSize, |items|)];
      Execute(e, handler, items, made) == Abort(e.batchSize, batch, [batch], e.(counter := e.counter + 1))
  {
  }

  /** Ten items, a starting size of four and a handler that always returns:
      batches of four, four and two, and progress ten. */
  lemma TenItemsByFour<T(!new)>(maxWorkers: nat, exponentialBackoff: bool, handler: Handler<T>, items: seq<T>)
    requires |items| == 10
    requires forall k, b :: handler(k, b) == Ok
    ensures var r := Execute(Init(4, maxWorkers, exponentialBackoff), handler, items, 0);
      && Batches(r) == [items[..4], items[4..8], items[8..]]
      && Final(r).progress == 10
  {
    var e := Init(4, maxWorkers, exponentialBackoff);
    AllOkRun(e, handler, items, 0);
    assert items[..Min(4, 10)] == items[..4] && items[4..][..Min(4, 6)] == items[4..8];
    assert items[4..][4..] == items[8..] && items[8..][..Min(4, 2)] == items[8..];
    var r3 := Execute(e.(progress := 10), handler, items[8..][2..], 3);
    var r2 := Execute(e.(progress := 8), handler, items[8..], 2);
    var r1 := Execute(e.(progress := 4), handler, items[4..], 1);
    assert r2 == Next(4, items[8..], [items[8..]], r3);
    assert r1 == Next(4, items[4..8], [items[4..8]], r2);
    assert r3.End? && Batches(r2) == [items[8..]];
    assert Batches(r1) == [items[4..8], items[8..]];
    assert Execute(e, handler, items, 0) == Next(4, items[..4], [items[..4]], r1);
  }

  /** A starting size of four under exponential backoff, a retryable failure
      of the first batch and per-item calls that all return: the size
      becomes two, each of the four items is retried alone in order, and
      progress counts the whole batch. */
  lemma FirstBatchHalvesFour<T>(maxWorkers: nat, handler: Handler<T>, batch: seq<T>)
    requires |batch| == 4
    requires handler(0, batch) == Transient
    requires forall i :: 0 <= i < 4 ==> handler(1 + i, [batch[i]]) == Ok
    ensures var r := Step(Init(4, maxWorkers, true), handler, batch, 0);
      && !r.raised
      && r.state.batchSize == 2
      && r.state.progress == 4
      && r.calls == [batch, [batch[0]], [batch[1]], [batch[2]], [batch[3]]]
  {
    var e := Init(4, maxWorkers, true);
    StepRaises(e, handler, batch, 0);
    StepRetriesEachItem(e, handler, batch, 0);
  }
}
