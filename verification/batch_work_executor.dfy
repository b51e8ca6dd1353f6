/**
  A sequential model of the adaptive batch executor of blockchain-etl
  (`BatchWorkExecutor`): items are cut into batches whose size is read afresh
  before every batch, each batch is handed to a handler, a retryable failure
  shrinks the size for later batches and replays the failed batch one item at
  a time, and any other failure aborts the run.

  The worker pool is not modelled: submitting a batch runs it at once, so the
  batches of one run are processed in source order.
 */
module BatchWorkExecutor {
  /** How one handler call ends: normally, with an exception from the
      executor's retry set, or with any other exception. */
  datatype Outcome = Ok | Transient | Fatal

  /** The handler as an oracle. Its first argument is the number of handler
      calls made before this one, which stands for whatever state of the
      outside world decides whether a call succeeds (so a retried item may
      succeed where the batch failed). */
  type Handler<!T> = (nat, seq<T>) -> Outcome

  /** The executor's fields that matter sequentially. `progress` is the count
      the progress logger has been asked to track so far. */
  datatype Executor = Executor(
    batchSize: nat,
    maxWorkers: nat,
    exponentialBackoff: bool,
    counter: int,
    progress: nat)

  /** The state right after construction: nothing in flight and nothing
      tracked yet, with the starting size as the live batch size. */
  function Init(startingBatchSize: nat, maxWorkers: nat, exponentialBackoff: bool): (r: Executor)
    ensures startingBatchSize >= 1 ==> r.batchSize >= 1
    ensures r.batchSize == startingBatchSize
    ensures r.maxWorkers == maxWorkers && r.exponentialBackoff == exponentialBackoff
    ensures r.counter == 0 && r.progress == 0
  {
    Executor(startingBatchSize, maxWorkers, exponentialBackoff, 0, 0)
  }

  function Min(a: nat, b: nat): nat
  {
    if a <= b then a else b
  }

  /** The batch size after a retryable failure of a batch of `batchLen` items
      seen while the size was `size`. Only a full-size batch of more than one
      item shrinks it: to half (rounded down) or by one. */
  function ShrunkSize(size: nat, batchLen: nat, exponential: bool): (r: nat)
    ensures r <= size
    ensures size >= 1 ==> r >= 1
    ensures r < size <==> size == batchLen && size > 1
    ensures r < size && exponential ==> 2 * r <= size < 2 * r + 2
    ensures r < size && !exponential ==> r + 1 == size
  {
    if size == batchLen && size > 1 then
      if exponential then size / 2 else size - 1
    else
      size
  }

  /** The handler calls of the per-item pass and whether all of them returned. */
  datatype ItemPass<T> = ItemPass(calls: seq<seq<T>>, completed: bool)

  /** The per-item pass after a retryable failure: the handler is called on
      `[item]` for each item in batch order; the first call that raises ends
      the pass, since nothing inside the except clause catches it. `made` is
      the number of handler calls made before the pass. */
  function RetryEach<T>(handler: Handler<T>, batch: seq<T>, made: nat): (r: ItemPass<T>)
    decreases |batch|
    ensures |r.calls| <= |batch|
    ensures |r.calls| < |batch| ==> !r.completed
  {
    if |batch| == 0 then
      ItemPass([], true)
    else if handler(made, [batch[0]]) != Ok then
      ItemPass([[batch[0]]], false)
    else
      var rest := RetryEach(handler, batch[1..], made + 1);
      ItemPass([[batch[0]]] + rest.calls, rest.completed)
  }

  /** What processing one batch leaves behind: the executor state, every
      handler call made, and whether an exception escaped. */
  datatype StepResult<T> = StepResult(state: Executor, calls: seq<seq<T>>, raised: bool)

  /** One call of `_fail_safe_execute` on `batch`, `made` handler calls into
      the run. The batch call comes first; only a retryable failure shrinks
      the size (when the batch was full-size and longer than one item) and
      adds the per-item calls. Progress moves by the whole batch exactly when
      nothing escapes, and the in-flight counter is restored except when the
      batch call itself failed fatally. */
  function Step<T>(e: Executor, handler: Handler<T>, batch: seq<T>, made: nat): (r: StepResult<T>)
    ensures r.state.maxWorkers == e.maxWorkers && r.state.exponentialBackoff == e.exponentialBackoff
    ensures r.state.batchSize <= e.batchSize
    ensures e.batchSize >= 1 ==> r.state.batchSize >= 1
    ensures r.state.batchSize < e.batchSize <==>
      handler(made, batch) == Transient && e.batchSize == |batch| && e.batchSize > 1
    ensures r.state.batchSize < e.batchSize && e.exponentialBackoff ==>
      2 * r.state.batchSize <= e.batchSize < 2 * r.state.batchSize + 2
    ensures r.state.batchSize < e.batchSize && !e.exponentialBackoff ==>
      r.state.batchSize + 1 == e.batchSize
    ensures 1 <= |r.calls| <= |batch| + 1 && r.calls[0] == batch
    ensures handler(made, batch) != Transient ==> |r.calls| == 1
    ensures handler(made, batch) == Ok ==> !r.raised
    ensures handler(made, batch) == Fatal ==> r.raised
    ensures r.state.progress == (if r.raised then e.progress else e.progress + |batch|)
    ensures r.state.counter == (if handler(made, batch) == Fatal then e.counter + 1 else e.counter)
  {
    var entered := e.(counter := e.counter + 1);
    match handler(made, batch)
    case Ok =>
      StepResult(entered.(counter := e.counter, progress := e.progress + |batch|), [batch], false)
    case Fatal =>
      StepResult(entered, [batch], true)
    case Transient =>
      var shrunk := e.(batchSize := ShrunkSize(e.batchSize, |batch|, e.exponentialBackoff));
      var pass := RetryEach(handler, batch, made + 1);
      if pass.completed then
        StepResult(shrunk.(progress := e.progress + |batch|), [batch] + pass.calls, false)
      else
        StepResult(shrunk, [batch] + pass.calls, true)
  }

  /** How one batch is processed, given the executor state, the batch and
      the number of handler calls made so far. */
  type BatchProcessor<!T> = (Executor, seq<T>, nat) -> StepResult<T>

  /** `_fail_safe_execute` with the handler fixed. */
  function ProcessWith<T(!new)>(handler: Handler<T>): (process: BatchProcessor<T>)
    ensures KeepsSizeInRange(process)
  {
    (x: Executor, batch: seq<T>, made: nat) => Step(x, handler, batch, made)
  }

  /** Processing a batch never grows the batch size and never takes it
      below one. */
  ghost predicate KeepsSizeInRange<T(!new)>(process: BatchProcessor<T>)
  {
    forall x: Executor, batch: seq<T>, made: nat ::
      x.batchSize >= 1 ==> 1 <= process(x, batch, made).state.batchSize <= x.batchSize
  }

  /** The trace of one `execute` run, batch by batch. Each batch records
      the size read just before it was cut, the batch, and every handler call
      its processing made. A run ends when the items run out (`End`, with the
      executor state then) or with the first batch whose processing raised
      (`Abort`, with the state that batch left behind). */
  datatype Trace<T> =
    | End(state: Executor)
    | Abort(size: nat, batch: seq<T>, calls: seq<seq<T>>, state: Executor)
    | Next(size: nat, batch: seq<T>, calls: seq<seq<T>>, rest: Trace<T>)

  /** The executor state when the run is over. */
  function Final<T>(t: Trace<T>): Executor
  {
    match t
    case End(state) => state
    case Abort(_, _, _, state) => state
    case Next(_, _, _, rest) => Final(rest)
  }

  /** Whether an exception ended the run. */
  function Aborted<T>(t: Trace<T>): bool
  {
    match t
    case End(_) => false
    case Abort(_, _, _, _) => true
    case Next(_, _, _, rest) => Aborted(rest)
  }

  /** The size the rest of a run starts with: the size read before its first
      batch, or the executor's size if no batch is left. */
  function StartSize<T>(t: Trace<T>): nat
  {
    if t.End? then t.state.batchSize else t.size
  }

  /** The sizes read, one per batch, in order. */
  function Sizes<T>(t: Trace<T>): seq<nat>
  {
    match t
    case End(_) => []
    case Abort(size, _, _, _) => [size]
    case Next(size, _, _, rest) => [size] + Sizes(rest)
  }

  /** The batches, in order. */
  function Batches<T>(t: Trace<T>): seq<seq<T>>
  {
    match t
    case End(_) => []
    case Abort(_, batch, _, _) => [batch]
    case Next(_, batch, _, rest) => [batch] + Batches(rest)
  }

  /** Every handler call of the run, in order. */
  function Calls<T>(t: Trace<T>): seq<seq<T>>
  {
    match t
    case End(_) => []
    case Abort(_, _, calls, _) => calls
    case Next(_, _, calls, rest) => calls + Calls(rest)
  }

  /** The items of all batches, in order. */
  function Covered<T>(t: Trace<T>): seq<T>
  {
    match t
    case End(_) => []
    case Abort(_, batch, _, _) => batch
    case Next(_, batch, _, rest) => batch + Covered(rest)
  }

  /** The number of items of the batches whose processing returned. */
  function Tracked<T>(t: Trace<T>): nat
  {
    match t
    case End(_) => 0
    case Abort(_, _, _, _) => 0
    case Next(_, batch, _, rest) => |batch| + Tracked(rest)
  }

  /** The size only ever shrinks along a run, and never below one: every
      size read is at most the one read before it, and the size the run ends
      with is at most the last one read. */
  ghost predicate SizesDescend<T>(t: Trace<T>)
  {
    match t
    case End(state) => state.batchSize >= 1
    case Abort(size, _, _, state) => 1 <= state.batchSize <= size
    case Next(size, _, _, rest) => 1 <= StartSize(rest) <= size && SizesDescend(rest)
  }

  /** How `execute` cuts `items` into batches: each batch is the first
      `size` of the items not yet taken, or all of them if fewer are left,
      and the run ends at the first batch that raised or when none are left. */
  ghost predicate CutFrom<T>(t: Trace<T>, items: seq<T>)
  {
    match t
    case End(_) => |items| == 0
    case Abort(size, batch, _, _) => |items| > 0 && batch == items[..Min(size, |items|)]
    case Next(size, batch, _, rest) =>
      |items| > 0 && batch == items[..Min(size, |items|)] && CutFrom(rest, items[|batch|..])
  }

  /** The loop of `execute` with submission replaced by immediate
      processing: before each batch the current size is read and that many
      items (or all that are left) are cut off the front. The first batch
      whose processing raises ends the run. */
  function RunBatches<T(!new)>(e: Executor, process: BatchProcessor<T>, items: seq<T>, made: nat): (r: Trace<T>)
    requires e.batchSize >= 1 && KeepsSizeInRange(process)
    decreases |items|
    ensures StartSize(r) == e.batchSize
    ensures 1 <= Final(r).batchSize <= e.batchSize
    ensures SizesDescend(r)
    ensures CutFrom(r, items)
    // the first batch ends the run exactly when its processing raised
    ensures |items| > 0 ==> (r.Abort? <==> process(e, items[..Min(e.batchSize, |items|)], made).raised)
    // the size read for the next batch is the one the batch's processing left
    ensures r.Next? ==> StartSize(r.rest) == process(e, r.batch, made).state.batchSize
  {
    if |items| == 0 then
      End(e)
    else
      var batch := items[..Min(e.batchSize, |items|)];
      var s := process(e, batch, made);
      if s.raised then
        Abort(e.batchSize, batch, s.calls, s.state)
      else
        Next(e.batchSize, batch, s.calls, RunBatches(s.state, process, items[|batch|..], made + |s.calls|))
  }

  /** `execute(items, work_handler)`, `made` handler calls into the life of
      the executor. */
  function Execute<T(!new)>(e: Executor, handler: Handler<T>, items: seq<T>, made: nat): (r: Trace<T>)
    requires e.batchSize >= 1
    ensures 1 <= Final(r).batchSize <= e.batchSize
  {
    RunBatches(e, ProcessWith(handler), items, made)
  }
}
