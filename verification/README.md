# Batch executor and action mapper of eos-etl, in Dafny

This project models two sequential pieces of eos-etl and proves properties
about them.

**The adaptive batch executor (`BatchWorkExecutor`).**
- `execute` cuts the work items into batches. It reads the executor's
  *current* batch size before cutting each batch.
- `_fail_safe_execute` hands each batch to the work handler:
  - On success, it tracks progress for the whole batch.
  - On an exception from the retry set, it may shrink the batch size for
    later batches. It halves the size under exponential backoff and
    decrements it by one otherwise, and it does so only when the failed
    batch was full-size and the size is above one. It then calls the handler
    once per item, each time on the singleton list `[item]`, and tracks
    progress for the whole batch.
  - Any other exception escapes.

The model is sequential. Submitting a batch runs it at once, so a run is a
trace of batches in source order. A run stops at the first batch whose
processing raised.
- The handler is an oracle. It returns `Ok`, `Transient` or `Fatal` for a
  batch, given the number of handler calls made before.
- The executor is an immutable record with these fields: batch size, worker
  count, backoff mode, in-flight counter, and the progress count tracked so
  far.
- The loop (`RunBatches`) is generic over how one batch is processed.
  `Execute` instantiates it with `_fail_safe_execute` (`Step`).

**The action mapper (`EosActionMapper.action_to_dict`).**
- It turns an EOS action and its transaction into an eight-key row of type
  `action`. A missing `hex_data` becomes the string `NULL`.
- It then removes the five consumed keys from the action in place.
- Dictionaries are `map<string, Value>`, where `Value` is JSON-like.
- A call returns the row, or the `KeyError` of the first missing key, together
  with the action as it stands after the call.

Files:
- `batch_work_executor.dfy` holds the executor model and the run trace.
- `run_trace.dfy` holds facts about a run's trace on its own.
- `executor_properties.dfy` holds the per-item pass, the batch step, whole
  runs and scenarios.
- `action_mapper.dfy` and `action_mapper_properties.dfy` hold the mapper.

Three consequences of the code's ordering, which the model keeps:
- `track` is called only after the whole per-item loop has returned
  (batch_work_executor.py:72-74). An exception that escapes the per-item
  pass therefore leaves progress untouched.
- A shrink made at batch_work_executor.py:66-70 survives a per-item failure.
- A fatal batch call skips both decrements (batch_work_executor.py:59 and
  :61), so the in-flight counter stays one above its value on entry.

## Model

| member | source | states |
|---|---|---|
| BatchWorkExecutor.ShrunkSize | blockchainetl/executors/batch_work_executor.py:64-70 | The size shrinks exactly when the failed batch was full-size and the size is above one. It then becomes half the size rounded down (exponential) or the size minus one (linear). It never grows and never drops below one. |
| BatchWorkExecutor.RetryEach | blockchainetl/executors/batch_work_executor.py:71-73 | The per-item pass makes at most one handler call per item. A pass with fewer calls than items did not complete. |
| BatchWorkExecutor.Step | blockchainetl/executors/batch_work_executor.py:53-74 | Only a retryable failure of a full-size batch longer than one item shrinks the size, by the backoff rule. The batch call comes first, followed by at most one call per item, and only after a retryable failure. `Ok` never raises and `Fatal` always raises. Progress moves by the batch length exactly when nothing escapes. The counter is restored except after a fatal batch call. |
| BatchWorkExecutor.ProcessWith | blockchainetl/executors/batch_work_executor.py:53-74 | Processing one batch never grows the batch size and never takes it below one. |
| BatchWorkExecutor.Init | blockchainetl/executors/batch_work_executor.py:37-46 | Construction takes the starting size as the live batch size, so a positive starting size gives a positive size. It keeps the worker count and backoff mode, and the counter and tracked progress start at zero. |
| BatchWorkExecutor.RunBatches | blockchainetl/executors/batch_work_executor.py:48-51 | A run starts with the executor's size. Every size read is at least one and at most the previous one. The run ends with a size between one and the last size read. Each batch is the first `size` items not yet taken, or all that are left. The first batch ends the run exactly when its processing raised, and the size read for the next batch is the one that processing left. |
| BatchWorkExecutor.Execute | blockchainetl/executors/batch_work_executor.py:48-51 | After a whole `execute`, the batch size is between one and the size it started with. |
| RunTrace.SizesDescendPairwise | blockchainetl/executors/batch_work_executor.py:64-70 | Any size read later in a run is at most any size read earlier, and every size read is at least one. |
| RunTrace.FinalSizeSmallest | blockchainetl/executors/batch_work_executor.py:64-70 | The size a run ends with is at least one and at most every size the run read. |
| RunTrace.CutFromCovers | blockchainetl/executors/batch_work_executor.py:50-51 | The batches, concatenated, are a prefix of the items, and they are all of the items unless the run aborted. |
| RunTrace.CutFromFits | blockchainetl/executors/batch_work_executor.py:50-51 | Every batch is non-empty and no longer than the size read before it, and only the last batch can be short. |
| RunTrace.FitsPointwise | blockchainetl/executors/batch_work_executor.py:50-51 | For each position, the batch length is between one and the size read before it, and it equals that size for every batch but the last. |
| RunTrace.TrackedCovered | blockchainetl/executors/batch_work_executor.py:74 | The items tracked plus the batch that raised are exactly the items handed out. A run that did not abort has no failed batch. |
| ExecutorProperties.RetryEachSingletons | blockchainetl/executors/batch_work_executor.py:72-73 | The per-item pass calls the handler on `[batch[i]]` for each position in order. |
| ExecutorProperties.RetryEachCompletes | blockchainetl/executors/batch_work_executor.py:72-73 | The per-item pass completes if and only if every singleton call returns. |
| ExecutorProperties.RetryEachStopsAtFirstFailure | blockchainetl/executors/batch_work_executor.py:72-73 | An incomplete pass ends at the first item whose call raised, and every earlier item's call returned. |
| ExecutorProperties.StepRetriesEachItem | blockchainetl/executors/batch_work_executor.py:71-73 | After the batch call, every call is on the next item's singleton list, in batch order. A retryable failure that does not escape makes exactly one call per item. |
| ExecutorProperties.StepRaises | blockchainetl/executors/batch_work_executor.py:58-73 | A batch's processing raises if and only if the batch call is fatal, or it is retryable and some per-item call does not return. |
| ExecutorProperties.ProcessWithTracksProgress | blockchainetl/executors/batch_work_executor.py:53-74 | For every state and batch, processing moves progress by the whole batch exactly when nothing escapes. It restores the counter when nothing escapes and otherwise leaves it at most one higher. |
| ExecutorProperties.RunProgress | blockchainetl/executors/batch_work_executor.py:50-74 | The final progress of a run is the starting progress plus the items of every batch that returned. The counter is back where it started unless the run aborted, and then it is at most one higher. |
| ExecutorProperties.ShrinkAffectsNextBatch | blockchainetl/executors/batch_work_executor.py:50-70 | Suppose a full first batch fails retryably and its per-item pass succeeds. Then the next batch is cut with the shrunk size from the items that follow. |
| ExecutorProperties.AllOkRun | blockchainetl/executors/batch_work_executor.py:50-59 | With a handler that always returns, the run completes and makes one call per batch. Every batch is cut with the starting size, and progress grows by the number of items. |
| ExecutorProperties.FatalFirstBatch | blockchainetl/executors/batch_work_executor.py:53-60 | A fatal first batch ends the run after one call, with no shrink and no progress, and the counter stays one higher. |
| ExecutorProperties.InitThenExecute | blockchainetl/executors/batch_work_executor.py:37-51 | Starting from construction with a positive starting size, the final size is between one and the starting size. The tracked items plus the failed batch are the items handed out, never more than were given. A completed run tracked every item and leaves the counter at zero. |
| ExecutorProperties.TenItemsByFour | blockchainetl/executors/batch_work_executor.py:48-59 | Ten items with a starting size of four and a handler that always returns are cut into batches of four, four and two, and progress ends at ten. |
| ExecutorProperties.FirstBatchHalvesFour | blockchainetl/executors/batch_work_executor.py:53-74 | Take a size of four under exponential backoff, a first batch that fails retryably, and item calls that all return. Then nothing escapes, the size becomes two and progress is four. The calls are the batch, then each item alone in order. |
| ActionMapper.ActionToDict | eosetl/mappers/action_mapper.py:26-50 | The call succeeds exactly when the six looked-up keys are present. Otherwise it raises the `KeyError` of the first missing key in evaluation order and leaves the action unchanged. A row has exactly the eight row keys: `type` is `action`, the two hashes come from the transaction, four fields come from the action, and `hex_data` defaults to `NULL`. Afterwards the action has lost exactly the five consumed keys, and every other key keeps its value. |
| ActionMapperProperties.RestoreRoundTrip | eosetl/mappers/action_mapper.py:30-45 | The row and the left-over action together give back the original action, whenever its `hex_data` is not the placeholder. |
| ActionMapperProperties.PlaceholderHexDataIsLost | eosetl/mappers/action_mapper.py:38 | An action whose `hex_data` is the string `NULL` and the same action without `hex_data` give the same row and the same left-over action. |
| ActionMapperProperties.SecondCallFails | eosetl/mappers/action_mapper.py:34-45 | Mapping the same action dictionary a second time raises `KeyError('account')` and changes nothing. |
| ActionMapperProperties.RowDependsOnlyOnLookedUp | eosetl/mappers/action_mapper.py:30-39 | Two inputs that agree on the seven keys the row reads give the same row or the same error, whatever their other keys hold. |

## Left out

- Concurrency is not modelled: the `FailSafeExecutor` and `BoundedExecutor` pool, the races on `batch_size` and `counter`, and `shutdown`. Submission runs the batch at once. As a result, batches already submitted when a fatal error surfaces later are not modelled, and the run is taken to end at the first batch that raised.
- The progress logger keeps only the count passed to `track`. Its start, finish and rendering are I/O, and `total_items` only feeds that rendering.
- `dynamic_batch_iterator` is not part of this model. Its slicing is specified by `CutFrom`: each batch is the first `size` items not yet taken, or all that are left.
- The exception classes of `RETRY_EXCEPTIONS` and the `retry_exceptions` parameter are abstracted to the outcome `Transient`. Every other exception is `Fatal`.
- The handler's behaviour is an oracle indexed by the number of earlier calls. Its side effects on the outside world are not modelled.
- `int(batch_size / 2)` uses float division. It is modelled as integer division, which agrees for every size a float represents exactly (below 2^53).
- `max_workers` is stored but plays no part sequentially.
- The `print` calls in both files are console output.
- The result dictionary's key order (Python insertion order) is not modelled, since rows are maps.
- Any `Value` other than the strings the mapper writes is carried through unchanged and never inspected.
- BatchWorkExecutor.Execute: its own contract states only the size bound. The other facts about a run are stated on `RunBatches` and in the lemmas, with `Execute` as the instance.
