# Translator import batch engine, in Dafny

This project models the batch engine of the Translator's import side, the
`BaseTranslation` base class. It proves that engine against pure
specification functions.

- `AddRequest` buffers single organisation requests into a bulk request under
  construction. A bulk request that reaches five requests moves to a FIFO
  queue, and a fresh one is started.
- `ExecuteMultiple` enqueues the bulk request under construction, even when it
  is empty. It then submits every queued bulk request in order and updates the
  counters of a `TranslationProgressEventArgs` in place. It fires a Result
  event before each submission and a second one after a submission that did not
  end in the exception handler. It fires one Error Log event per failed
  request, whose text comes from a per-variant message template.

Files and modules:

- `requests.dfy` (`Requests`): the request variants, `LogType`,
  `LogEventArgs` and the message templates (`Lead`, `Message`).
- `batching.dfy` (`Batching`): the accumulator as a pure step `AddStep`, its
  fold `Accumulate`, and lemmas about batch sizes and order.
- `execution.dfy` (`Execution`): the service as an oracle of `Outcome`s, the
  progress snapshot `Progress`, the event stream `Event`, and what one batch
  (`ProcessBatch`) and a whole drain (`Drain`) do to the counters and events.
- `base_translation.dfy` (`Translation`): the classes `BaseTranslation` and
  `TranslationProgressEventArgs`. Their methods change fields in place and are
  proved against the functions above.

Fired events are recorded in the ghost sequence `BaseTranslation.Events`, in
firing order. A `Result` entry holds the counters as the subscriber saw them. A
`Log` entry holds the failed request and the failure detail, and `Event.Args()`
gives the `LogEventArgs` the subscriber received. Every submission is recorded
in the ghost sequence `Submitted`.

The model keeps these behaviours of the code:

- A batch that ends in the exception handler fires Result only once, because
  the second `OnResult` sits inside the `try`.
- On a faulted response, successes grow by the batch size minus the number of
  returned responses, not minus the number of faults.
- Success plus failure does not always equal the number of requests.
  `DrainAccountsForAll` gives a condition under which it does;
  `FaultedBatchAccountsIff` gives the exact condition for a faulted batch whose
  fault indices all lie inside it.
- After `ExecuteMultiple`, the bulk request under construction still holds the
  requests it last submitted. They are pending again, so a later
  `ExecuteMultiple` submits them once more.
- A fault whose `RequestIndex` lies outside the batch makes the indexer throw
  inside the `try`. Control then reaches the `catch`:
  - the fault counts already added stay;
  - the logs already fired stay;
  - the whole batch is added to the failures again;
  - every request is logged with the exception text.

## Model

| member | source | states |
|---|---|---|
| Requests.Lead | MsCrmTools.Translator/AppCode/BaseTranslation.cs:102-143 | the text before the detail is empty exactly for an unrecognised request; every recognised variant's text starts with "Error while updating " |
| Requests.Message | MsCrmTools.Translator/AppCode/BaseTranslation.cs:163-204 | the detail is appended verbatim; the message is the bare detail exactly when the request is unrecognised; otherwise it starts with "Error while updating " |
| Requests.OptionValueTemplate | MsCrmTools.Translator/AppCode/BaseTranslation.cs:122-134 | an option-value update gets the "global optionset (" text exactly when its option-set name is neither null nor empty, and the "option (" text exactly otherwise |
| Batching.AddStepPreservesOrder | MsCrmTools.Translator/AppCode/BaseTranslation.cs:54-67 | one addition appends exactly the new request to the queued requests followed by the batch under construction |
| Batching.AddStepKeepsBatchesFull | MsCrmTools.Translator/AppCode/BaseTranslation.cs:54-67 | queued batches stay exactly full and the batch under construction stays below five; a batch is queued exactly when the new request fills it |
| Batching.AccumulateShape | MsCrmTools.Translator/AppCode/BaseTranslation.cs:40-68 | after any additions from a fresh instance, the queue then the current batch give back the requests in insertion order; every queued batch holds five; there are n/5 of them and n%5 requests remain |
| Batching.FlushedBatches | MsCrmTools.Translator/AppCode/BaseTranslation.cs:74 | after n ≥ 1 additions to a fresh instance, a drain submits n/5 + 1 batches that together give back the requests in order; all but the last are full; the last is empty exactly when n is a multiple of five |
| Execution.FaultsOf | MsCrmTools.Translator/AppCode/BaseTranslation.cs:91 | the faults counted are exactly the responses with a non-null fault: every such response is among them, each of them is such a response, and there are at most as many as responses |
| Execution.FaultsOfCount | MsCrmTools.Translator/AppCode/BaseTranslation.cs:91 | the fault count equals the number of positions whose response has a non-null fault |
| Execution.FaultsOfAll | MsCrmTools.Translator/AppCode/BaseTranslation.cs:91-92 | the fault count equals the response count exactly when every response carries a fault |
| Execution.FaultScanStopsAtThrow | MsCrmTools.Translator/AppCode/BaseTranslation.cs:94-100 | once a fault index has thrown, no later response is looked at |
| Execution.FaultScanLogsEachFault | MsCrmTools.Translator/AppCode/BaseTranslation.cs:94-146 | when every fault points into the batch, the walk does not throw and logs one Error per fault, in response order, for the request at its index with its message |
| Execution.FaultScanThrowsAt | MsCrmTools.Translator/AppCode/BaseTranslation.cs:99-100 | the first fault whose index is outside the batch makes the walk throw, after logging exactly the faults before it |
| Execution.CleanBatch | MsCrmTools.Translator/AppCode/BaseTranslation.cs:149-154 | a clean batch adds its size to the total and to the successes, leaves the failures, sets the sheet name, logs nothing, and fires Result before and after with the right counters |
| Execution.FaultedBatch | MsCrmTools.Translator/AppCode/BaseTranslation.cs:89-146 | a faulted batch with valid indices adds the fault count to the failures and size minus responses to the successes; it fires Result, one Error log per fault in response order, then Result with the final counters |
| Execution.FaultedBatchAccountsIff | MsCrmTools.Translator/AppCode/BaseTranslation.cs:91-92 | for a faulted batch whose fault indices all lie inside it, success plus failure grows by the batch size if and only if every returned response is faulted |
| Execution.ThrownBatch | MsCrmTools.Translator/AppCode/BaseTranslation.cs:156-208 | a submission that throws adds the batch size to the failures and nothing to the successes; it fires Result, then one Error log per request in batch order with the exception text, and no second Result |
| Execution.IndexOutOfRangeBatch | MsCrmTools.Translator/AppCode/BaseTranslation.cs:89-208 | a fault index outside the batch fires Result with the scheduled counters, sets the sheet name, keeps the fault-count updates, adds the batch size to the failures again, keeps the logs of the earlier faults, then logs every request with the exception text |
| Execution.ProcessBatchResults | MsCrmTools.Translator/AppCode/BaseTranslation.cs:84-156 | one batch fires Result once if it ends in the exception handler and twice otherwise |
| Execution.FaultedBatchResults | MsCrmTools.Translator/AppCode/BaseTranslation.cs:89-156 | a faulted batch fires Result twice if all its fault indices are valid and once otherwise |
| Execution.DrainTotalItems | MsCrmTools.Translator/AppCode/BaseTranslation.cs:76-84 | a drain adds the number of requests of all batches to the total and (for at least one batch) leaves the sheet name set to the instance's name |
| Execution.DrainAccountsForAll | MsCrmTools.Translator/AppCode/BaseTranslation.cs:85-158 | when every outcome accounts for each request once (clean, thrown, or all-faulted with valid indices), success plus failure grows by exactly the requests drained |
| Execution.DrainResults | MsCrmTools.Translator/AppCode/BaseTranslation.cs:76-210 | a drain fires Result twice per batch, less one for each batch that ends in the exception handler |
| Translation.TranslationProgressEventArgs.constructor | MsCrmTools.Translator/AppCode/BaseTranslation.cs:244-250 | fresh progress arguments have zero counters and no sheet name |
| Translation.BaseTranslation.constructor | MsCrmTools.Translator/AppCode/BaseTranslation.cs:21-24 | a fresh instance has no queue yet, nothing buffered, and has fired and submitted nothing |
| Translation.BaseTranslation.OnLog | MsCrmTools.Translator/AppCode/BaseTranslation.cs:30-33 | firing Log appends exactly that Log event to the stream |
| Translation.BaseTranslation.OnResult | MsCrmTools.Translator/AppCode/BaseTranslation.cs:35-38 | firing Result appends the counters as they stand now |
| Translation.BaseTranslation.AddRequest | MsCrmTools.Translator/AppCode/BaseTranslation.cs:40-68 | the queue exists afterwards; queue and current batch move by one accumulator step; the pending requests grow by exactly the new one; full batches and a current batch below five are preserved |
| Translation.BaseTranslation.ExecuteMultiple | MsCrmTools.Translator/AppCode/BaseTranslation.cs:70-211 | without a prior addition nothing changes and nothing is submitted or fired; otherwise the queue then the current batch are submitted in order and the queue is left empty; counters and events are those of the drain; every pending request is submitted in order; the total grows by their number; the last batch stays pending |
| Translation.BaseTranslation.DrainQueue | MsCrmTools.Translator/AppCode/BaseTranslation.cs:76-210 | the loop submits every queued batch in FIFO order, empties the queue, and leaves the counters and events of the drain |
| Translation.BaseTranslation.ExecuteBatch | MsCrmTools.Translator/AppCode/BaseTranslation.cs:78-208 | one iteration submits the batch once and leaves the counters and events of processing that batch's outcome |
| Translation.BaseTranslation.ReportFailure | MsCrmTools.Translator/AppCode/BaseTranslation.cs:98-145 | selecting the message for a failed request and firing it appends exactly one Log event for that request and detail |
| Translation.BaseTranslation.LogFaults | MsCrmTools.Translator/AppCode/BaseTranslation.cs:94-147 | the walk over the responses fires the fault walk's logs and reports whether a fault index threw |
| Translation.BaseTranslation.FailBatch | MsCrmTools.Translator/AppCode/BaseTranslation.cs:156-208 | the exception handler adds the batch size to the failures, changes no other counter, and logs every request in batch order with the detail |

## Left out

- The service call `service.Execute` is not modelled. It is a network call into the SDK. `ExecuteMultiple` instead takes one `Outcome` per submission: `Ok`, `Faulted` with the responses, or `Threw` with the rendered exception.
- The settings of the bulk request (continue on error, no responses) are not modelled. They only shape what the service answers, and the service is the oracle.
- Exception rendering (`{ex}`, `ex.ToString()`), Guid formatting and integer formatting are not modelled. Identifiers, values and details are opaque strings.
- The exception text of an out-of-range fault index is an opaque parameter, `indexErrorText`.
- The counters are unbounded integers. The 32-bit wrap-around of `int` would need more than 2^31 requests in one run.
- Subscribers that throw are not modelled. A Result subscriber throwing at line 154 would reach the `catch` and count the batch again. Subscribers are assumed to return normally.
- Requests with null fields are not modelled. A null `Target`, `Attribute` or similar would throw while the message is built. Requests are assumed well-formed.
- Batches are modelled as values. The code enqueues the very object that `latestRequest` still references, so a later `AddRequest` appends to an object that was already submitted. The model records each batch as it was when submitted, which gives the same submissions, but it does not capture the sharing.
- A null `SheetName` in fresh progress arguments is modelled as the empty string.
- The unused `list` copy (line 75), the unused `forceUpdate` parameter and the commented-out `InitMultipleRequest` are dead code and are not modelled.
- The `OnLog`/`OnResult` delegate plumbing is reduced to appends to the event stream.
- OnLog: accepts only the Error-severity arguments of a failed request, given as the request and the detail, whereas the public `OnLog` takes any `LogEventArgs`, Info and Warning included. Every call inside the engine passes such arguments, so the engine's behaviour is unaffected.
- `TranslationResultEventArgs` and the parameterless `LogEventArgs` constructor are not used by the engine.
- MsCrmTools.Translator/MainControl.Designer.cs is not part of this model. It is generated UI layout.
