/**
 The batch engine itself: the translation base class, which buffers label
 updates into bulk requests of at most five and drains them against the
 service, updating the progress event arguments in place and firing Result
 and Log events.
 */
module Translation {
  import opened Requests
  import opened Batching
  import opened Execution

  /** The progress event arguments: one instance per import run, updated in
      place after every batch. */
  class TranslationProgressEventArgs {
    var FailureCount: int
    var SheetName: string
    var SuccessCount: int
    var TotalItems: int

    constructor ()
      ensures Snapshot() == Progress(0, "", 0, 0)
    {
      FailureCount, SheetName, SuccessCount, TotalItems := 0, "", 0, 0;
    }

    /** The values a Result subscriber reads at this moment. */
    function Snapshot(): Progress
      reads this
    {
      Progress(FailureCount, SheetName, SuccessCount, TotalItems)
    }
  }

  class BaseTranslation {
    /** The sheet name written into the progress before every submission. */
    var name: string
    /** False while the queue is still null, i.e. before the first request. */
    var queueCreated: bool
    /** Full bulk requests waiting for submission, oldest first. */
    var requestsQueue: seq<seq<Request>>
    /** The bulk request under construction (a null one behaves as empty). */
    var latestRequest: seq<Request>

    /** Every Result and Log event fired, in firing order. */
    ghost var Events: seq<Event>
    /** Every bulk request handed to the service, in submission order. */
    ghost var Submitted: seq<seq<Request>>

    ghost predicate Valid()
      reads this
    {
      && (!queueCreated ==> requestsQueue == [] && latestRequest == [])
      && FullBatches(requestsQueue)
      && |latestRequest| < MaxRequests
    }

    /** The requests buffered and not yet submitted, in insertion order. */
    ghost function Pending(): seq<Request>
      reads this
    {
      Flatten(requestsQueue) + latestRequest
    }

    constructor (name: string)
      ensures Valid() && !queueCreated && this.name == name
      ensures Events == [] && Submitted == []
    {
      this.name := name;
      queueCreated := false;
      requestsQueue := [];
      latestRequest := [];
      Events := [];
      Submitted := [];
    }

    /** Fires Log with `args`, which describe `failed` failing with
        `detail`. */
    method OnLog(args: LogEventArgs, ghost failed: Request, ghost detail: string)
      requires args == Log(failed, detail).Args()
      modifies this`Events
      ensures Events == old(Events) + [Log(failed, detail)]
    {
      Events := Events + [Log(failed, detail)];
    }

    method OnResult(e: TranslationProgressEventArgs)
      modifies this`Events
      ensures Events == old(Events) + [Result(e.Snapshot())]
    {
      Events := Events + [Result(e.Snapshot())];
    }

    /** Buffers `r`; a bulk request that reaches the maximum is queued and a
        fresh one started. */
    method AddRequest(r: Request)
      requires Valid()
      modifies this`queueCreated, this`requestsQueue, this`latestRequest
      ensures Valid() && queueCreated
      ensures (requestsQueue, latestRequest) == AddStep(old(requestsQueue), old(latestRequest), r)
      ensures Pending() == old(Pending()) + [r]
    {
      AddStepPreservesOrder(requestsQueue, latestRequest, r);
      AddStepKeepsBatchesFull(requestsQueue, latestRequest, r);
      if !queueCreated {
        queueCreated := true;
        requestsQueue := [];
      }
      latestRequest := latestRequest + [r];
      if |latestRequest| >= MaxRequests {
        requestsQueue := requestsQueue + [latestRequest];
        latestRequest := [];
      }
    }

    /** Submits every queued bulk request and then the one under construction
        (even when it is empty), the i-th answered by `service[i]`. Without a
        prior `AddRequest` nothing happens. `latestRequest` is left holding the
        requests it last submitted, so they are pending again afterwards. */
    method ExecuteMultiple(service: seq<Outcome>, indexErrorText: string, e: TranslationProgressEventArgs)
      requires Valid()
      requires queueCreated ==> |service| == |requestsQueue| + 1
      modifies this`requestsQueue, this`Events, this`Submitted, e
      ensures Valid()
      ensures !old(queueCreated) ==>
        && requestsQueue == old(requestsQueue)
        && Events == old(Events) && Submitted == old(Submitted)
        && e.Snapshot() == old(e.Snapshot())
      ensures old(queueCreated) ==>
        var batches := old(requestsQueue) + [latestRequest];
        && requestsQueue == []
        && Submitted == old(Submitted) + batches
        && var (after, events) := Drain(old(e.Snapshot()), name, batches, service, indexErrorText);
           e.Snapshot() == after && Events == old(Events) + events
      ensures old(queueCreated) ==>
        && Flatten(Submitted[|old(Submitted)|..]) == old(Pending())
        && e.TotalItems == old(e.TotalItems) + |old(Pending())|
        && e.SheetName == name
        && Pending() == old(latestRequest)
    {
      if !queueCreated {
        return;
      }
      ghost var pending := Pending();
      ghost var start := e.Snapshot();
      FlattenAppend(requestsQueue, latestRequest);
      requestsQueue := requestsQueue + [latestRequest];
      ghost var batches := requestsQueue;
      DrainTotalItems(start, name, batches, service, indexErrorText);
      DrainQueue(service, indexErrorText, e);
      assert Submitted[|old(Submitted)|..] == batches;
    }

    /** The drain loop: dequeue and submit until the queue is empty. */
    method DrainQueue(service: seq<Outcome>, indexErrorText: string, e: TranslationProgressEventArgs)
      requires |service| == |requestsQueue|
      modifies this`requestsQueue, this`Events, this`Submitted, e
      ensures requestsQueue == []
      ensures Submitted == old(Submitted) + old(requestsQueue)
      ensures e.Snapshot() == Drain(old(e.Snapshot()), name, old(requestsQueue), service, indexErrorText).0
      ensures Events == old(Events) + Drain(old(e.Snapshot()), name, old(requestsQueue), service, indexErrorText).1
    {
      ghost var batches := requestsQueue;
      ghost var start := e.Snapshot();
      ghost var events0 := Events;
      ghost var drained: (Progress, seq<Event>) := (start, []);
      var k := 0;
      while |requestsQueue| > 0
        invariant 0 <= k <= |batches| && requestsQueue == batches[k..]
        invariant Submitted == old(Submitted) + batches[..k]
        invariant drained == Drain(start, name, batches[..k], service[..k], indexErrorText)
        invariant e.Snapshot() == drained.0 && Events == events0 + drained.1
        decreases |requestsQueue|
      {
        var request := requestsQueue[0];
        requestsQueue := requestsQueue[1..];
        DrainStep(start, name, batches, service, indexErrorText, k, drained);
        ghost var step := ProcessBatch(drained.0, name, request, service[k], indexErrorText);
        ExecuteBatch(request, service[k], indexErrorText, e);
        AppendAssoc(events0, drained.1, step.1);
        drained := (step.0, drained.1 + step.1);
        assert batches[..k + 1] == batches[..k] + [request];
        k := k + 1;
      }
      assert batches[..k] == batches;
      assert service[..k] == service;
    }

    /** Selects the message for `failed` and fires it as an Error log. */
    method ReportFailure(failed: Request, detail: string)
      modifies this`Events
      ensures Events == old(Events) + [Log(failed, detail)]
    {
      var message := Message(failed, detail);
      OnLog(LogEventArgs(message, Error), failed, detail);
    }

    /** One pass of the drain loop: schedule `request`, submit it, and account
        for the outcome. */
    method ExecuteBatch(request: seq<Request>, outcome: Outcome, indexErrorText: string,
                        e: TranslationProgressEventArgs)
      modifies this`Events, this`Submitted, e
      ensures Submitted == old(Submitted) + [request]
      ensures e.Snapshot() == ProcessBatch(old(e.Snapshot()), name, request, outcome, indexErrorText).0
      ensures Events == old(Events) + ProcessBatch(old(e.Snapshot()), name, request, outcome, indexErrorText).1
    {
      ghost var start := e.Snapshot();
      ghost var events0 := Events;
      e.SheetName := name;
      e.TotalItems := e.TotalItems + |request|;
      ghost var scheduled := e.Snapshot();
      assert scheduled == Scheduled(start, name, request);
      OnResult(e);
      Submitted := Submitted + [request];
      match outcome
      case Ok =>
        e.SuccessCount := e.SuccessCount + |request|;
        OnResult(e);
        ProcessOk(start, name, request, indexErrorText);
        AppendAssoc(events0, [Result(scheduled)], [Result(e.Snapshot())]);
      case Threw(detail) =>
        FailBatch(request, detail, e);
        ProcessThrew(start, name, request, detail, indexErrorText);
        AppendAssoc(events0, [Result(scheduled)], ExceptionLogs(request, detail));
      case Faulted(responses) =>
        e.FailureCount := e.FailureCount + |FaultsOf(responses)|;
        e.SuccessCount := e.SuccessCount + |request| - |responses|;
        var thrown := LogFaults(request, responses);
        ghost var logs := FaultScan(request, responses).0;
        AppendAssoc(events0, [Result(scheduled)], logs);
        if thrown {
          FailBatch(request, indexErrorText, e);
          ProcessFaultedThrown(start, name, request, responses, indexErrorText);
          AppendAssoc(events0, [Result(scheduled)] + logs, ExceptionLogs(request, indexErrorText));
        } else {
          OnResult(e);
          ProcessFaultedComplete(start, name, request, responses, indexErrorText);
          AppendAssoc(events0, [Result(scheduled)] + logs, [Result(e.Snapshot())]);
        }
    }

    /** The walk over a faulted response: one Error log per fault, stopping
        (and reporting it) at the first fault whose index lies outside the
        batch. */
    method LogFaults(request: seq<Request>, responses: seq<Response>) returns (thrown: bool)
      modifies this`Events
      ensures Events == old(Events) + FaultScan(request, responses).0
      ensures thrown == FaultScan(request, responses).1
    {
      ghost var events0 := Events;
      ghost var logs: seq<Event> := [];
      thrown := false;
      var i := 0;
      assert responses[..0] == [];
      while i < |responses| && !thrown
        invariant 0 <= i <= |responses|
        invariant (logs, thrown) == FaultScan(request, responses[..i])
        invariant Events == events0 + logs
      {
        var response := responses[i];
        if response.fault.Some? {
          var faultIndex := response.requestIndex;
          if 0 <= faultIndex < |request| {
            var faultRequest := request[faultIndex];
            ReportFailure(faultRequest, response.fault.value);
            FaultScanLogs(request, responses, i);
            AppendAssoc(events0, logs, [Log(faultRequest, response.fault.value)]);
            logs := logs + [Log(faultRequest, response.fault.value)];
          } else {
            thrown := true;
            FaultScanThrows(request, responses, i);
          }
        } else {
          FaultScanSkipsNull(request, responses, i);
        }
        i := i + 1;
      }
      if thrown {
        FaultScanStopsAtThrow(request, responses, i);
      } else {
        assert responses[..i] == responses;
      }
    }

    /** The exception handler: the whole batch counts as failed and every
        request is logged with the exception's text. */
    method FailBatch(request: seq<Request>, detail: string, e: TranslationProgressEventArgs)
      modifies this`Events, e
      ensures e.Snapshot() == old(e.Snapshot()).(failureCount := old(e.FailureCount) + |request|)
      ensures Events == old(Events) + ExceptionLogs(request, detail)
    {
      e.FailureCount := e.FailureCount + |request|;
      ghost var failed := e.Snapshot();
      ghost var events0 := Events;
      assert request[..0] == [];
      for i := 0 to |request|
        invariant e.Snapshot() == failed
        invariant Events == events0 + ExceptionLogs(request[..i], detail)
      {
        ReportFailure(request[i], detail);
        ExceptionLogsStep(request, detail, i);
        AppendAssoc(events0, ExceptionLogs(request[..i], detail), [Log(request[i], detail)]);
      }
      assert request[..|request|] == request;
    }
  }
}
