/**
 What submitting one batch, and draining a whole queue of batches, does to the
 progress counters and to the stream of Result and Log events. The remote
 service is an oracle: for each submission it answers `Ok`, reports per-request
 faults, or throws.
 */
module Execution {
  import opened Requests
  import opened Batching

  /** One entry of a faulted bulk response: the position of the request in the
      submitted batch and the fault's message, `None` when the fault is null. */
  datatype Response = Response(requestIndex: int, fault: Option<string>)

  /** What the service does with one submitted batch. `Threw` carries the
      rendered exception. */
  datatype Outcome = Ok | Faulted(responses: seq<Response>) | Threw(detail: string)

  /** The values of the progress event arguments at one moment. */
  datatype Progress = Progress(failureCount: int, sheetName: string, successCount: int, totalItems: int)

  /** An event fired by the engine: a Result event carrying the progress as it
      was when fired, or a Log event for a request that failed with `detail`.
      Every Log the engine fires is an Error; `Args` is what its subscriber
      receives. */
  datatype Event = Result(progress: Progress) | Log(failed: Request, detail: string)
  {
    function Args(): (args: LogEventArgs)
      requires Log?
      ensures args.logType == Error
      ensures args.message == Message(failed, detail)
    {
      LogEventArgs(Message(failed, detail), Error)
    }
  }

  /** The positions in `rs` of the responses whose fault is non-null. */
  function FaultPositions(rs: seq<Response>): set<nat>
  {
    set i: nat | i < |rs| && rs[i].fault.Some?
  }

  /** The responses whose fault is non-null, in response order: every one of
      them and nothing else. */
  function FaultsOf(rs: seq<Response>): (faults: seq<Response>)
    ensures |faults| <= |rs|
    ensures forall f :: f in faults ==> f in rs && f.fault.Some?
    ensures forall i :: 0 <= i < |rs| && rs[i].fault.Some? ==> rs[i] in faults
  {
    if rs == [] then []
    else
      var n := |rs| - 1;
      assert forall i :: 0 <= i < n ==> rs[..n][i] == rs[i];
      FaultsOf(rs[..n]) + (if rs[n].fault.Some? then [rs[n]] else [])
  }

  /** The fault count is the number of positions whose fault is non-null. */
  lemma {:induction false} FaultsOfCount(rs: seq<Response>)
    ensures |FaultsOf(rs)| == |FaultPositions(rs)|
  {
    if rs != [] {
      var n := |rs| - 1;
      FaultsOfCount(rs[..n]);
      FaultPositionsStep(rs);
    }
  }

  /** Every non-null fault points at a request of the batch. */
  predicate ValidFaultIndices(batch: seq<Request>, rs: seq<Response>)
  {
    forall i :: 0 <= i < |rs| && rs[i].fault.Some? ==> 0 <= rs[i].requestIndex < |batch|
  }

  /** The Log events of the walk over a faulted response, and whether the walk
      was cut short by a fault whose index lies outside the batch (looking that
      request up throws). */
  function FaultScan(batch: seq<Request>, rs: seq<Response>): (seq<Event>, bool)
  {
    if rs == [] then ([], false)
    else
      var (logs, threw) := FaultScan(batch, rs[..|rs| - 1]);
      var last := rs[|rs| - 1];
      if threw || last.fault.None? then (logs, threw)
      else if 0 <= last.requestIndex < |batch| then
        (logs + [Log(batch[last.requestIndex], last.fault.value)], false)
      else (logs, true)
  }

  /** One Error log per request of the batch, in batch order, all with the
      same detail. */
  function ExceptionLogs(batch: seq<Request>, detail: string): seq<Event>
  {
    seq(|batch|, i requires 0 <= i < |batch| => Log(batch[i], detail))
  }

  /** Whether a batch with this outcome ends up in the exception handler. */
  predicate Catches(batch: seq<Request>, outcome: Outcome)
  {
    outcome.Threw? || (outcome.Faulted? && !ValidFaultIndices(batch, outcome.responses))
  }

  /** The progress fired before `batch` is submitted: the sheet name is set and
      the batch's requests are added to the total. */
  function Scheduled(p: Progress, name: string, batch: seq<Request>): Progress
  {
    p.(sheetName := name, totalItems := p.totalItems + |batch|)
  }

  /** The progress after submitting `batch` under the sheet `name`, and the
      events fired meanwhile. `indexErrorText` is the rendered exception of a
      fault index outside the batch. */
  function ProcessBatch(p: Progress, name: string, batch: seq<Request>, outcome: Outcome,
                        indexErrorText: string): (Progress, seq<Event>)
  {
    var scheduled := Scheduled(p, name, batch);
    match outcome
    case Ok =>
      var done := scheduled.(successCount := scheduled.successCount + |batch|);
      (done, [Result(scheduled), Result(done)])
    case Faulted(rs) =>
      var counted := scheduled.(failureCount := scheduled.failureCount + |FaultsOf(rs)|,
                                successCount := scheduled.successCount + |batch| - |rs|);
      var scan := FaultScan(batch, rs);
      if !scan.1 then
        (counted, [Result(scheduled)] + scan.0 + [Result(counted)])
      else
        (counted.(failureCount := counted.failureCount + |batch|),
         [Result(scheduled)] + scan.0 + ExceptionLogs(batch, indexErrorText))
    case Threw(detail) =>
      (scheduled.(failureCount := scheduled.failureCount + |batch|),
       [Result(scheduled)] + ExceptionLogs(batch, detail))
  }

  /** The progress and events after submitting `batches` in order, the i-th
      answered by `outcomes[i]`. */
  function Drain(p: Progress, name: string, batches: seq<seq<Request>>, outcomes: seq<Outcome>,
                 indexErrorText: string): (Progress, seq<Event>)
    requires |outcomes| == |batches|
  {
    if batches == [] then (p, [])
    else
      var n := |batches| - 1;
      var (before, events) := Drain(p, name, batches[..n], outcomes[..n], indexErrorText);
      var (after, more) := ProcessBatch(before, name, batches[n], outcomes[n], indexErrorText);
      (after, events + more)
  }

  // ----- counting helpers -----

  function ResultCount(events: seq<Event>): nat
  {
    if events == [] then 0
    else ResultCount(events[..|events| - 1]) + (if events[|events| - 1].Result? then 1 else 0)
  }

  function CatchCount(batches: seq<seq<Request>>, outcomes: seq<Outcome>): nat
    requires |outcomes| == |batches|
  {
    if batches == [] then 0
    else
      var n := |batches| - 1;
      CatchCount(batches[..n], outcomes[..n]) + (if Catches(batches[n], outcomes[n]) then 1 else 0)
  }

  /** A batch whose outcome accounts for every request exactly once: a clean
      success, an exception, or a fault report in which every response is a
      fault at a valid index. */
  predicate AccountsForAll(batch: seq<Request>, outcome: Outcome)
  {
    match outcome
    case Ok => true
    case Threw(_) => true
    case Faulted(rs) => ValidFaultIndices(batch, rs) && |FaultsOf(rs)| == |rs|
  }

  /** One Log event per fault, in response order, each an Error for the
      request at that fault's index with that fault's message. */
  ghost predicate LogsFaults(batch: seq<Request>, faults: seq<Response>, logs: seq<Event>)
  {
    && |logs| == |faults|
    && forall j :: 0 <= j < |faults| ==>
         && faults[j].fault.Some?
         && 0 <= faults[j].requestIndex < |batch|
         && logs[j] == Log(batch[faults[j].requestIndex], faults[j].fault.value)
  }

  // ----- lemmas -----

  lemma {:induction false} ResultCountAppend(a: seq<Event>, b: seq<Event>)
    ensures ResultCount(a + b) == ResultCount(a) + ResultCount(b)
    decreases |b|
  {
    if b == [] {
      assert a + b == a;
    } else {
      var n := |b| - 1;
      assert (a + b)[..|a + b| - 1] == a + b[..n];
      ResultCountAppend(a, b[..n]);
    }
  }

  lemma {:induction false} NoResults(events: seq<Event>)
    requires forall i :: 0 <= i < |events| ==> events[i].Log?
    ensures ResultCount(events) == 0
  {
    if events != [] {
      NoResults(events[..|events| - 1]);
    }
  }

  lemma {:induction false} FaultScanOnlyLogs(batch: seq<Request>, rs: seq<Response>)
    ensures forall i :: 0 <= i < |FaultScan(batch, rs).0| ==> FaultScan(batch, rs).0[i].Log?
  {
    if rs != [] {
      FaultScanOnlyLogs(batch, rs[..|rs| - 1]);
    }
  }

  /** A fault count never exceeds the response count, and equals it exactly
      when every response carries a fault. */
  lemma FaultsOfAll(rs: seq<Response>)
    ensures |FaultsOf(rs)| == |rs| <==> forall i :: 0 <= i < |rs| ==> rs[i].fault.Some?
  {
    if forall i :: 0 <= i < |rs| ==> rs[i].fault.Some? {
      FaultsOfComplete(rs);
    } else {
      var i :| 0 <= i < |rs| && rs[i].fault.None?;
      FaultsOfDropsNull(rs, i);
    }
  }

  lemma {:induction false} FaultsOfComplete(rs: seq<Response>)
    requires forall i :: 0 <= i < |rs| ==> rs[i].fault.Some?
    ensures |FaultsOf(rs)| == |rs|
  {
    if rs != [] {
      var n := |rs| - 1;
      assert forall i :: 0 <= i < n ==> rs[..n][i] == rs[i];
      FaultsOfComplete(rs[..n]);
      assert FaultsOf(rs) == FaultsOf(rs[..n]) + [rs[n]];
    }
  }

  lemma {:induction false} FaultsOfDropsNull(rs: seq<Response>, i: nat)
    requires i < |rs| && rs[i].fault.None?
    ensures |FaultsOf(rs)| < |rs|
  {
    var n := |rs| - 1;
    if i == n {
      assert |FaultsOf(rs)| == |FaultsOf(rs[..n])| <= n;
    } else {
      assert rs[..n][i] == rs[i];
      FaultsOfDropsNull(rs[..n], i);
    }
  }

  /** Once the walk over a faulted response has thrown, the rest of the
      responses are never looked at. */
  lemma {:induction false} FaultScanStopsAtThrow(batch: seq<Request>, rs: seq<Response>, k: nat)
    requires k <= |rs| && FaultScan(batch, rs[..k]).1
    ensures FaultScan(batch, rs) == FaultScan(batch, rs[..k])
    decreases |rs| - k
  {
    if k == |rs| {
      assert rs[..k] == rs;
    } else {
      var n := |rs| - 1;
      assert rs[..n][..k] == rs[..k];
      FaultScanStopsAtThrow(batch, rs[..n], k);
      FaultScanThrownStep(batch, rs);
    }
  }

  lemma FaultScanThrownStep(batch: seq<Request>, rs: seq<Response>)
    requires rs != [] && FaultScan(batch, rs[..|rs| - 1]).1
    ensures FaultScan(batch, rs) == FaultScan(batch, rs[..|rs| - 1])
  {
  }

  /** When every fault points into the batch, the walk does not throw and
      logs exactly one Error per fault, in response order, for the request at
      the fault's index. */
  lemma {:induction false} FaultScanLogsEachFault(batch: seq<Request>, rs: seq<Response>)
    requires ValidFaultIndices(batch, rs)
    ensures !FaultScan(batch, rs).1
    ensures LogsFaults(batch, FaultsOf(rs), FaultScan(batch, rs).0)
  {
    if rs != [] {
      var n := |rs| - 1;
      assert ValidFaultIndices(batch, rs[..n]) by {
        forall i | 0 <= i < n && rs[..n][i].fault.Some?
          ensures 0 <= rs[..n][i].requestIndex < |batch|
        {
          assert rs[..n][i] == rs[i];
        }
      }
      FaultScanLogsEachFault(batch, rs[..n]);
    }
  }

  /** A fault whose index lies outside the batch, preceded only by faults
      inside it, cuts the walk short: the faults before it are logged and the
      rest are not. */
  lemma FaultScanThrowsAt(batch: seq<Request>, rs: seq<Response>, k: nat)
    requires k < |rs| && rs[k].fault.Some? && !(0 <= rs[k].requestIndex < |batch|)
    requires ValidFaultIndices(batch, rs[..k])
    ensures FaultScan(batch, rs).1
    ensures LogsFaults(batch, FaultsOf(rs[..k]), FaultScan(batch, rs).0)
  {
    FaultScanLogsEachFault(batch, rs[..k]);
    assert rs[..k + 1][..k] == rs[..k];
    FaultScanStopsAtThrow(batch, rs, k + 1);
  }

  /** A batch the service accepts without faults: it is scheduled, counted
      wholly as success, logs nothing and fires Result twice. */
  lemma CleanBatch(p: Progress, name: string, batch: seq<Request>, t: string)
    ensures var (after, events) := ProcessBatch(p, name, batch, Ok, t);
      && after.totalItems == p.totalItems + |batch|
      && after.successCount == p.successCount + |batch|
      && after.failureCount == p.failureCount
      && after.sheetName == name
      && |events| == 2 && events[0].Result? && events[1] == Result(after)
      && events[0].progress == after.(successCount := p.successCount)
  {
  }

  /** A faulted batch whose faults all point into it: failures grow by the
      number of faults, successes by the batch size less the number of
      responses, one Error log per fault in response order, then the second
      Result. */
  lemma FaultedBatch(p: Progress, name: string, batch: seq<Request>, rs: seq<Response>, t: string)
    requires ValidFaultIndices(batch, rs)
    ensures var (after, events) := ProcessBatch(p, name, batch, Faulted(rs), t);
      && after.totalItems == p.totalItems + |batch|
      && after.failureCount == p.failureCount + |FaultsOf(rs)|
      && after.successCount == p.successCount + |batch| - |rs|
      && after.sheetName == name
      && |events| == |FaultsOf(rs)| + 2
      && events[0] == Result(p.(sheetName := name, totalItems := p.totalItems + |batch|))
      && events[|events| - 1] == Result(after)
      && LogsFaults(batch, FaultsOf(rs), events[1..|events| - 1])
  {
    FaultScanLogsEachFault(batch, rs);
    var (after, events) := ProcessBatch(p, name, batch, Faulted(rs), t);
    assert events[1..|events| - 1] == FaultScan(batch, rs).0;
  }

  /** Success plus failure grows by the batch size for a faulted batch exactly
      when every returned response carries a fault. */
  lemma FaultedBatchAccountsIff(p: Progress, name: string, batch: seq<Request>, rs: seq<Response>, t: string)
    requires ValidFaultIndices(batch, rs)
    ensures var after := ProcessBatch(p, name, batch, Faulted(rs), t).0;
      (after.successCount + after.failureCount == p.successCount + p.failureCount + |batch|)
      <==> (forall i :: 0 <= i < |rs| ==> rs[i].fault.Some?)
  {
    FaultScanLogsEachFault(batch, rs);
    FaultsOfAll(rs);
  }

  /** A batch whose submission throws: every request counts as a failure,
      successes are unchanged, one Error log per request in batch order with
      the exception's text, and no second Result. */
  lemma ThrownBatch(p: Progress, name: string, batch: seq<Request>, detail: string, t: string)
    ensures var (after, events) := ProcessBatch(p, name, batch, Threw(detail), t);
      && after.totalItems == p.totalItems + |batch|
      && after.failureCount == p.failureCount + |batch|
      && after.successCount == p.successCount
      && after.sheetName == name
      && |events| == |batch| + 1
      && events[0] == Result(p.(sheetName := name, totalItems := p.totalItems + |batch|))
      && (forall i :: 0 <= i < |batch| ==> events[i + 1] == Log(batch[i], detail))
  {
  }

  /** A faulted batch with a fault index outside it: the counters have already
      moved by the fault report when the lookup throws, and the exception
      handler then adds the whole batch to the failures again and logs every
      request with the exception's text; no second Result. */
  lemma IndexOutOfRangeBatch(p: Progress, name: string, batch: seq<Request>, rs: seq<Response>, k: nat, t: string)
    requires k < |rs| && rs[k].fault.Some? && !(0 <= rs[k].requestIndex < |batch|)
    requires ValidFaultIndices(batch, rs[..k])
    ensures var (after, events) := ProcessBatch(p, name, batch, Faulted(rs), t);
      && after.totalItems == p.totalItems + |batch|
      && after.failureCount == p.failureCount + |FaultsOf(rs)| + |batch|
      && after.successCount == p.successCount + |batch| - |rs|
      && after.sheetName == name
      && |events| == 1 + |FaultsOf(rs[..k])| + |batch|
      && events[0] == Result(p.(sheetName := name, totalItems := p.totalItems + |batch|))
      && LogsFaults(batch, FaultsOf(rs[..k]), events[1..1 + |FaultsOf(rs[..k])|])
      && events[1 + |FaultsOf(rs[..k])|..] == ExceptionLogs(batch, t)
  {
    FaultScanThrowsAt(batch, rs, k);
  }

  /** Submitting a batch fires Result once when it ends in the exception
      handler and twice otherwise. */
  lemma ProcessBatchResults(p: Progress, name: string, batch: seq<Request>, outcome: Outcome, t: string)
    ensures ResultCount(ProcessBatch(p, name, batch, outcome, t).1) == if Catches(batch, outcome) then 1 else 2
  {
    var scheduled := p.(sheetName := name, totalItems := p.totalItems + |batch|);
    ResultCountSingle(Result(scheduled));
    match outcome
    case Ok =>
      var done := ProcessBatch(p, name, batch, outcome, t).0;
      ResultCountSingle(Result(done));
      ResultCountAppend([Result(scheduled)], [Result(done)]);
    case Threw(detail) =>
      ResultsBeforeLogs(Result(scheduled), ExceptionLogs(batch, detail));
    case Faulted(rs) =>
      FaultedBatchResults(p, name, batch, rs, t);
  }

  lemma ResultsBeforeLogs(first: Event, logs: seq<Event>)
    requires first.Result?
    requires forall i :: 0 <= i < |logs| ==> logs[i].Log?
    ensures ResultCount([first] + logs) == 1
  {
    ResultCountSingle(first);
    NoResults(logs);
    ResultCountAppend([first], logs);
  }

  lemma FaultedBatchResults(p: Progress, name: string, batch: seq<Request>, rs: seq<Response>, t: string)
    ensures ResultCount(ProcessBatch(p, name, batch, Faulted(rs), t).1)
            == if ValidFaultIndices(batch, rs) then 2 else 1
  {
    if ValidFaultIndices(batch, rs) {
      ValidFaultedBatchResults(p, name, batch, rs, t);
    } else {
      var k :| 0 <= k < |rs| && rs[k].fault.Some? && !(0 <= rs[k].requestIndex < |batch|);
      FirstBadFault(batch, rs, k);
      ThrowingFaultedBatchResults(p, name, batch, rs, t);
    }
  }

  lemma ValidFaultedBatchResults(p: Progress, name: string, batch: seq<Request>, rs: seq<Response>, t: string)
    requires ValidFaultIndices(batch, rs)
    ensures ResultCount(ProcessBatch(p, name, batch, Faulted(rs), t).1) == 2
  {
    var scheduled := p.(sheetName := name, totalItems := p.totalItems + |batch|);
    var logs := FaultScan(batch, rs).0;
    FaultScanOnlyLogs(batch, rs);
    FaultScanLogsEachFault(batch, rs);
    var after := ProcessBatch(p, name, batch, Faulted(rs), t).0;
    ProcessFaultedComplete(p, name, batch, rs, t);
    ResultsAroundLogs(Result(scheduled), logs, Result(after));
  }

  lemma ThrowingFaultedBatchResults(p: Progress, name: string, batch: seq<Request>, rs: seq<Response>, t: string)
    requires FaultScan(batch, rs).1
    ensures ResultCount(ProcessBatch(p, name, batch, Faulted(rs), t).1) == 1
  {
    var scheduled := p.(sheetName := name, totalItems := p.totalItems + |batch|);
    var logs := FaultScan(batch, rs).0;
    FaultScanOnlyLogs(batch, rs);
    ProcessFaultedThrown(p, name, batch, rs, t);
    ResultBeforeTwoLogRuns(Result(scheduled), logs, ExceptionLogs(batch, t));
  }

  lemma ResultsAroundLogs(first: Event, logs: seq<Event>, last: Event)
    requires first.Result? && last.Result?
    requires forall i :: 0 <= i < |logs| ==> logs[i].Log?
    ensures ResultCount([first] + logs + [last]) == 2
  {
    ResultsBeforeLogs(first, logs);
    ResultCountSingle(last);
    ResultCountAppend([first] + logs, [last]);
  }

  lemma ResultBeforeTwoLogRuns(first: Event, logs: seq<Event>, more: seq<Event>)
    requires first.Result?
    requires forall i :: 0 <= i < |logs| ==> logs[i].Log?
    requires forall i :: 0 <= i < |more| ==> more[i].Log?
    ensures ResultCount([first] + logs + more) == 1
  {
    ResultsBeforeLogs(first, logs);
    NoResults(more);
    ResultCountAppend([first] + logs, more);
  }

  /** A response with some fault outside the batch has a first such fault, and
      the walk throws there. */
  lemma {:induction false} FirstBadFault(batch: seq<Request>, rs: seq<Response>, k: nat)
    requires k < |rs| && rs[k].fault.Some? && !(0 <= rs[k].requestIndex < |batch|)
    ensures FaultScan(batch, rs).1
    decreases k
  {
    if ValidFaultIndices(batch, rs[..k]) {
      FaultScanThrowsAt(batch, rs, k);
    } else {
      var j :| 0 <= j < k && rs[..k][j].fault.Some? && !(0 <= rs[..k][j].requestIndex < |batch|);
      assert rs[..k][j] == rs[j];
      FirstBadFault(batch, rs, j);
    }
  }

  /** Draining a queue schedules every request: the total grows by the number
      of requests in all batches, and the sheet name is set by any batch. */
  lemma {:induction false} DrainTotalItems(p: Progress, name: string, batches: seq<seq<Request>>,
                                           outcomes: seq<Outcome>, t: string)
    requires |outcomes| == |batches|
    ensures var after := Drain(p, name, batches, outcomes, t).0;
      && after.totalItems == p.totalItems + |Flatten(batches)|
      && after.sheetName == (if batches == [] then p.sheetName else name)
  {
    if batches != [] {
      var n := |batches| - 1;
      DrainTotalItems(p, name, batches[..n], outcomes[..n], t);
    }
  }

  /** When every outcome accounts for each of its requests exactly once,
      success plus failure grows by exactly the number of requests drained. */
  lemma {:induction false} DrainAccountsForAll(p: Progress, name: string, batches: seq<seq<Request>>,
                                               outcomes: seq<Outcome>, t: string)
    requires |outcomes| == |batches|
    requires forall i :: 0 <= i < |batches| ==> AccountsForAll(batches[i], outcomes[i])
    ensures var after := Drain(p, name, batches, outcomes, t).0;
      after.successCount + after.failureCount == p.successCount + p.failureCount + |Flatten(batches)|
  {
    if batches != [] {
      var n := |batches| - 1;
      assert forall i :: 0 <= i < n ==> batches[..n][i] == batches[i] && outcomes[..n][i] == outcomes[i];
      DrainAccountsForAll(p, name, batches[..n], outcomes[..n], t);
      var before := Drain(p, name, batches[..n], outcomes[..n], t).0;
      assert AccountsForAll(batches[n], outcomes[n]);
      match outcomes[n]
      case Ok =>
      case Threw(_) =>
      case Faulted(rs) =>
        FaultedBatchAccountsIff(before, name, batches[n], rs, t);
        FaultsOfAll(rs);
    }
  }

  /** Result fires twice for every drained batch, less one for each batch that
      ends in the exception handler. */
  lemma {:induction false} DrainResults(p: Progress, name: string, batches: seq<seq<Request>>,
                                        outcomes: seq<Outcome>, t: string)
    requires |outcomes| == |batches|
    ensures ResultCount(Drain(p, name, batches, outcomes, t).1) == 2 * |batches| - CatchCount(batches, outcomes)
  {
    if batches != [] {
      var n := |batches| - 1;
      DrainResults(p, name, batches[..n], outcomes[..n], t);
      var (before, events) := Drain(p, name, batches[..n], outcomes[..n], t);
      ProcessBatchResults(before, name, batches[n], outcomes[n], t);
      ResultCountAppend(events, ProcessBatch(before, name, batches[n], outcomes[n], t).1);
    }
  }

  // ----- proof helpers -----
  // One-step unfoldings and sequence facts that keep the loop proofs in
  // Translation small. They state no property of the engine of their own.

  /** The positions of `rs` grow by the last one exactly when it is faulted. */
  lemma FaultPositionsStep(rs: seq<Response>)
    requires rs != []
    ensures var n := |rs| - 1;
      && n !in FaultPositions(rs[..n])
      && FaultPositions(rs) == FaultPositions(rs[..n]) + (if rs[n].fault.Some? then {n} else {})
  {
    var n := |rs| - 1;
    assert forall i :: 0 <= i < n ==> rs[..n][i] == rs[i];
  }


  /** Draining one more batch is submitting it after the ones before. */
  lemma DrainStep(p: Progress, name: string, batches: seq<seq<Request>>, outcomes: seq<Outcome>,
                  t: string, k: nat, drained: (Progress, seq<Event>))
    requires |outcomes| == |batches| && k < |batches|
    requires drained == Drain(p, name, batches[..k], outcomes[..k], t)
    ensures Drain(p, name, batches[..k + 1], outcomes[..k + 1], t)
            == (ProcessBatch(drained.0, name, batches[k], outcomes[k], t).0,
                drained.1 + ProcessBatch(drained.0, name, batches[k], outcomes[k], t).1)
  {
    assert batches[..k + 1][..k] == batches[..k];
    assert outcomes[..k + 1][..k] == outcomes[..k];
  }

  lemma AppendAssoc(a: seq<Event>, b: seq<Event>, c: seq<Event>)
    ensures a + (b + c) == (a + b) + c
  {
  }

  lemma ExceptionLogsStep(batch: seq<Request>, detail: string, i: nat)
    requires i < |batch|
    ensures ExceptionLogs(batch[..i + 1], detail) == ExceptionLogs(batch[..i], detail) + [Log(batch[i], detail)]
  {
  }

  lemma ProcessOk(p: Progress, name: string, batch: seq<Request>, t: string)
    ensures var scheduled := Scheduled(p, name, batch);
      var done := scheduled.(successCount := scheduled.successCount + |batch|);
      ProcessBatch(p, name, batch, Ok, t) == (done, [Result(scheduled), Result(done)])
  {
  }

  lemma ProcessThrew(p: Progress, name: string, batch: seq<Request>, detail: string, t: string)
    ensures var scheduled := Scheduled(p, name, batch);
      ProcessBatch(p, name, batch, Threw(detail), t)
        == (scheduled.(failureCount := scheduled.failureCount + |batch|),
            [Result(scheduled)] + ExceptionLogs(batch, detail))
  {
  }

  lemma ProcessFaultedComplete(p: Progress, name: string, batch: seq<Request>, rs: seq<Response>, t: string)
    requires !FaultScan(batch, rs).1
    ensures var scheduled := Scheduled(p, name, batch);
      var counted := scheduled.(failureCount := scheduled.failureCount + |FaultsOf(rs)|,
                                successCount := scheduled.successCount + |batch| - |rs|);
      ProcessBatch(p, name, batch, Faulted(rs), t)
        == (counted, [Result(scheduled)] + FaultScan(batch, rs).0 + [Result(counted)])
  {
  }

  lemma ProcessFaultedThrown(p: Progress, name: string, batch: seq<Request>, rs: seq<Response>, t: string)
    requires FaultScan(batch, rs).1
    ensures var scheduled := Scheduled(p, name, batch);
      var counted := scheduled.(failureCount := scheduled.failureCount + |FaultsOf(rs)|,
                                successCount := scheduled.successCount + |batch| - |rs|);
      ProcessBatch(p, name, batch, Faulted(rs), t)
        == (counted.(failureCount := counted.failureCount + |batch|),
            [Result(scheduled)] + FaultScan(batch, rs).0 + ExceptionLogs(batch, t))
  {
  }

  lemma FaultScanSkipsNull(batch: seq<Request>, rs: seq<Response>, i: nat)
    requires i < |rs| && rs[i].fault.None?
    ensures FaultScan(batch, rs[..i + 1]) == FaultScan(batch, rs[..i])
  {
    assert rs[..i + 1][..i] == rs[..i];
  }

  lemma FaultScanLogs(batch: seq<Request>, rs: seq<Response>, i: nat)
    requires i < |rs| && rs[i].fault.Some? && 0 <= rs[i].requestIndex < |batch|
    requires !FaultScan(batch, rs[..i]).1
    ensures FaultScan(batch, rs[..i + 1])
            == (FaultScan(batch, rs[..i]).0 + [Log(batch[rs[i].requestIndex], rs[i].fault.value)], false)
  {
    assert rs[..i + 1][..i] == rs[..i];
  }

  lemma FaultScanThrows(batch: seq<Request>, rs: seq<Response>, i: nat)
    requires i < |rs| && rs[i].fault.Some? && !(0 <= rs[i].requestIndex < |batch|)
    requires !FaultScan(batch, rs[..i]).1
    ensures FaultScan(batch, rs[..i + 1]) == (FaultScan(batch, rs[..i]).0, true)
  {
    assert rs[..i + 1][..i] == rs[..i];
  }

  lemma ResultCountSingle(e: Event)
    ensures ResultCount([e]) == if e.Result? then 1 else 0
  {
    assert [e][..0] == [];
  }
}
