/**
 How single requests are grouped into batches: the batch under construction
 grows one request at a time and, once it holds `MaxRequests` requests, moves
 to the end of the pending queue and is replaced by an empty one.
 */
module Batching {
  import opened Requests

  /** The largest number of requests one bulk submission carries. */
  const MaxRequests: nat := 5

  /** The requests of `batches`, batch after batch, in order. */
  function Flatten(batches: seq<seq<Request>>): seq<Request>
  {
    if batches == [] then [] else Flatten(batches[..|batches| - 1]) + batches[|batches| - 1]
  }

  /** Every queued batch is exactly full. */
  ghost predicate FullBatches(queue: seq<seq<Request>>)
  {
    forall i :: 0 <= i < |queue| ==> |queue[i]| == MaxRequests
  }

  /** The queue and the batch under construction after one more request `r`. */
  function AddStep(queue: seq<seq<Request>>, latest: seq<Request>, r: Request): (seq<seq<Request>>, seq<Request>)
  {
    var grown := latest + [r];
    if |grown| >= MaxRequests then (queue + [grown], []) else (queue, grown)
  }

  /** The queue and the batch under construction after adding `rs`, in order,
      to an accumulator that has never been used. */
  function Accumulate(rs: seq<Request>): (seq<seq<Request>>, seq<Request>)
  {
    if rs == [] then ([], [])
    else
      var (queue, latest) := Accumulate(rs[..|rs| - 1]);
      AddStep(queue, latest, rs[|rs| - 1])
  }

  lemma {:induction false} FlattenAppend(batches: seq<seq<Request>>, b: seq<Request>)
    ensures Flatten(batches + [b]) == Flatten(batches) + b
  {
    assert (batches + [b])[..|batches|] == batches;
  }

  /** Adding a request neither loses, duplicates nor reorders anything: the
      queued requests followed by the batch under construction grow by exactly
      `r` at the end. */
  lemma {:induction false} AddStepPreservesOrder(queue: seq<seq<Request>>, latest: seq<Request>, r: Request)
    ensures var (queue', latest') := AddStep(queue, latest, r);
      Flatten(queue') + latest' == Flatten(queue) + latest + [r]
  {
    FlattenAppend(queue, latest + [r]);
  }

  /** Queued batches stay exactly full and the batch under construction stays
      below the maximum; a batch is queued exactly when the request fills it. */
  lemma AddStepKeepsBatchesFull(queue: seq<seq<Request>>, latest: seq<Request>, r: Request)
    requires FullBatches(queue) && |latest| < MaxRequests
    ensures var (queue', latest') := AddStep(queue, latest, r);
      && FullBatches(queue') && |latest'| < MaxRequests
      && (|queue'| == |queue| + 1 <==> |latest| + 1 == MaxRequests)
      && (|queue'| == |queue| <==> |latest| + 1 < MaxRequests)
  {
  }

  /** After any sequence of additions: concatenating the queue and the batch
      under construction gives back the requests in insertion order, every
      queued batch holds exactly `MaxRequests` requests, and the batch under
      construction holds the remainder. */
  lemma {:induction false} AccumulateShape(rs: seq<Request>)
    ensures var (queue, latest) := Accumulate(rs);
      && Flatten(queue) + latest == rs
      && FullBatches(queue)
      && |queue| == |rs| / MaxRequests
      && |latest| == |rs| % MaxRequests
  {
    if rs != [] {
      var prefix := rs[..|rs| - 1];
      AccumulateShape(prefix);
      var (queue, latest) := Accumulate(prefix);
      AddStepPreservesOrder(queue, latest, rs[|rs| - 1]);
      AddStepKeepsBatchesFull(queue, latest, rs[|rs| - 1]);
      assert prefix + [rs[|rs| - 1]] == rs;
    }
  }

  /** What a drain submits after at least one addition, `rs` being the
      requests added: the queued batches and then the batch under
      construction, which is empty exactly when the number of requests is a
      multiple of the maximum. So there is always one batch more than there
      are full ones, and the batches together give back `rs` in order. (With
      no addition at all the queue was never created and a drain submits
      nothing.) */
  lemma FlushedBatches(rs: seq<Request>)
    requires rs != []
    ensures var (queue, latest) := Accumulate(rs);
      var batches := queue + [latest];
      && |batches| == |rs| / MaxRequests + 1
      && Flatten(batches) == rs
      && (forall i :: 0 <= i < |batches| - 1 ==> |batches[i]| == MaxRequests)
      && (latest == [] <==> |rs| % MaxRequests == 0)
  {
    AccumulateShape(rs);
    var (queue, latest) := Accumulate(rs);
    FlattenAppend(queue, latest);
  }
}
