/** StreamPool: tasks submitted one at a time until Close, run under a
    concurrency limit, their outcomes reported in completion order.

    The dispatcher, the guard and the results channel are modelled by their
    effect: an accepted task joins `pending`; a worker finishing it (in any
    order, chosen by the caller of Complete) moves its outcome to
    `delivered`; the results channel is closed once the pool is closed and
    nothing is pending. */
module StreamPools {
  import opened Optionals
  import opened Partitions
  import opened Workers
  import opened Permutations

  /** The pool's state. `pending` holds the accepted tasks not yet reported
      (each as the outcome it returns when invoked), `delivered` the
      outcomes waiting in the results channel, `accepted` the number of
      Submit calls that returned nil and `drained` the outcomes Collect has
      already read. */
  datatype StreamPool<T> = StreamPool(
    concurrency: nat,
    bufSize: nat,
    failFast: bool,
    closed: bool,
    cancelled: bool,
    pending: seq<Optional<T>>,
    delivered: seq<Optional<T>>,
    accepted: nat,
    drained: nat)

  /** Every accepted task is pending, waiting in the results channel, or
      already read: none is lost. */
  predicate Accounted<T>(sp: StreamPool<T>) {
    |sp.pending| + |sp.delivered| + sp.drained == sp.accepted
  }

  /** NewStreamPool: the results buffer holds the configured size when it is
      positive and the concurrency otherwise; a negative concurrency panics
      when the guard channel is made. `cancelled` is the state of the
      caller's context. */
  function NewStreamPool<T>(cancelled: bool, concurrency: int, bufferSize: int, failFast: bool): (r: Call<StreamPool<T>>)
    ensures r.Returned? <==> concurrency >= 0
    ensures r.Returned? ==> var sp := r.value;
      && sp.concurrency == concurrency
      && (bufferSize > 0 ==> sp.bufSize == bufferSize)
      && (bufferSize <= 0 ==> sp.bufSize == concurrency)
      && !sp.closed && sp.cancelled == cancelled && sp.failFast == failFast
      && sp.pending == [] && sp.delivered == [] && sp.accepted == 0
      && Accounted(sp)
  {
    if concurrency < 0 then Panicked(MakeChanNegative)
    else
      var bufSize := if bufferSize > 0 then bufferSize else concurrency;
      Returned(StreamPool(concurrency, bufSize, failFast, false, cancelled, [], [], 0, 0))
  }

  /** StreamPool.Submit: after Close it returns ErrPoolClosed and changes
      nothing; before, the task is accepted and nil returned. */
  function Submit<T>(sp: StreamPool<T>, task: Optional<T>): (r: (StreamPool<T>, Option<Error>))
    ensures sp.closed ==> r == (sp, Some(PoolClosed))
    ensures !sp.closed ==>
      r.1 == None && r.0 == sp.(pending := sp.pending + [task], accepted := sp.accepted + 1)
  {
    if sp.closed then (sp, Some(PoolClosed))
    else (sp.(pending := sp.pending + [task], accepted := sp.accepted + 1), None)
  }

  /** StreamPool.Close: closes the submission side once. */
  function Close<T>(sp: StreamPool<T>): (r: StreamPool<T>)
    ensures r.closed
    ensures r.(closed := sp.closed) == sp
  {
    sp.(closed := true)
  }

  /** Close is idempotent: a second call has no further effect. */
  lemma CloseIdempotent<T>(sp: StreamPool<T>)
    ensures Close(Close(sp)) == Close(sp)
    ensures sp.closed ==> Close(sp) == sp
  {
  }

  /** StreamPool.Cancel: cancels the pool's token. */
  function Cancel<T>(sp: StreamPool<T>): (r: StreamPool<T>)
    ensures r.cancelled
    ensures r.(cancelled := sp.cancelled) == sp
  {
    sp.(cancelled := true)
  }

  /** The worker for pending task j finishes: it follows the worker rule
      against the current token and reports into the results channel. */
  function Complete<T>(sp: StreamPool<T>, j: nat, zero: T): (r: StreamPool<T>)
    requires j < |sp.pending|
    ensures r.pending == sp.pending[..j] + sp.pending[j + 1..]
    ensures |r.delivered| == |sp.delivered| + 1 && r.delivered[..|sp.delivered|] == sp.delivered
    ensures sp.cancelled ==> r.cancelled && r.delivered[|sp.delivered|] == CancelledOutcome(zero)
    ensures !sp.cancelled ==> r.delivered[|sp.delivered|] == sp.pending[j]
    ensures r.cancelled <==> sp.cancelled || (sp.failFast && r.delivered[|sp.delivered|].Failed())
    ensures r.accepted == sp.accepted && r.closed == sp.closed && r.drained == sp.drained
    ensures r.failFast == sp.failFast && r.concurrency == sp.concurrency && r.bufSize == sp.bufSize
  {
    var w := RunWorker(sp.cancelled, sp.failFast, sp.pending[j], zero);
    sp.(pending := sp.pending[..j] + sp.pending[j + 1..],
        delivered := sp.delivered + [w.outcome],
        cancelled := w.cancelled)
  }

  /** The results channel is closed: Close was called and every dispatched
      worker has finished. */
  predicate Finished<T>(sp: StreamPool<T>) {
    sp.closed && |sp.pending| == 0
  }

  /** StreamPool.Collect: reads the results channel until it is closed and
      splits what it read into results and errors. None means the call is
      still blocked (before Close, or while workers run). */
  function Collect<T>(sp: StreamPool<T>): (r: (StreamPool<T>, Option<Collected<T>>))
    ensures r.1.Some? <==> Finished(sp)
    ensures r.1.None? ==> r.0 == sp
    ensures r.1.Some? ==> r.1.value == Partition(sp.delivered)
    ensures r.1.Some? ==> r.0.delivered == [] && r.0.drained == sp.drained + |sp.delivered|
    ensures r.0.(delivered := sp.delivered, drained := sp.drained) == sp
  {
    if Finished(sp) then
      (sp.(delivered := [], drained := sp.drained + |sp.delivered|), Some(Partition(sp.delivered)))
    else (sp, None)
  }

  /** What happens to a stream pool, one step at a time. */
  datatype Event<T> = SubmitEv(task: Optional<T>) | CloseEv | CancelEv | CompleteEv(j: nat) | CollectEv

  /** A step; completing a worker that does not exist, or a Collect that
      would block, changes nothing. */
  function Step<T>(sp: StreamPool<T>, e: Event<T>, zero: T): StreamPool<T> {
    match e
    case SubmitEv(task) => Submit(sp, task).0
    case CloseEv => Close(sp)
    case CancelEv => Cancel(sp)
    case CompleteEv(j) => if j < |sp.pending| then Complete(sp, j, zero) else sp
    case CollectEv => Collect(sp).0
  }

  function RunEvents<T>(sp: StreamPool<T>, es: seq<Event<T>>, zero: T): StreamPool<T>
    decreases |es|
  {
    if |es| == 0 then sp else RunEvents(Step(sp, es[0], zero), es[1..], zero)
  }

  /** Every step keeps every accepted task accounted for, never reopens the
      pool, never clears the token, and after Close accepts nothing new. */
  lemma StepInvariant<T>(sp: StreamPool<T>, e: Event<T>, zero: T)
    requires Accounted(sp)
    ensures var q := Step(sp, e, zero);
      && Accounted(q)
      && (sp.closed ==> q.closed && q.accepted == sp.accepted)
      && (sp.cancelled ==> q.cancelled)
      && q.accepted >= sp.accepted
  {
  }

  /** The same over any sequence of steps: drain-on-close, nothing lost. */
  lemma {:induction false} RunInvariant<T>(sp: StreamPool<T>, es: seq<Event<T>>, zero: T)
    requires Accounted(sp)
    ensures var q := RunEvents(sp, es, zero);
      && Accounted(q)
      && (sp.closed ==> q.closed && q.accepted == sp.accepted)
      && (sp.cancelled ==> q.cancelled)
      && q.accepted >= sp.accepted
    decreases |es|
  {
    if |es| > 0 {
      StepInvariant(sp, es[0], zero);
      RunInvariant(Step(sp, es[0], zero), es[1..], zero);
    }
  }

  /** A Collect that returns reports one entry per outcome it read; on a
      pool nobody read from before, that is one entry per accepted task. */
  lemma CollectCounts<T>(sp: StreamPool<T>)
    requires Accounted(sp)
    requires Collect(sp).1.Some?
    ensures var c := Collect(sp).1.value;
      |c.results| + |c.errors| == |sp.delivered|
      && |c.results| + |c.errors| + sp.drained == sp.accepted
  {
  }

  /** With a live token and no fail-fast, finishing a worker moves its
      task's own outcome from pending to delivered. */
  lemma CompleteKeepsOutcomes<T>(sp: StreamPool<T>, j: nat, zero: T)
    requires j < |sp.pending| && !sp.cancelled && !sp.failFast
    ensures var q := Complete(sp, j, zero);
      && !q.cancelled
      && multiset(q.pending) + multiset(q.delivered) == multiset(sp.pending) + multiset(sp.delivered)
  {
    RemoveAt(sp.pending, j);
  }

  /** Finishes pending workers in the order the picks name them (a pick out
      of range finishes nothing). */
  function CompleteAll<T>(sp: StreamPool<T>, picks: seq<nat>, zero: T): StreamPool<T>
    decreases |picks|
  {
    if |picks| == 0 then sp
    else CompleteAll(Step(sp, CompleteEv(picks[0]), zero), picks[1..], zero)
  }

  lemma {:induction false} CompleteAllKeepsOutcomes<T>(sp: StreamPool<T>, picks: seq<nat>, zero: T)
    requires !sp.cancelled && !sp.failFast
    ensures var q := CompleteAll(sp, picks, zero);
      && q.closed == sp.closed
      && multiset(q.pending) + multiset(q.delivered) == multiset(sp.pending) + multiset(sp.delivered)
    decreases |picks|
  {
    if |picks| > 0 {
      var next := Step(sp, CompleteEv(picks[0]), zero);
      if picks[0] < |sp.pending| {
        CompleteKeepsOutcomes(sp, picks[0], zero);
      }
      CompleteAllKeepsOutcomes(next, picks[1..], zero);
    }
  }

  /** Without cancellation or fail-fast, once the pool is closed and every
      worker has finished, in whatever order and whether before or after
      Close, Collect returns the same successes and the same errors as
      collecting the outcomes already delivered followed by the pending
      tasks in submission order would, up to order. */
  lemma {:induction false} CollectAnyCompletionOrder<T>(sp: StreamPool<T>, picks: seq<nat>, zero: T)
    requires !sp.cancelled && !sp.failFast && sp.closed
    ensures var c := Collect(CompleteAll(sp, picks, zero)).1;
      c.Some? ==>
        && multiset(c.value.results) == multiset(Partition(sp.delivered + sp.pending).results)
        && multiset(c.value.errors) == multiset(Partition(sp.delivered + sp.pending).errors)
  {
    var q := CompleteAll(sp, picks, zero);
    CompleteAllKeepsOutcomes(sp, picks, zero);
    if Collect(q).1.Some? {
      assert q.pending == [];
      calc {
        multiset(q.delivered);
        multiset(q.pending) + multiset(q.delivered);
        multiset(sp.pending) + multiset(sp.delivered);
        multiset(sp.delivered + sp.pending);
      }
      PartitionPermutation(q.delivered, sp.delivered + sp.pending);
    }
  }

  /** Finishing a worker never loses a failure: a failed pending task is
      delivered as its own error or as the cancellation error, and every
      other outcome stays where it was. */
  lemma CompleteKeepsFailure<T>(sp: StreamPool<T>, j: nat, zero: T)
    requires j < |sp.pending| && AnyFailed(sp.delivered + sp.pending)
    ensures var q := Complete(sp, j, zero); AnyFailed(q.delivered + q.pending)
  {
    var q := Complete(sp, j, zero);
    var d := |sp.delivered|;
    var i :| 0 <= i < |sp.delivered + sp.pending| && (sp.delivered + sp.pending)[i].Failed();
    var s', q' := sp.delivered + sp.pending, q.delivered + q.pending;
    if i < d {
      assert q.delivered[..d][i] == sp.delivered[i];
      assert q'[i] == s'[i];
    } else if i - d < j {
      assert q.pending[i - d] == sp.pending[i - d];
      assert q'[i + 1] == s'[i];
    } else if i - d == j {
      assert q'[d].Failed();
    } else {
      assert q.pending[i - d - 1] == sp.pending[i - d];
      assert q'[i] == s'[i];
    }
  }

  /** Under any options, token and completion order, a failure among the
      outcomes delivered or still pending is never lost. */
  lemma {:induction false} FailureSurvives<T>(sp: StreamPool<T>, picks: seq<nat>, zero: T)
    requires AnyFailed(sp.delivered + sp.pending)
    ensures var q := CompleteAll(sp, picks, zero); AnyFailed(q.delivered + q.pending)
    decreases |picks|
  {
    if |picks| > 0 {
      if picks[0] < |sp.pending| {
        CompleteKeepsFailure(sp, picks[0], zero);
      }
      FailureSurvives(Step(sp, CompleteEv(picks[0]), zero), picks[1..], zero);
    }
  }

  /** A failing task always shows up as an error: under any options and
      token, once the pool is closed and every worker has finished, Collect
      reports at least one error. */
  lemma StreamCollectReportsFailure<T>(sp: StreamPool<T>, picks: seq<nat>, zero: T)
    requires AnyFailed(sp.delivered + sp.pending)
    ensures var c := Collect(CompleteAll(sp, picks, zero)).1;
      c.Some? ==> |c.value.errors| > 0
  {
    var q := CompleteAll(sp, picks, zero);
    FailureSurvives(sp, picks, zero);
    if Collect(q).1.Some? {
      assert q.delivered + q.pending == q.delivered;
      ErrorsIffAnyFailed(q.delivered);
    }
  }

  /** The pool of the example below once its three tasks are submitted
      and it is closed. */
  function ExamplePool(): (sp: StreamPool<int>)
    ensures sp.closed && !sp.cancelled && !sp.failFast && sp.delivered == []
    ensures sp.pending == [Optional(1, None), Optional(2, None), Optional(3, None)]
  {
    var sp0 := NewStreamPool<int>(false, 2, 0, false).value;
    var sp1 := Submit(Submit(Submit(sp0, Optional(1, None)).0, Optional(2, None)).0, Optional(3, None)).0;
    Close(sp1)
  }

  /** Three tasks returning 1, 2 and 3 submitted to a pool of concurrency
      2, then Close: whatever order the workers finish in, Collect returns
      1, 2 and 3 in some order and no error. */
  lemma StreamCollectExample(picks: seq<nat>)
    ensures var c := Collect(CompleteAll(ExamplePool(), picks, 0)).1;
      c.Some? ==> multiset(c.value.results) == multiset{1, 2, 3} && c.value.errors == []
  {
    var sp := ExamplePool();
    CollectAnyCompletionOrder(sp, picks, 0);
    assert sp.delivered + sp.pending == sp.pending;
    ExamplePartition();
    var c := Collect(CompleteAll(sp, picks, 0)).1;
    if c.Some? {
      assert |c.value.errors| == |multiset(c.value.errors)| == 0;
    }
  }

  /** The example's three successful tasks split into three results and no
      error. */
  lemma ExamplePartition()
    ensures Partition(ExamplePool().pending) == Collected([1, 2, 3], [])
  {
    var tasks := ExamplePool().pending;
    PartitionAllSucceed(tasks);
    assert Partition(tasks).results == [1, 2, 3];
  }

}
