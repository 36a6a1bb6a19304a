/** The outcome rule every worker follows (the Proc future, the Pool worker
    and the StreamPool worker): look at the token first, run the task only if
    it is not cancelled, and with fail-fast on cancel the token on an error.

    A task is modelled by the outcome it returns when invoked; `zero` stands
    for Go's zero value of T. The token is a boolean that, once set, stays
    set. Each worker is treated as one atomic step. */
module Workers {
  import opened Optionals

  /** One worker's step: the outcome it reports, whether it invoked its task,
      and the token afterwards. */
  datatype WorkerStep<T> = WorkerStep(outcome: Optional<T>, invoked: bool, cancelled: bool)

  /** The worker body of Pool.start and NewStreamPool.dispatch. */
  function RunWorker<T>(cancelled: bool, failFast: bool, task: Optional<T>, zero: T): (w: WorkerStep<T>)
    ensures cancelled ==> !w.invoked && w.outcome == CancelledOutcome(zero)
    ensures !cancelled ==> w.invoked && w.outcome == task
    ensures cancelled ==> w.cancelled
    ensures w.cancelled <==> cancelled || (failFast && task.Failed())
  {
    if cancelled then WorkerStep(CancelledOutcome(zero), false, true)
    else WorkerStep(task, true, failFast && task.Failed())
  }

  /** The fixed pool's workers taking their turns one after the other in
      `order` (a permutation of the task indices); each looks at the token
      as the previous ones left it and reports in the same turn, so `order`
      is both the order of the token checks and the order of the reports.
      An outside cancellation (Pool.Cancel, or the parent context) lands
      just before the worker at position `cancelAt` looks at the token;
      `cancelAt >= |order|` means none during the run. Returns the feed,
      index-tagged, in that order, and the final token. */
  function RunSchedule<T>(tasks: seq<Optional<T>>, order: seq<nat>, failFast: bool, cancelled: bool, cancelAt: nat, zero: T)
    : (r: (seq<Indexed<T>>, bool))
    requires forall j :: 0 <= j < |order| ==> order[j] < |tasks|
    ensures |r.0| == |order|
    ensures forall j :: 0 <= j < |order| ==> r.0[j].index == order[j]
    ensures forall j :: 0 <= j < |order| ==>
      r.0[j].opt == tasks[order[j]] || r.0[j].opt == CancelledOutcome(zero)
    ensures cancelled ==> r.1
    ensures cancelled ==> forall j :: 0 <= j < |order| ==> r.0[j].opt == CancelledOutcome(zero)
    ensures forall j :: cancelAt <= j < |order| ==> r.0[j].opt == CancelledOutcome(zero)
    ensures !cancelled && !failFast ==>
      && (r.1 <==> cancelAt < |order|)
      && forall j :: 0 <= j < |order| && j < cancelAt ==> r.0[j].opt == tasks[order[j]]
    decreases |order|
  {
    if |order| == 0 then ([], cancelled)
    else
      var w := RunWorker(cancelled || cancelAt == 0, failFast, tasks[order[0]], zero);
      var rest := RunSchedule(tasks, order[1..], failFast, w.cancelled, if cancelAt == 0 then 0 else cancelAt - 1, zero);
      ([Indexed(order[0], w.outcome)] + rest.0, rest.1)
  }

  /** Fail-fast cascade in the one-step worker model: once a worker reports
      an error under fail-fast, every worker that looks at the token after
      that report reports the cancellation error without having run its
      task. */
  lemma {:induction false} FailFastCascade<T>(tasks: seq<Optional<T>>, order: seq<nat>, cancelled: bool, cancelAt: nat, zero: T, j: nat)
    requires forall j :: 0 <= j < |order| ==> order[j] < |tasks|
    requires j < |order|
    requires RunSchedule(tasks, order, true, cancelled, cancelAt, zero).0[j].opt.Failed()
    ensures RunSchedule(tasks, order, true, cancelled, cancelAt, zero).1
    ensures forall l :: j < l < |order| ==>
      RunSchedule(tasks, order, true, cancelled, cancelAt, zero).0[l].opt == CancelledOutcome(zero)
    decreases |order|
  {
    var w := RunWorker(cancelled || cancelAt == 0, true, tasks[order[0]], zero);
    var next := if cancelAt == 0 then 0 else cancelAt - 1;
    var rest := RunSchedule(tasks, order[1..], true, w.cancelled, next, zero);
    var r := RunSchedule(tasks, order, true, cancelled, cancelAt, zero);
    assert r.0 == [Indexed(order[0], w.outcome)] + rest.0 && r.1 == rest.1;
    if j == 0 {
      assert w.cancelled;
    } else {
      assert rest.0[j - 1] == r.0[j];
      FailFastCascade(tasks, order[1..], w.cancelled, next, zero, j - 1);
      assert forall l :: j < l < |order| ==> r.0[l] == rest.0[l - 1];
    }
  }

  /** A Proc (future): the task, the stored outcome once resolved, and how
      many times the task body ran. */
  datatype Proc<T> = Proc(task: Optional<T>, result: Option<Optional<T>>, runs: nat)

  /** Go(ctx, fn): a fresh, unresolved future. */
  function NewProc<T>(task: Optional<T>): (p: Proc<T>)
    ensures !Done(p) && p.runs == 0
  {
    Proc(task, None, 0)
  }

  /** Proc.Done: whether the outcome is available. */
  predicate Done<T>(p: Proc<T>) {
    p.result.Some?
  }

  /** Proc.Go (also Result and Wait): the first call evaluates the task
      under the worker rule, without fail-fast, against the token as it is
      at that moment; every later call returns the stored outcome. */
  function ProcGo<T>(p: Proc<T>, cancelled: bool, zero: T): (r: (Proc<T>, Optional<T>))
    ensures Done(r.0) && r.0.result.value == r.1
    ensures Done(p) ==> r == (p, p.result.value)
    ensures !Done(p) && cancelled ==> r.1 == CancelledOutcome(zero) && r.0.runs == p.runs
    ensures !Done(p) && !cancelled ==> r.1 == p.task && r.0.runs == p.runs + 1
  {
    if Done(p) then (p, p.result.value)
    else
      var w := RunWorker(cancelled, false, p.task, zero);
      (p.(result := Some(w.outcome), runs := p.runs + if w.invoked then 1 else 0), w.outcome)
  }

  /** Calls Go once per entry of `tokens` (the token as each call sees it)
      and lists what each call returned. */
  function ProcGoAll<T>(p: Proc<T>, tokens: seq<bool>, zero: T): (r: (Proc<T>, seq<Optional<T>>))
    ensures |r.1| == |tokens|
    decreases |tokens|
  {
    if |tokens| == 0 then (p, [])
    else
      var first := ProcGo(p, tokens[0], zero);
      var rest := ProcGoAll(first.0, tokens[1..], zero);
      (rest.0, [first.1] + rest.1)
  }

  /** Exactly-once evaluation: however many times a fresh future is awaited
      and whatever the token does meanwhile, the task body runs at most once
      (exactly once unless the token was already cancelled at the first
      call) and every caller gets the same outcome. */
  lemma {:induction false} ProcOnce<T>(task: Optional<T>, tokens: seq<bool>, zero: T)
    requires |tokens| > 0
    ensures var r := ProcGoAll(NewProc(task), tokens, zero);
      && r.0.runs == (if tokens[0] then 0 else 1)
      && r.1[0] == (if tokens[0] then CancelledOutcome(zero) else task)
      && forall j :: 0 <= j < |tokens| ==> r.1[j] == r.1[0]
  {
    var first := ProcGo(NewProc(task), tokens[0], zero);
    ResolvedStays(first.0, tokens[1..], zero);
  }

  /** Once resolved, further Go calls change nothing and return the stored
      outcome. */
  lemma {:induction false} ResolvedStays<T>(p: Proc<T>, tokens: seq<bool>, zero: T)
    requires Done(p)
    ensures ProcGoAll(p, tokens, zero).0 == p
    ensures forall j :: 0 <= j < |tokens| ==> ProcGoAll(p, tokens, zero).1[j] == p.result.value
    decreases |tokens|
  {
    if |tokens| > 0 {
      ResolvedStays(p, tokens[1..], zero);
    }
  }

  /** GoVoid: the wrapped side-effecting task always returns a unit result
      with a nil error, so the future fails only by cancellation. */
  lemma GoVoidOutcome(cancelled: bool)
    ensures var r := ProcGo(NewProc(ZeroOutcome(())), cancelled, ());
      r.1.Failed() <==> cancelled
  {
  }
}
