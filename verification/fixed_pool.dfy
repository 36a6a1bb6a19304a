/** Pool: a fixed number `size` of tasks, indexed 0 .. size-1, run under a
    concurrency limit and consumed either as a stream in completion order
    (Go, Wait) or as two lists in submission order (Collect).

    The workers' feed is modelled by its contents in arrival order: a
    sequence of index-tagged outcomes. */
module FixedPool {
  import opened Optionals
  import opened Permutations
  import opened Partitions
  import opened Workers
  import opened Modes
  import opened Gate

  /** The pool's state: its limits, options, token and consumption mode;
      `started` records startOnce, `streamMade` records goOnce (the single
      `out` channel every Go call returns). */
  datatype Pool = Pool(
    concurrency: int,
    size: nat,
    failFast: bool,
    cancelled: bool,
    mode: Mode,
    started: bool,
    streamMade: bool)

  const IndexOutOfRange := "index out of range"

  /** NewPool: clamps the concurrency to the size; a negative size panics
      when the feed channel of that capacity is made. `cancelled` is the
      state of the caller's context. */
  function NewPool(cancelled: bool, concurrency: int, size: int, failFast: bool): (r: Call<Pool>)
    ensures r.Returned? <==> size >= 0
    ensures r.Returned? ==> var p := r.value;
      && p.size == size
      && p.concurrency <= size
      && (concurrency <= size ==> p.concurrency == concurrency)
      && (concurrency > size ==> p.concurrency == size)
      && p.mode == Unset && !p.started && !p.streamMade
      && p.failFast == failFast && p.cancelled == cancelled
  {
    if size < 0 then Panicked(MakeChanNegative)
    else
      var c := if concurrency > size then size else concurrency;
      Returned(Pool(c, size, failFast, cancelled, Unset, false, false))
  }

  /** How start launches the workers. */
  datatype Launch =
    | NoWorkers      // size 0: the feed is closed at once
    | Launched(gate: Gate)
    | LaunchPanics   // negative concurrency: the guard channel cannot be made
    | LaunchBlocks   // zero concurrency: the first send into the guard blocks forever

  function LaunchOf(p: Pool): (l: Launch)
    ensures l.NoWorkers? <==> p.size == 0
    ensures l.LaunchPanics? <==> p.size > 0 && p.concurrency < 0
    ensures l.LaunchBlocks? <==> p.size > 0 && p.concurrency == 0
    ensures l.Launched? ==> Valid(l.gate) && l.gate.running == 0 && l.gate.capacity == p.concurrency >= 1
  {
    if p.size == 0 then NoWorkers
    else if p.concurrency < 0 then LaunchPanics
    else if p.concurrency == 0 then LaunchBlocks
    else Launched(NewGate(p.concurrency))
  }

  /** A pool built with a positive concurrency and a positive size starts
      its workers behind a gate of capacity min(concurrency, size). */
  lemma NewPoolLaunches(cancelled: bool, concurrency: int, size: int, failFast: bool)
    requires concurrency >= 1 && size >= 1
    ensures NewPool(cancelled, concurrency, size, failFast).Returned?
    ensures var l := LaunchOf(NewPool(cancelled, concurrency, size, failFast).value);
      && l.Launched?
      && l.gate.capacity <= size
      && l.gate.capacity == (if concurrency > size then size else concurrency)
  {
  }

  /** The pool's workers all get started: there are none, or the gate
      admits at least one at a time. */
  predicate Launches(p: Pool) {
    p.size == 0 || p.concurrency >= 1
  }

  /** The workers' run once launched: `tasks[i]` is what makeFn(ctx, i)
      returns, `order` the order in which the workers report and `cancelAt`
      the position before which an outside cancellation lands (none when
      it is at least `size`). Returns the feed in arrival order and the
      final token. */
  function Run<T>(p: Pool, tasks: seq<Optional<T>>, order: seq<nat>, cancelAt: nat, zero: T): (r: (seq<Indexed<T>>, bool))
    requires Launches(p)
    requires |tasks| == p.size && IsPermutationOf(order, p.size)
    ensures |r.0| == |order| == p.size
    ensures forall j :: 0 <= j < |order| ==> r.0[j].index == order[j] < p.size
    ensures forall j :: 0 <= j < |order| ==>
      r.0[j].opt == tasks[order[j]] || r.0[j].opt == CancelledOutcome(zero)
    ensures p.cancelled ==> r.1
  {
    PermutationCovers(order, p.size);
    RunSchedule(tasks, order, p.failFast, p.cancelled, cancelAt, zero)
  }

  /** Pool.start: a pool of size 0 closes its feed at once; a negative
      concurrency panics when the guard channel is made; a zero
      concurrency blocks the launcher on its first send into the unbuffered
      guard, so the feed is never closed (None); otherwise the workers run
      and the feed is closed once all have reported. */
  function Start<T>(p: Pool, tasks: seq<Optional<T>>, order: seq<nat>, cancelAt: nat, zero: T): (r: Call<Option<seq<Indexed<T>>>>)
    requires |tasks| == p.size && IsPermutationOf(order, p.size)
    ensures r.Panicked? <==> p.size > 0 && p.concurrency < 0
    ensures r == Returned(None) <==> p.size > 0 && p.concurrency == 0
    ensures r.Returned? && r.value.Some? ==> Launches(p) && r.value.value == Run(p, tasks, order, cancelAt, zero).0
  {
    match LaunchOf(p)
    case NoWorkers => Returned(Some([]))
    case LaunchPanics => Panicked(MakeChanNegative)
    case LaunchBlocks => Returned(None)
    case Launched(_) => Returned(Some(Run(p, tasks, order, cancelAt, zero).0))
  }

  /** Pool.Cancel: cancels the pool's token. */
  function Cancel(p: Pool): (q: Pool)
    ensures q.cancelled
    ensures q.(cancelled := p.cancelled) == p
  {
    p.(cancelled := true)
  }

  /** Pool.Go: panics after Collect; otherwise sets the mode to 1, starts
      the workers and makes the output stream once. */
  function Go(p: Pool): (r: Call<Pool>)
    ensures r.Returned? <==> p.mode != Collecting
    ensures r.Returned? ==> r.value.mode == Streaming && r.value.started && r.value.streamMade
    ensures r.Returned? ==> r.value.(mode := p.mode, started := p.started, streamMade := p.streamMade) == p
  {
    match GoMode(p.mode)
    case Panicked(msg) => Panicked(msg)
    case Returned(m) => Returned(p.(mode := m, started := true, streamMade := true))
  }

  /** Pool.Wait: Go, then drain the stream until the feed is closed. The
      drain ends only if start closes the feed: a negative concurrency
      panics in the launcher, a zero one never closes the feed (None). */
  function Wait(p: Pool): (r: Call<Option<Pool>>)
    ensures r.Panicked? <==> p.mode == Collecting || (p.size > 0 && p.concurrency < 0)
    ensures r == Returned(None) <==> p.mode != Collecting && p.size > 0 && p.concurrency == 0
    ensures r.Returned? && r.value.Some? ==> var q := r.value.value;
      && Launches(p)
      && q.mode == Streaming && q.started && q.streamMade
      && q.(mode := p.mode, started := p.started, streamMade := p.streamMade) == p
  {
    match Go(p)
    case Panicked(msg) => Panicked(msg)
    case Returned(q) =>
      match LaunchOf(p)
      case LaunchPanics => Panicked(MakeChanNegative)
      case LaunchBlocks => Returned(None)
      case _ => Returned(Some(q))
  }

  /** Go may be called repeatedly: a second call changes nothing, so it
      hands back the same stream. */
  lemma GoRepeatable(p: Pool)
    requires Go(p).Returned?
    ensures Go(Go(p).value) == Go(p)
  {
  }

  /** The stream Go returns: the feed forwarded in arrival order. */
  function Streamed<T>(feed: seq<Indexed<T>>): (s: seq<Optional<T>>)
    ensures |s| == |feed|
    ensures forall j :: 0 <= j < |feed| ==> s[j] == feed[j].opt
  {
    MapSeq((ir: Indexed<T>) => ir.opt, feed)
  }

  /** The feed when the outcome of task i is outcomes[i] and the workers
      report in `order`. */
  function Arrivals<T>(outcomes: seq<Optional<T>>, order: seq<nat>): (a: seq<Indexed<T>>)
    requires forall k :: k in order ==> k < |outcomes|
    ensures |a| == |order|
    ensures forall j :: 0 <= j < |order| ==>
      a[j].index == order[j] && a[j].index < |outcomes| && a[j].opt == outcomes[order[j]]
  {
    var picked := Pick(outcomes, order);
    seq(|order|, j requires 0 <= j < |order| => Indexed(order[j], picked[j]))
  }

  /** The stream delivers every outcome exactly once, no duplicates and no
      drops, in whatever order the workers report. */
  lemma StreamDeliversAll<T>(outcomes: seq<Optional<T>>, order: seq<nat>)
    requires IsPermutationOf(order, |outcomes|)
    ensures forall k :: k in order ==> k < |outcomes|
    ensures multiset(Streamed(Arrivals(outcomes, order))) == multiset(outcomes)
  {
    PickAllIsPermutation(outcomes, order);
    assert Streamed(Arrivals(outcomes, order)) == Pick(outcomes, order);
  }

  /** First loop of Collect: `ordered[ir.index] = ir.opt` over the feed in
      arrival order, starting from `size` zero outcomes. */
  function Place<T>(size: nat, feed: seq<Indexed<T>>, zero: T): (r: seq<Optional<T>>)
    requires forall j :: 0 <= j < |feed| ==> feed[j].index < size
    ensures |r| == size
    decreases |feed|
  {
    if |feed| == 0 then seq(size, _ => ZeroOutcome(zero))
    else
      var last := feed[|feed| - 1];
      Place(size, feed[..|feed| - 1], zero)[last.index := last.opt]
  }

  /** Some feed entry carries index k. */
  ghost predicate Arrived<T>(feed: seq<Indexed<T>>, k: nat) {
    exists j :: 0 <= j < |feed| && feed[j].index == k
  }

  /** If every feed entry for an index carries the same outcome, Place puts
      that outcome at the index, and the zero outcome at indices that never
      arrived. */
  lemma {:induction false} PlaceConsistent<T>(feed: seq<Indexed<T>>, outcomes: seq<Optional<T>>, zero: T)
    requires forall j :: 0 <= j < |feed| ==>
      feed[j].index < |outcomes| && feed[j].opt == outcomes[feed[j].index]
    ensures forall k :: 0 <= k < |outcomes| ==>
      Place(|outcomes|, feed, zero)[k] ==
        if Arrived(feed, k) then outcomes[k] else ZeroOutcome(zero)
    decreases |feed|
  {
    if |feed| > 0 {
      var feed' := feed[..|feed| - 1];
      PlaceConsistent(feed', outcomes, zero);
      forall k: nat | k < |outcomes| && k != feed[|feed| - 1].index
        ensures Arrived(feed, k) == Arrived(feed', k)
      {
        if Arrived(feed, k) {
          var j :| 0 <= j < |feed| && feed[j].index == k;
          assert feed'[j].index == k;
        }
      }
    }
  }

  /** The feed carries, for every index below |outcomes|, that task's
      outcome, and nothing else. */
  ghost predicate IsDeliveryOf<T>(feed: seq<Indexed<T>>, outcomes: seq<Optional<T>>) {
    && (forall j :: 0 <= j < |feed| ==>
          feed[j].index < |outcomes| && feed[j].opt == outcomes[feed[j].index])
    && (forall k: nat :: k < |outcomes| ==> Arrived(feed, k))
  }

  /** Workers reporting in any order deliver every task's outcome. */
  lemma ArrivalsDeliver<T>(outcomes: seq<Optional<T>>, order: seq<nat>)
    requires IsPermutationOf(order, |outcomes|)
    ensures forall k :: k in order ==> k < |outcomes|
    ensures IsDeliveryOf(Arrivals(outcomes, order), outcomes)
  {
    PermutationCovers(order, |outcomes|);
    var a := Arrivals(outcomes, order);
    forall k: nat | k < |outcomes|
      ensures Arrived(a, k)
    {
      assert k in order;
      var j :| 0 <= j < |order| && order[j] == k;
      assert a[j].index == k;
    }
  }

  /** Placing a delivery restores submission order. */
  lemma PlaceDelivery<T>(feed: seq<Indexed<T>>, outcomes: seq<Optional<T>>, zero: T)
    requires IsDeliveryOf(feed, outcomes)
    ensures Place(|outcomes|, feed, zero) == outcomes
  {
    PlaceConsistent(feed, outcomes, zero);
  }

  /** Placing a feed whose indices are all different puts every entry's
      outcome at its index. */
  lemma {:induction false} PlaceDistinct<T>(size: nat, feed: seq<Indexed<T>>, zero: T)
    requires forall j :: 0 <= j < |feed| ==> feed[j].index < size
    requires forall j, k :: 0 <= j < k < |feed| ==> feed[j].index != feed[k].index
    ensures forall j :: 0 <= j < |feed| ==> Place(size, feed, zero)[feed[j].index] == feed[j].opt
    decreases |feed|
  {
    if |feed| > 0 {
      var feed' := feed[..|feed| - 1];
      PlaceDistinct(size, feed', zero);
      assert forall j :: 0 <= j < |feed'| ==> feed'[j] == feed[j];
    }
  }

  /** Under any options and any cancellation point, a launched run delivers
      one outcome per task, read back by placing the feed by index; each is
      the task's own outcome or the cancellation error. */
  lemma RunDelivers<T>(p: Pool, tasks: seq<Optional<T>>, order: seq<nat>, cancelAt: nat, zero: T)
    requires Launches(p)
    requires |tasks| == p.size && IsPermutationOf(order, p.size)
    ensures var feed := Run(p, tasks, order, cancelAt, zero).0;
      && IsDeliveryOf(feed, Place(p.size, feed, zero))
      && forall i :: 0 <= i < p.size ==>
           Place(p.size, feed, zero)[i] == tasks[i] || Place(p.size, feed, zero)[i] == CancelledOutcome(zero)
  {
    PermutationCovers(order, p.size);
    PermutationDistinct(order, p.size);
    var feed := Run(p, tasks, order, cancelAt, zero).0;
    PlaceDistinct(p.size, feed, zero);
    var o := Place(p.size, feed, zero);
    forall k: nat | k < p.size
      ensures Arrived(feed, k) && (o[k] == tasks[k] || o[k] == CancelledOutcome(zero))
    {
      assert k in order;
      var j :| 0 <= j < |order| && order[j] == k;
      assert feed[j].index == k;
    }
  }

  /** The stream Go returns over a launched run forwards every task's
      outcome exactly once, whatever the options and the completion order. */
  lemma RunStreamDeliversAll<T>(p: Pool, tasks: seq<Optional<T>>, order: seq<nat>, cancelAt: nat, zero: T)
    requires Launches(p)
    requires |tasks| == p.size && IsPermutationOf(order, p.size)
    ensures var feed := Run(p, tasks, order, cancelAt, zero).0;
      multiset(Streamed(feed)) == multiset(Place(p.size, feed, zero))
  {
    var feed := Run(p, tasks, order, cancelAt, zero).0;
    var o := Place(p.size, feed, zero);
    RunDelivers(p, tasks, order, cancelAt, zero);
    PermutationCovers(order, p.size);
    assert feed == Arrivals(o, order);
    StreamDeliversAll(o, order);
  }

  /** Pool.Collect: only from mode 0, which it moves to 2; then places the
      feed by index and splits it into results and errors. */
  function Collect<T>(p: Pool, feed: seq<Indexed<T>>, zero: T): (r: Call<(Pool, Collected<T>)>)
    ensures r.Returned? ==> p.mode == Unset && r.value.0 == p.(mode := Collecting, started := true)
    ensures p.mode != Unset ==> r == Panicked(CollectMisuse)
  {
    match CollectMode(p.mode)
    case Panicked(msg) => Panicked(msg)
    case Returned(m) =>
      if exists j :: 0 <= j < |feed| && feed[j].index >= p.size then Panicked(IndexOutOfRange)
      else Returned((p.(mode := m, started := true), Partition(Place(p.size, feed, zero))))
  }

  /** However the feed is made up, a Collect that returns hands back one
      entry per task: len(results) + len(errors) == size. */
  lemma CollectSizes<T>(p: Pool, feed: seq<Indexed<T>>, zero: T)
    requires Collect(p, feed, zero).Returned?
    ensures var c := Collect(p, feed, zero).value.1;
      |c.results| + |c.errors| == p.size
  {
  }

  /** Collect on a delivery collects the outcomes in task-index order. */
  lemma CollectDelivery<T>(p: Pool, feed: seq<Indexed<T>>, outcomes: seq<Optional<T>>, zero: T)
    requires p.mode == Unset && |outcomes| == p.size
    requires IsDeliveryOf(feed, outcomes)
    ensures Collect(p, feed, zero) == Returned((p.(mode := Collecting, started := true), Partition(outcomes)))
  {
    PlaceDelivery(feed, outcomes, zero);
  }

  /** Collect on a delivery returns the successes and the errors each in
      ascending task-index order: results[k] is the result of the k-th
      successful task and errors[k] the error of the k-th failed task. */
  lemma CollectInSubmissionOrder<T>(p: Pool, feed: seq<Indexed<T>>, outcomes: seq<Optional<T>>, zero: T)
    requires p.mode == Unset && |outcomes| == p.size
    requires IsDeliveryOf(feed, outcomes)
    ensures Collect(p, feed, zero).Returned?
    ensures var c := Collect(p, feed, zero).value.1;
      && c == Partition(outcomes)
      && |c.results| + |c.errors| == p.size
      && |c.results| == |Positions(outcomes, false)|
      && (forall k :: 0 <= k < |c.results| ==> c.results[k] == outcomes[Positions(outcomes, false)[k]].result)
      && |c.errors| == |Positions(outcomes, true)|
      && (forall k :: 0 <= k < |c.errors| ==> Some(c.errors[k]) == outcomes[Positions(outcomes, true)[k]].error)
  {
    CollectDelivery(p, feed, outcomes, zero);
    ResultsByPositions(outcomes);
    ErrorsByPositions(outcomes);
  }

  /** Collect's answer does not depend on the order in which the workers
      report. */
  lemma CollectArrivalIndependent<T>(p: Pool, outcomes: seq<Optional<T>>, order1: seq<nat>, order2: seq<nat>, zero: T)
    requires p.mode == Unset && |outcomes| == p.size
    requires IsPermutationOf(order1, p.size) && IsPermutationOf(order2, p.size)
    ensures forall k :: k in order1 ==> k < |outcomes|
    ensures forall k :: k in order2 ==> k < |outcomes|
    ensures Collect(p, Arrivals(outcomes, order1), zero) == Collect(p, Arrivals(outcomes, order2), zero)
  {
    ArrivalsDeliver(outcomes, order1);
    ArrivalsDeliver(outcomes, order2);
    CollectDelivery(p, Arrivals(outcomes, order1), outcomes, zero);
    CollectDelivery(p, Arrivals(outcomes, order2), outcomes, zero);
  }

  /** The outcome each task ends with when an outside cancellation lands
      before the worker at position `cancelAt` looks at the token: its own
      outcome if its worker looked at the token before the cancellation,
      the cancellation error otherwise. */
  function MidRunOutcomes<T>(tasks: seq<Optional<T>>, order: seq<nat>, cancelAt: nat, zero: T): (o: seq<Optional<T>>)
    ensures |o| == |tasks|
    ensures forall i :: 0 <= i < |tasks| ==>
      o[i] == if i in order[..if cancelAt < |order| then cancelAt else |order|] then tasks[i] else CancelledOutcome(zero)
  {
    var reported := order[..if cancelAt < |order| then cancelAt else |order|];
    seq(|tasks|, i requires 0 <= i < |tasks| => if i in reported then tasks[i] else CancelledOutcome(zero))
  }

  /** Without fail-fast, the run delivers each task's outcome under the
      outside cancellation point. */
  lemma MidRunFeed<T>(p: Pool, tasks: seq<Optional<T>>, order: seq<nat>, cancelAt: nat, zero: T)
    requires Launches(p) && !p.failFast && !p.cancelled
    requires |tasks| == p.size && IsPermutationOf(order, p.size)
    ensures IsDeliveryOf(Run(p, tasks, order, cancelAt, zero).0, MidRunOutcomes(tasks, order, cancelAt, zero))
  {
    PermutationCovers(order, p.size);
    PermutationDistinct(order, p.size);
    var feed := Run(p, tasks, order, cancelAt, zero).0;
    var o := MidRunOutcomes(tasks, order, cancelAt, zero);
    var m := if cancelAt < |order| then cancelAt else |order|;
    forall j | 0 <= j < |feed|
      ensures feed[j].opt == o[feed[j].index]
    {
      if j < m {
        assert order[..m][j] == order[j];
      }
    }
    forall k: nat | k < |o|
      ensures Arrived(feed, k)
    {
      assert k in order;
      var j :| 0 <= j < |order| && order[j] == k;
      assert feed[j].index == k;
    }
  }

  /** An outside cancellation during the run: Collect returns, in
      task-index order, the own outcomes of the tasks whose workers looked
      at the token before it and the cancellation error for every other
      task. */
  lemma CollectMidRunCancel<T>(p: Pool, tasks: seq<Optional<T>>, order: seq<nat>, cancelAt: nat, zero: T)
    requires p.mode == Unset && Launches(p) && !p.failFast && !p.cancelled
    requires |tasks| == p.size && IsPermutationOf(order, p.size)
    ensures Collect(p, Run(p, tasks, order, cancelAt, zero).0, zero)
         == Returned((p.(mode := Collecting, started := true), Partition(MidRunOutcomes(tasks, order, cancelAt, zero))))
  {
    MidRunFeed(p, tasks, order, cancelAt, zero);
    CollectDelivery(p, Run(p, tasks, order, cancelAt, zero).0, MidRunOutcomes(tasks, order, cancelAt, zero), zero);
  }

  /** Without fail-fast, a run is the arrival of the per-task outcomes
      under the cancellation point, in the order the workers looked at the
      token. */
  lemma RunIsArrivals<T>(p: Pool, tasks: seq<Optional<T>>, order: seq<nat>, cancelAt: nat, zero: T)
    requires Launches(p) && !p.failFast && !p.cancelled
    requires |tasks| == p.size && IsPermutationOf(order, p.size)
    ensures forall k :: k in order ==> k < p.size
    ensures Run(p, tasks, order, cancelAt, zero).0 == Arrivals(MidRunOutcomes(tasks, order, cancelAt, zero), order)
  {
    PermutationCovers(order, p.size);
    MidRunFeed(p, tasks, order, cancelAt, zero);
  }

  /** A failing task always shows up as an error: under any options,
      cancellation point and completion order, its slot holds its own error
      or the cancellation error, so Collect reports at least one error. */
  lemma CollectReportsFailure<T>(p: Pool, tasks: seq<Optional<T>>, order: seq<nat>, cancelAt: nat, zero: T, i: nat)
    requires p.mode == Unset && Launches(p)
    requires |tasks| == p.size && IsPermutationOf(order, p.size)
    requires i < p.size && tasks[i].Failed()
    ensures Collect(p, Run(p, tasks, order, cancelAt, zero).0, zero).Returned?
    ensures |Collect(p, Run(p, tasks, order, cancelAt, zero).0, zero).value.1.errors| > 0
  {
    var feed := Run(p, tasks, order, cancelAt, zero).0;
    var o := Place(p.size, feed, zero);
    RunDelivers(p, tasks, order, cancelAt, zero);
    CollectInSubmissionOrder(p, feed, o, zero);
    assert o[i].Failed();
    assert i in Positions(o, true);
  }

  /** Without fail-fast and with no cancellation before or during the run,
      a fresh pool's Collect returns exactly the tasks' own outcomes, split
      in task-index order, for every order in which the workers finish. */
  lemma CollectRun<T>(p: Pool, tasks: seq<Optional<T>>, order: seq<nat>, cancelAt: nat, zero: T)
    requires p.mode == Unset && Launches(p) && !p.failFast && !p.cancelled
    requires |tasks| == p.size && IsPermutationOf(order, p.size) && cancelAt >= p.size
    ensures Collect(p, Run(p, tasks, order, cancelAt, zero).0, zero)
         == Returned((p.(mode := Collecting, started := true), Partition(tasks)))
  {
    PermutationCovers(order, p.size);
    var o := MidRunOutcomes(tasks, order, cancelAt, zero);
    assert order[..|order|] == order;
    assert o == tasks;
    CollectMidRunCancel(p, tasks, order, cancelAt, zero);
  }

  /** With the token already cancelled, every worker delivers the
      cancellation error. */
  lemma CancelledRunFeed<T>(p: Pool, tasks: seq<Optional<T>>, order: seq<nat>, cancelAt: nat, zero: T)
    requires Launches(p) && p.cancelled
    requires |tasks| == p.size && IsPermutationOf(order, p.size)
    ensures IsDeliveryOf(Run(p, tasks, order, cancelAt, zero).0, seq(p.size, _ => CancelledOutcome(zero)))
  {
    PermutationCovers(order, p.size);
    var cancelled := seq(p.size, _ => CancelledOutcome(zero));
    assert Run(p, tasks, order, cancelAt, zero).0 == Arrivals(cancelled, order);
    ArrivalsDeliver(cancelled, order);
  }

  /** Collecting n cancellation outcomes gives n cancellation errors. */
  lemma AllCancelledPartition<T>(n: nat, zero: T)
    ensures Partition(seq(n, _ => CancelledOutcome(zero))) == Collected([], seq(n, _ => Canceled))
  {
    var cancelled := seq(n, _ => CancelledOutcome(zero));
    var c := Partition(cancelled);
    PartitionAllFail(cancelled);
    assert forall i :: 0 <= i < |c.errors| ==> c.errors[i] == Canceled;
  }

  /** A pool whose token is already cancelled runs no task: Collect returns
      no results and one cancellation error per task. */
  lemma CollectCancelled<T>(p: Pool, tasks: seq<Optional<T>>, order: seq<nat>, cancelAt: nat, zero: T)
    requires p.mode == Unset && Launches(p) && p.cancelled
    requires |tasks| == p.size && IsPermutationOf(order, p.size)
    ensures Collect(p, Run(p, tasks, order, cancelAt, zero).0, zero)
         == Returned((p.(mode := Collecting, started := true), Collected([], seq(p.size, _ => Canceled))))
  {
    var cancelled := seq(p.size, _ => CancelledOutcome(zero));
    var feed := Run(p, tasks, order, cancelAt, zero).0;
    CancelledRunFeed(p, tasks, order, cancelAt, zero);
    CollectDelivery(p, feed, cancelled, zero);
    AllCancelledPartition(p.size, zero);
  }

  /** A pool of size 0 closes its feed at once; Collect returns two empty
      lists (Map over an empty slice). */
  lemma EmptyPoolCollect<T>(cancelled: bool, concurrency: int, failFast: bool, zero: T)
    ensures NewPool(cancelled, concurrency, 0, failFast).Returned?
    ensures var p := NewPool(cancelled, concurrency, 0, failFast).value;
      && p.concurrency <= 0
      && LaunchOf(p) == NoWorkers
      && Collect(p, [], zero) == Returned((p.(mode := Collecting, started := true), Collected([], [])))
  {
  }

  /** Go after Collect panics, Collect after Go or Wait panics, and a
      second Collect panics. */
  lemma MisusePanics<T>(p: Pool, feed: seq<Indexed<T>>, feed2: seq<Indexed<T>>, zero: T)
    ensures Collect(p, feed, zero).Returned? ==> Go(Collect(p, feed, zero).value.0).Panicked?
    ensures Collect(p, feed, zero).Returned? ==>
      Collect(Collect(p, feed, zero).value.0, feed2, zero) == Panicked(CollectMisuse)
    ensures Go(p).Returned? ==> Collect(Go(p).value, feed2, zero) == Panicked(CollectMisuse)
    ensures Wait(p).Returned? && Wait(p).value.Some? ==>
      Collect(Wait(p).value.value, feed2, zero) == Panicked(CollectMisuse)
  {
  }

  /** The submission-order example: five tasks, task 3 fails, the others
      return 2 * i; whatever order the two workers finish in, Collect
      returns [0, 2, 4, 8] and one error. */
  lemma CollectExample(order: seq<nat>, cancelAt: nat)
    requires IsPermutationOf(order, 5) && cancelAt >= 5
    ensures NewPool(false, 2, 5, false).Returned?
    ensures var p := NewPool(false, 2, 5, false).value;
      var tasks := seq(5, i => if i == 3 then Optional(0, Some(TaskFailed("test error"))) else Optional(2 * i, None));
      && Launches(p)
      && Collect(p, Run(p, tasks, order, cancelAt, 0).0, 0).Returned?
      && Collect(p, Run(p, tasks, order, cancelAt, 0).0, 0).value.1 == Collected([0, 2, 4, 8], [TaskFailed("test error")])
  {
    var p := NewPool(false, 2, 5, false).value;
    var tasks := seq(5, i => if i == 3 then Optional(0, Some(TaskFailed("test error"))) else Optional(2 * i, None));
    CollectRun(p, tasks, order, cancelAt, 0);
    var e := TaskFailed("test error");
    assert tasks == [Optional(0, None), Optional(2, None), Optional(4, None), Optional(0, Some(e)), Optional(8, None)];
    assert tasks[..4] == [Optional(0, None), Optional(2, None), Optional(4, None), Optional(0, Some(e))];
    assert tasks[..3] == [Optional(0, None), Optional(2, None), Optional(4, None)];
    assert tasks[..2] == [Optional(0, None), Optional(2, None)];
    assert tasks[..1] == [Optional(0, None)];
    assert tasks[..4][..3] == tasks[..3] && tasks[..3][..2] == tasks[..2] && tasks[..2][..1] == tasks[..1];
    assert Partition(tasks[..1]) == Collected([0], []);
    assert Partition(tasks[..2]) == Collected([0, 2], []);
    assert Partition(tasks[..3]) == Collected([0, 2, 4], []);
    assert Partition(tasks[..4]) == Collected([0, 2, 4], [e]);
  }
}
