# gogo, modelled in Dafny

gogo is a small Go library for structured concurrency. It has three parts:

- A future, `Proc`. `Go(ctx, fn)` runs `fn` at most once, and not at all if the context is already done. `Go` and `Result` return the same `Optional[T]` (a result paired with an error) to every caller, and `Wait` waits for it.
- A fixed pool, `Pool`. It runs `size` indexed tasks with at most `concurrency` running at once. There are two ways to consume it, and they exclude each other:
  - `Go`/`Wait` stream the outcomes in completion order.
  - `Collect` returns the successes and the errors, each in task-index order.
- A dynamic pool, `StreamPool`. It accepts tasks through `Submit` until `Close`. `Collect` drains the outcomes in completion order.

Every worker follows one rule:
- If the context is already cancelled, it reports the cancellation error without running the task.
- Otherwise it runs the task.
- With fail-fast set, an error from the task cancels the context for everyone.

The model is sequential:
- A task is the `Optional<T>` it returns when invoked, and `zero` stands for Go's zero value of `T`.
- The context is a boolean token that, once set, stays set.
- Each worker is one atomic step, and the order in which workers report is an arbitrary permutation of the task indices.
- A panic is a `Call.Panicked`. For the library's own panics (mode misuse) it carries the library's message. For Go runtime panics (making a channel of negative size, an index out of range) it carries a short description rather than the runtime's exact text.

Modules:
- `Optionals`: outcomes, errors, index-tagged outcomes, and calls that may panic.
- `Permutations`: arrival orders, and picking or mapping along them.
- `Partitions`: the loop that splits outcomes into results and errors, shared by both Collects.
- `Workers`: the worker rule, a fixed pool's run in arrival order, and `Proc`.
- `Modes`: the `consumeMode` state machine 0/1/2.
- `Gate`: the `guard` channel, seen as a counter of running workers. It is modelled on its own: the pool models run their workers one at a time and do not consult it.
- `FixedPool`: `NewPool`, `start` (which may panic, hang or run the workers), `Go`, `Wait`, `Cancel`, and `Collect` (placement by index, then partition).
- `StreamPools`: `NewStreamPool`, `Submit`, `Close`, `Cancel`, worker completion, and `Collect`.

## Model

| member | source | states |
|---|---|---|
| Optionals.CancelledOutcome | gogo.go:156-158 | a task skipped because the context is done reports a failed outcome whose error is the cancellation error |
| Optionals.ZeroOutcome | gogo.go:233 | an `Optional[T]` slot that no worker filled is a success (nil error) |
| Workers.RunWorker | gogo.go:153-165 | a cancelled token means the task is not invoked and the outcome is the cancellation error; otherwise the outcome is the task's own; the token is set afterwards exactly when it was set before or fail-fast met an error, and it never clears |
| Workers.RunSchedule | gogo.go:144-175 | workers taking their turns in an order (each looks at the token and reports in its own turn) yield one index-tagged outcome per entry, each the task's own or the cancellation error. A pre-cancelled token gives all cancellations. Every worker that looks at the token at or after an outside cancellation (`Pool.Cancel` or the parent context, gogo.go:182-186) gets the cancellation error. With no fail-fast and a live token, the workers that looked at the token before the cancellation keep their own outcomes, and the token ends set exactly when a cancellation happened |
| Workers.FailFastCascade | gogo.go:156-165 | with fail-fast and one-step workers, once a worker reports an error the token is set, and every worker that looks at the token after that report reports the cancellation error |
| Workers.NewProc | gogo.go:85-92 | a new future is unresolved and has run nothing |
| Workers.Done | gogo.go:27-29 | Done holds exactly when an outcome is stored |
| Workers.ProcGo | gogo.go:32-59 | the first call resolves the future under the worker rule (no fail-fast) and runs the task only if the token is live; a resolved future returns its stored outcome unchanged |
| Workers.ProcOnce | gogo.go:32-59 | however many times a fresh future is awaited, the task body runs at most once (once exactly when the first call sees a live token), and every caller gets the same outcome |
| Workers.ResolvedStays | gogo.go:33-58 | once resolved, further Go calls leave the future unchanged and return the stored outcome |
| Workers.GoVoidOutcome | gogo.go:67-79 | a GoVoid future fails exactly when the context was cancelled before it ran |
| Modes.Code | gogo.go:127 | no consumer is stored as 0, Go as 1 and Collect as 2, each mode with its own value |
| Modes.GoMode | gogo.go:193-196 | Go panics exactly when the mode is 2 and otherwise stores 1 |
| Modes.CollectMode | gogo.go:222-224 | Collect's compare-and-swap succeeds exactly from 0, storing 2; otherwise it panics |
| Modes.StreamingOnly | gogo.go:192-216 | any number of Go/Wait calls on a pool not yet collected succeed and leave the mode at 1 |
| Modes.CollectAfterSetPanics | gogo.go:221-224 | once the mode is set, any later Collect in a call sequence panics |
| Modes.ModesExclusive | gogo.go:188-224 | a fresh pool survives a call sequence exactly when it has no Collect or is one single Collect |
| Gate.NewGate | gogo.go:143 | a new guard channel is empty and has the given capacity |
| Gate.Acquire | gogo.go:145 | a send into the guard succeeds exactly when a slot is free, taking one |
| Gate.Release | gogo.go:149 | a receive frees one slot and blocks only when none is taken |
| Gate.GateBound | gogo.go:143-150 | over any interleaving of admissions and completions, running workers never exceed the capacity |
| FixedPool.NewPool | gogo.go:251-272 | a negative size panics. Otherwise the pool keeps the size and records fail-fast, and it starts in mode 0. Concurrency above the size becomes the size, and any other concurrency is kept |
| FixedPool.LaunchOf | gogo.go:134-145 | exactly the pools of size 0 launch no worker. With workers to run, a negative concurrency panics and zero concurrency blocks, each exactly then. A launched pool's gate is empty, with the (positive) concurrency as capacity |
| FixedPool.NewPoolLaunches | gogo.go:251-254 | with positive concurrency and size, the workers start behind a gate of capacity min(concurrency, size) |
| FixedPool.Run | gogo.go:140-178 | once launched, the workers deliver one feed entry per worker, in arrival order: entry j carries the index of the j-th worker to report, so every task index arrives exactly once. Each entry's outcome is the task's own or the cancellation error, and a token set before the run stays set |
| FixedPool.Start | gogo.go:134-180 | start panics exactly when there are tasks and the concurrency is negative. It never closes the feed exactly when there are tasks and the concurrency is 0 (so `Collect` and `Map` hang). Otherwise it closes the feed after the workers' run |
| FixedPool.Cancel | gogo.go:182-186 | Cancel sets the token and changes nothing else |
| FixedPool.Go | gogo.go:192-208 | Go succeeds exactly when Collect has not been called. It leaves the pool streaming, started and with its output stream made, and changes nothing else |
| FixedPool.Wait | gogo.go:212-216 | Wait panics exactly after Collect, or when there are tasks and the launcher's guard channel cannot be made (negative concurrency). It never returns exactly when there are tasks and the concurrency is 0. Otherwise the pool launches, and Wait leaves it streaming, started and with its stream made, changing nothing else |
| FixedPool.GoRepeatable | gogo.go:188-207 | a second Go changes nothing, so it returns the same stream |
| FixedPool.Streamed | gogo.go:198-205 | the stream Go returns forwards the feed's outcomes one for one, in arrival order |
| FixedPool.Arrivals | gogo.go:167-173 | the feed pairs each reporting worker's index with that task's outcome |
| FixedPool.StreamDeliversAll | gogo.go:198-205 | the stream forwards every outcome exactly once, in any arrival order |
| FixedPool.Place | gogo.go:232-236 | placing the feed by index yields one slot per task |
| FixedPool.PlaceDistinct | gogo.go:234-236 | when no index repeats in the feed, placing puts every entry's outcome at its index |
| FixedPool.RunDelivers | gogo.go:140-178 | under any options and cancellation point, a launched run delivers one outcome per task (each the task's own or the cancellation error), read back by placing the feed by index |
| FixedPool.RunStreamDeliversAll | gogo.go:196-205 | the stream Go returns over a launched run forwards every task's outcome exactly once, under any options and completion order |
| FixedPool.PlaceConsistent | gogo.go:233-236 | placing by index puts each arrived task's outcome at its index and leaves the zero outcome where none arrived |
| FixedPool.ArrivalsDeliver | gogo.go:144-177 | workers reporting in any permutation deliver every task's outcome at its index |
| FixedPool.PlaceDelivery | gogo.go:227-236 | placing a full delivery restores submission order |
| FixedPool.Collect | gogo.go:221-249 | Collect returns only from mode 0, moving it to 2; from any other mode it panics with the misuse message |
| FixedPool.CollectSizes | gogo.go:238-248 | whenever Collect returns, len(results) + len(errors) equals the size |
| FixedPool.CollectDelivery | gogo.go:221-248 | on a full delivery, Collect splits the outcomes in task-index order |
| FixedPool.CollectInSubmissionOrder | gogo.go:218-248 | on a full delivery, results[k] is the result of the k-th successful task and errors[k] the error of the k-th failed task, in ascending index order |
| FixedPool.CollectArrivalIndependent | gogo.go:218-248 | Collect's answer is the same for every order in which the workers report |
| FixedPool.MidRunOutcomes | gogo.go:156-160 | under an outside cancellation, a task keeps its own outcome exactly when its worker looked at the token before the cancellation, and otherwise has the cancellation error |
| FixedPool.MidRunFeed | gogo.go:140-178 | without fail-fast, a launched run with an outside cancellation delivers exactly those outcomes |
| FixedPool.CollectMidRunCancel | gogo.go:182-248 | with a cancellation during the run, Collect returns, in index order, the own outcomes of the tasks whose workers looked at the token before it and a cancellation error for every other task |
| FixedPool.RunIsArrivals | gogo.go:140-178 | without fail-fast, the run's feed is the arrival, in the order the workers looked at the token, of each task's outcome under the cancellation point |
| FixedPool.CollectReportsFailure | gogo_test.go:281-297 | if some task fails, then under any options, cancellation point and completion order, Collect returns at least one error: the failing task's slot holds its own error or the cancellation error |
| FixedPool.CollectRun | gogo.go:134-248 | with a pool that launches, a live token, no cancellation during the run and no fail-fast, Collect returns exactly the tasks' own outcomes, split in index order, for every completion order |
| FixedPool.CancelledRunFeed | gogo.go:156-158 | with the token already set, every worker delivers the cancellation error |
| FixedPool.AllCancelledPartition | gogo.go:240-246 | n cancellation outcomes collect into no results and n cancellation errors |
| FixedPool.CollectCancelled | gogo.go:134-248 | a pool whose context is already cancelled returns no results and one cancellation error per task |
| FixedPool.EmptyPoolCollect | gogo.go:136-139 | a pool of size 0 launches nothing and Collect returns two empty lists |
| FixedPool.MisusePanics | gogo.go:192-224 | Go after Collect panics; Collect after Go, after Wait, or a second time panics with the misuse message |
| FixedPool.CollectExample | gogo_test.go:204-219 | five tasks where task 3 fails and the others return 2i collect to [0, 2, 4, 8] and one error, whatever the completion order |
| Partitions.Partition | gogo.go:238-246 | every outcome lands in exactly one of the two lists |
| Partitions.Positions | gogo.go:240-246 | the positions of the failed (or successful) outcomes: in range, of that status, all of them, strictly ascending |
| Partitions.ResultsByPositions | gogo.go:240-246 | the results are exactly the successful outcomes' results, in position order |
| Partitions.ErrorsByPositions | gogo.go:240-246 | the errors are exactly the failed outcomes' errors, in position order |
| Partitions.ErrorsIffAnyFailed | gogo.go:240-246 | Collect's error list is non-empty exactly when some outcome failed |
| Partitions.PartitionAllSucceed | gogo.go:240-246 | with no failure, the results are all the results in order and there are no errors |
| Partitions.PartitionAllFail | gogo.go:240-246 | with every outcome failed, the errors are all the errors in order and there are no results |
| Partitions.PartitionConcat | gogo.go:240-246 | collecting a concatenation is concatenating the collections |
| Partitions.PartitionPermutation | gogo.go:427-433 | reordering the outcomes reorders, but does not change, the results and the errors |
| Permutations.PermutationCovers | gogo.go:144-146 | an arrival order of n workers has n entries, all task indices, covering every index |
| Permutations.PermutationDistinct | gogo.go:144-146 | no two workers of an arrival order carry the same task index |
| Permutations.PickAllIsPermutation | gogo.go:201-203 | picking outcomes along an arrival order rearranges them, dropping and duplicating none |
| StreamPools.NewStreamPool | gogo.go:312-336 | a negative concurrency panics; otherwise the result buffer is the configured size when positive and the concurrency otherwise, and the pool starts open and empty |
| StreamPools.Submit | gogo.go:394-401 | after Close, Submit returns ErrPoolClosed and changes nothing; before, it accepts the task and returns nil |
| StreamPools.Close | gogo.go:405-409 | Close marks the pool closed and changes nothing else |
| StreamPools.CloseIdempotent | gogo.go:405-409 | a second Close has no further effect |
| StreamPools.Cancel | gogo.go:412-414 | Cancel sets the token and changes nothing else |
| StreamPools.Complete | gogo.go:337-365 | a finishing worker leaves the pending set and appends its outcome under the worker rule. The token is then set exactly when it was set before or fail-fast met an error. Nothing else changes |
| StreamPools.Collect | gogo.go:424-435 | Collect returns exactly when the pool is closed and no worker is pending. It then returns the delivered outcomes split into results and errors, and drains them. It changes nothing else, and a blocked call changes nothing |
| StreamPools.StepInvariant | gogo.go:367-386 | every step keeps each accepted task pending, delivered or drained; the pool never reopens, accepts nothing after Close, and the token never clears |
| StreamPools.RunInvariant | gogo.go:367-386 | the same over any sequence of submissions, closes, cancellations, completions and collects |
| StreamPools.CollectCounts | gogo.go:424-435 | Collect reports one entry per delivered outcome; with the earlier drains, that is one per accepted task |
| StreamPools.CompleteKeepsOutcomes | gogo.go:346-363 | with a live token and no fail-fast, a finishing worker moves its task's own outcome from pending to delivered |
| StreamPools.CompleteAllKeepsOutcomes | gogo.go:337-365 | the same for any sequence of worker completions |
| StreamPools.CollectAnyCompletionOrder | gogo.go:422-435 | without cancellation or fail-fast, a closed pool collects the outcomes already delivered plus its pending tasks. The successes and errors are the same up to order, whatever the completion order and whether workers finished before or after Close |
| StreamPools.CompleteKeepsFailure | gogo.go:349-363 | finishing a worker keeps some failure among the delivered and pending outcomes: a failed task is delivered as its own error or the cancellation error |
| StreamPools.FailureSurvives | gogo.go:337-365 | under any options, token and completion order, a failure among the delivered or pending outcomes is never lost |
| StreamPools.StreamCollectReportsFailure | gogo_test.go:343-362 | if some submitted task fails, then under any options and token, a Collect that returns reports at least one error |
| StreamPools.StreamCollectExample | gogo_test.go:299-322 | tasks returning 1, 2 and 3 submitted to a pool of concurrency 2 and then closed collect to 1, 2 and 3 in some order, with no error |

## Left out

- Goroutines, channels, `sync.Once`, `WaitGroup` and atomics are not modelled as such. Each worker is one atomic step, and the schedule is an arbitrary permutation of the task indices (fixed pool) or an arbitrary choice of pending worker (stream pool).
- Blocking and timing are left out. Some blocking calls are modelled as "no answer yet" (`None`): a fixed pool with tasks and zero concurrency never closes its feed (`Start`), and `StreamPool.Collect` blocks before Close or while workers run. A gate step that would block is not taken. Nothing says a call eventually completes.
- Workers.FailFastCascade: a worker's token check (gogo.go:156) and its report (gogo.go:167) are one step in the model. In the source, with concurrency 2 or more, workers that checked the token before a failing worker's cancel (gogo.go:164) still run their tasks and may report their own outcomes after the failure. The cascade is stated only for workers that look at the token after the failing report.
- FixedPool.Go: it returns as soon as the mode is set and the stream is made. The launcher goroutine's later panic (negative concurrency) or hang (zero concurrency) is not part of its result; `Wait` and `Start` model those.
- The fixed-pool `Collect` is applied to the feed that `Start` produces. A pool whose start panics or blocks therefore never reaches it.
- The context is a boolean token. The parent's cancellation is modelled: before the run by `NewPool`'s `cancelled`, during it by `cancelAt`. Deadlines, the rest of the context tree and `ctx.Err()` values other than cancellation are left out. Tasks cannot observe the context while they run.
- The race between `StreamPool.Submit` and `Close` is resolved as whichever happens first. A Submit that Go's `select` could still accept after Close is not modelled.
- `Map` and `ForEach` are thin wrappers over `NewPool` and `Collect`, and they inherit `Collect`'s contract; they are not modelled separately.
- `StreamPool.Results` and the back-pressure of the result buffer `bufSize` are left out. Only the computed size is modelled.
- `Proc.Done`'s atomic flag and `Proc.Wait`'s WaitGroup are left out; `Done` is modelled as "an outcome is stored".
- Workers.RunSchedule: the feed order stands for the order in which workers look at the token (gogo.go:156). In the source, a worker that looked before an outside cancellation can report its own outcome (gogo.go:167) after workers that looked later have reported the cancellation error. The model lists own outcomes first.
- FixedPool.MidRunOutcomes: the feed order stands for the order in which workers look at the token (gogo.go:156). In the source, a worker that looked before an outside cancellation can report its own outcome (gogo.go:167) after workers that looked later have reported the cancellation error. The model lists own outcomes first.
- FixedPool.MidRunFeed: the feed order stands for the order in which workers look at the token (gogo.go:156). In the source, a worker that looked before an outside cancellation can report its own outcome (gogo.go:167) after workers that looked later have reported the cancellation error. The model lists own outcomes first.
- FixedPool.CollectMidRunCancel: the feed order stands for the order in which workers look at the token (gogo.go:156). In the source, a worker that looked before an outside cancellation can report its own outcome (gogo.go:167) after workers that looked later have reported the cancellation error. The model lists own outcomes first. Collect places outcomes by index, so its answer does not depend on the report order (`CollectArrivalIndependent`).
- FixedPool.RunIsArrivals: the feed order stands for the order in which workers look at the token (gogo.go:156). In the source, a worker that looked before an outside cancellation can report its own outcome (gogo.go:167) after workers that looked later have reported the cancellation error. The model lists own outcomes first.
- StreamPools.Collect: with concurrency 0 the real pool blocks forever on its first dispatch. The model does not rule out completions in that case.
- Workers.RunSchedule: under fail-fast it states only that each outcome is the task's own or the cancellation error. `FailFastCascade` states which.
- The example programs and the HTTP-based tests are left out.
