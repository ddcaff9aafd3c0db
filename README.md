# Process-pool task executor and error handlers of mix-framework, in Dafny

This project models two parts of mix-framework.

- **The process-pool task executor** (`ProcessPoolTaskExecutor`). A master process runs three pools of workers:
  - *left* workers produce messages into an input queue;
  - *center* workers pop the input queue, handle each message and may forward it;
  - *right* workers pop the output queue.
  
  The master keeps a table from process id to (role, worker id), and a shared control-signal cell with five values: None, Restart, FinishLeft, StopLeft, StopAll. It recreates every worker that exits unless the signal says otherwise. Both signals are handled once only, and each starts a periodic timer. Under a restart signal no worker is recreated, and the master exits by its second timer tick even while workers are still running. Under a terminate signal the left pool is not recreated; the signal escalates to StopAll once no left process remains and both queues are empty, and the master exits once the table is empty. Both timers push null sentinels to unblock the center and right workers parked on an empty queue. A sentinel costs a worker one iteration and nothing else, because the worker loops never read the signal; so a worker ends only by using up maxExecutions iterations or on a failing handler call.
- **The application error handlers** (`Mix\Core\Error`). These cover:
  - the classification of PHP error codes into errors, warnings, notices and fatal errors;
  - the name of a code's class;
  - the reporting-mask test that turns a PHP error into an `ErrorException`;
  - the shutdown hook that hands a fatal last error to the exception handler;
  - the once-only registration latch.

Files:

- `errors.dfy`, module `PhpErrors`:
  - the error-code constants and the classifiers, as functions with lemmas;
  - `AppError` and `AppShutdown`, as functions returning an outcome;
  - the registration latch, as the class `ErrorRegistry`.
- `pool.dfy`, module `PoolModel`:
  - the values of the executor: the mode bits, roles, entries, the table, the signal, and queue values;
  - the respawn rule;
  - `Spawned`, the table that process creation builds;
  - `RunSpec`, the bounded loop of a center or right worker, stated as a recursive function;
  - the lemmas about all of these.
- `supervisor.dfy`, module `TaskExecutor`:
  - the class `Supervisor`, whose fields are the table, the pid counter, the signal cell, the two queues, the handlers' latches and the restart timer's tick counter;
  - one method per operation of the master, and the worker loop `RunWorker` with its loop `Iterations` and one iteration `Iteration`, each proved against the functions of `PoolModel`;
  - scenario methods that run the operations in sequence: the restart cut-over, the drain after a terminate signal, and the two orders of the handlers.

How the host is abstracted:

- Spawning a process inserts the next value of a pid counter.
- The exit of a worker is a call of `RebootProcess(pid)`.
- Each firing of a timer is a call of `RestartTick` or `StopTick`.
- The master's `exit` sets the field `exited`.
- The success or failure of the k-th call of a message handler is the value `outcome(k)` of a parameter.
- A pop on an empty queue, which blocks in the host, ends the worker loop with the exit `Parked`. The blocked loop resumes through a later `RunWorker` call from the iteration `j` and call count that the parked call returned.

### The signal is not monotonic

One might expect the control signal only to escalate, from None to FinishLeft or StopLeft and then to StopAll. In daemon mode the code does not do that, because the restart and terminate handlers each test only their own latch and each overwrites the cell unconditionally:
- a terminate signal after a restart signal lowers Restart to StopLeft;
- a restart signal after a terminate signal raises StopLeft to Restart.

The model follows the code:
- `MayFollow` lists every change the master's methods can make, and every signal-changing method ensures `MayFollow(old(signal), signal)`;
- `RestartThenStop` and `StopThenRestart` show the two orders.

## Model

| member | source | states |
|---|---|---|
| PhpErrors.IsFatal | src/Core/Error.php:128-131 | a fatal code is an error code and neither a warning nor a notice |
| PhpErrors.ClassesDisjoint | src/Core/Error.php:96-121 | no code is in two of the error, warning and notice classes |
| PhpErrors.ClassesPartitionKnownCodes | src/Core/Error.php:96-121 | the three classes are pairwise disjoint and together hold exactly the fifteen predefined error constants |
| PhpErrors.GetType | src/Core/Error.php:76-88 | the name is "warning" exactly for warning codes and "notice" exactly for notice codes; it is "error" for every other code, including unknown ones; it is always one of the three |
| PhpErrors.AppError | src/Core/Error.php:43-49 | an exception is thrown exactly when `reporting & errno != 0`, and it carries the code, message, file and line unchanged |
| PhpErrors.AppErrorUnderFullAndEmptyMask | src/Core/Error.php:45-48 | under E_ALL every predefined code is thrown; under the empty mask nothing is |
| PhpErrors.AppErrorMaskedCode | src/Core/Error.php:45-48 | clearing one predefined code's bit from E_ALL silences exactly that code among the predefined ones |
| PhpErrors.AppShutdown | src/Core/Error.php:54-60 | the hook delegates exactly when a last error exists and its type is fatal; the delegated exception carries the last error's details and has the fatal flag set |
| PhpErrors.AppShutdownIgnoresNonFatal | src/Core/Error.php:56-58 | warnings, notices, user errors and recoverable errors at shutdown are never delegated |
| PhpErrors.ErrorRegistry.constructor | src/Core/Error.php:16 | a fresh runtime has nothing registered, keeps its default mask and has no installations |
| PhpErrors.ErrorRegistry.Register | src/Core/Error.php:21-34 | the first call sets the latch, installs the handlers once and sets the mask to the configured level; any later call changes nothing |
| PhpErrors.RegisterTwice | src/Core/Error.php:24-27 | two registrations leave the first mask in force with one installation |
| PhpErrors.RegisteredMaskDecides | src/Core/Error.php:21-49 | after a first registration with `level` and any later one, the error handler throws for a code exactly when the code shares a bit with `level`, and the exception carries that code |
| PoolModel.AssemblyLineBitIsInert | src/task/ProcessPoolTaskExecutor.php:108-109 | setting or clearing the assembly-line bit changes neither the daemon flag nor the push flag |
| PoolModel.DefaultModeIsDaemonWithoutPush | src/task/ProcessPoolTaskExecutor.php:44 | the default mode 5 is daemon mode without push mode |
| PoolModel.MayFollowNeverResets | src/task/ProcessPoolTaskExecutor.php:135-468 | over the writes of the cell by start, the restart handler and the terminate handler and its timer: once set, the signal never returns to None; FinishLeft can only become StopAll; StopAll can only become Restart |
| PoolModel.HasRoleIffCounted | src/task/ProcessPoolTaskExecutor.php:452-453 | the table has a left entry exactly when the count of left entries is positive |
| PoolModel.RemoveKeepsInvariant | src/task/ProcessPoolTaskExecutor.php:352-354 | removing an exited pid keeps the table invariant: pids below the counter, entries among the configured slots, no slot held twice |
| PoolModel.RemoveCount | src/task/ProcessPoolTaskExecutor.php:352-354 | removing a pid lowers its own role's count by one, leaves the other roles' counts alone and shrinks the table by one |
| PoolModel.RespawnKeepsInvariant | src/task/ProcessPoolTaskExecutor.php:351-364 | removing a pid and recreating its entry under the next pid keeps the invariant and the size of the table |
| PoolModel.RespawnRule | src/task/ProcessPoolTaskExecutor.php:355-363 | under None everything is recreated; under FinishLeft or StopLeft exactly the center and right workers are; under Restart or StopAll nothing is |
| PoolModel.RespawnRuleOnCodes | src/task/ProcessPoolTaskExecutor.php:355-360 | the five signals have distinct integer codes 0 to 4, and a process is recreated exactly when it is not a left process under codes 2 or 3 and the code is neither 1 nor 4 |
| PoolModel.SpawnedShape | src/task/ProcessPoolTaskExecutor.php:183-194 | creating l left, c center and r right processes from base pid b gives exactly the pids b .. b+l+c+r-1; there are l, c and r entries of the three roles, each role's worker ids run over 0 .. count-1, and no two pids share a role and id |
| PoolModel.SpawnedInvariant | src/task/ProcessPoolTaskExecutor.php:183-215 | the created table satisfies the table invariant, with the pid counter just past the last new pid |
| PoolModel.NonEmptyMembers | src/task/ProcessPoolTaskExecutor.php:277-279 | the values a worker does not skip are exactly the values that are not PHP-empty |
| PoolModel.RunSpecPops | src/task/ProcessPoolTaskExecutor.php:275-290 | a worker loop pops at most maxExecutions values and never more than the queue holds; it uses the whole budget unless it parks or fails; it parks only after emptying the queue with budget left; a failure pops at least one value |
| PoolModel.RunSpecQueue | src/task/ProcessPoolTaskExecutor.php:275-290 | the queue left behind is the unpopped suffix; after a failure the failing, non-empty, last-popped message is appended to its end |
| PoolModel.RunSpecHandled | src/task/ProcessPoolTaskExecutor.php:275-290 | the values handled successfully are the non-empty popped values in order, without the failing one |
| PoolModel.RunSpecResume | src/task/ProcessPoolTaskExecutor.php:275-290 | a loop that parks on an empty queue and resumes, once more values arrive, with the iterations and call count it had, ends exactly as one uninterrupted loop over the old and new values together |
| PoolModel.ResumeWithinBudget | src/task/ProcessPoolTaskExecutor.php:275-276 | a loop parks with iterations to spare, and the pops before parking and after resuming together stay within the one budget of maxExecutions |
| PoolModel.SentinelsOnlyUseIterations | src/task/ProcessPoolTaskExecutor.php:277-279 | over a queue of n nulls no handler is called: the loop either spends its whole budget on nulls, leaving the rest, or pops all n and parks |
| PoolModel.AtLeastOnce | src/task/ProcessPoolTaskExecutor.php:280-288 | no message is lost: the non-empty values queued before a loop equal, as a multiset, those handled plus the non-empty values queued after it |
| TaskExecutor.Supervisor.constructor | src/task/ProcessPoolTaskExecutor.php:98-117 | the signal is None, the daemon and push flags are the mode bits 4 and 2, non-daemon mode forces one left process, push mode forces no right process, and the table and queues are empty |
| TaskExecutor.Supervisor.CreateProcess | src/task/ProcessPoolTaskExecutor.php:197-215 | the new process's entry is stored under the counter's pid, which is not yet in the table whenever the table invariant holds, and nothing else in the table changes |
| TaskExecutor.Supervisor.CreateProcesses | src/task/ProcessPoolTaskExecutor.php:183-194 | the table gains exactly the `Spawned` entries for the configured left, center and right counts, in that order, and the pid counter advances by their sum |
| TaskExecutor.Supervisor.Start | src/task/ProcessPoolTaskExecutor.php:120-141 | the queues get the distinct keys key+1 and key+2; the table is the `Spawned` table; in non-daemon mode the signal becomes FinishLeft and the self-terminate is scheduled, while in daemon mode the signal stays None |
| TaskExecutor.Supervisor.RebootProcess | src/task/ProcessPoolTaskExecutor.php:346-365 | an unknown pid changes nothing; a known pid is removed, and its entry is recreated under the next pid exactly when `Respawns(signal, role)`; no other entry changes and the signal is untouched |
| TaskExecutor.Supervisor.PushSentinels | src/task/ProcessPoolTaskExecutor.php:416-423 | one null is appended to the input queue per live center entry and one to the output queue per live right entry |
| TaskExecutor.Supervisor.OnRestartSignal | src/task/ProcessPoolTaskExecutor.php:391-406 | only the first delivery after start in daemon mode acts, setting the signal to Restart and the latch; every other delivery changes nothing |
| TaskExecutor.Supervisor.RestartTick | src/task/ProcessPoolTaskExecutor.php:408-424 | the master exits when the table is empty or when the counter read 1, so by the second counted tick; otherwise the counter becomes 1 and the per-role sentinels are pushed |
| TaskExecutor.Supervisor.OnStopSignal | src/task/ProcessPoolTaskExecutor.php:430-443 | only the first delivery after start acts: it sets the latch, and sets the signal to StopLeft in daemon mode only |
| TaskExecutor.Supervisor.StopTick | src/task/ProcessPoolTaskExecutor.php:445-465 | the master exits exactly when the table is empty; otherwise, when no left entry remains and both queues are empty, the signal becomes StopAll and the per-role sentinels are pushed, and in every other case nothing changes |
| TaskExecutor.Supervisor.Pop | src/task/ProcessPoolTaskExecutor.php:276 | the head of the role's queue is removed and returned; an empty queue parks and is left as it is; the other queue is untouched |
| TaskExecutor.Supervisor.Push | src/task/ProcessPoolTaskExecutor.php:285 | the value is appended to the role's own queue, as the center loop's push-back here and the right loop's at line 331 do; the other queue is untouched |
| TaskExecutor.Supervisor.RunWorker | src/task/ProcessPoolTaskExecutor.php:275-290 | run from iteration j0 with calls0 handler calls made, the loop's exit, handled values and remaining queue are those of `RunSpec` on the queue it started with and the budget maxExecutions - j0 left; the returned iteration j is j0 plus the pops and never passes maxExecutions, and the call count grows by the values handled, so a parked loop resumes from its own j; the other queue is untouched |
| TaskExecutor.Supervisor.Iteration | src/task/ProcessPoolTaskExecutor.php:276-289 | one iteration is one step of `RunSpec`: a parked pop or a failing handler call, which pushes the value back, ends the loop with the run RunSpec gives for the queue before it; otherwise the run before it is the value's contribution, if any, followed by the run over the queue after it with one iteration fewer; the other queue is untouched |
| TaskExecutor.Supervisor.Iterations | src/task/ProcessPoolTaskExecutor.php:275-290 | the iterations left after j0 give exactly the run `RunSpec` gives for the queue they start from, with `calls0` plus the values handled as the call count; the other queue is untouched |
| TaskExecutor.NonDaemonStart | src/task/ProcessPoolTaskExecutor.php:111-135 | outside daemon mode there is exactly one left process whatever was configured, the table holds 1 + center + right entries, the signal is FinishLeft at once and the self-terminate is scheduled |
| TaskExecutor.PushModeStart | src/task/ProcessPoolTaskExecutor.php:114-116 | in push mode no right process is created, the configured left count is kept, and the queue keys are key+1 and key+2 |
| TaskExecutor.RestartThenStop | src/task/ProcessPoolTaskExecutor.php:391-443 | in daemon mode a terminate signal after a restart signal takes the signal from None to Restart and then down to StopLeft |
| TaskExecutor.StopThenRestart | src/task/ProcessPoolTaskExecutor.php:391-443 | in daemon mode a restart signal after a terminate signal takes the signal from None to StopLeft and then up to Restart |
| TaskExecutor.RestartCutover | src/task/ProcessPoolTaskExecutor.php:346-427 | after a restart the exited first left process is not recreated; the first tick exits exactly when nothing else runs, and otherwise pushes one sentinel per center and right process and the second tick exits, with the other left - 1 left, all center and all right entries still in the table |
| TaskExecutor.StopDrain | src/task/ProcessPoolTaskExecutor.php:430-465 | after a terminate signal the exited single left process is not recreated; the next tick exits exactly when nothing else runs, and otherwise escalates to StopAll and pushes one sentinel per center and right process |
| TaskExecutor.StopWaitsForLeft | src/task/ProcessPoolTaskExecutor.php:451-453 | while another left process still runs, a stop tick neither exits nor escalates the signal |
| TaskExecutor.RestartFinishesParkedWorker | src/task/ProcessPoolTaskExecutor.php:275-279 | a center worker parked on an empty queue, resumed with its own j after the restart timer's sentinels, handles nothing and either exhausts maxExecutions on them, ending its loop at j = maxExecutions, or pops all of them and parks again at j = the number of center processes |
| TaskExecutor.WorkerFailure | src/task/ProcessPoolTaskExecutor.php:275-290 | for the center entry of a started master with one process per role, over the queue "a", "", "b" with the second handler call failing, "a" is handled, "" is skipped, and "b" goes back onto the queue |

## Left out

- Process creation, `start()` returning the OS pid (or false on failure), reaping with `wait(false)`, signal installation, timers, `kill`, `exit` and `sleep` are host services. Pids come from a counter, an exit notification is a `RebootProcess` call, a timer firing is a tick call, `exit` is the `exited` flag, and the one-second sleeps before rethrowing are dropped.
- The reaping loop of the child-exit handler calls `RebootProcess` for each reaped pid; the model leaves the sequencing of those calls to the caller. The `TaskException` for an unknown pid is the outcome `NoSuchPid`, and its propagation is not modelled.
- When a handler is not installed, the operating system's default action for that signal is not modelled. The restart handler is installed only by `start()` in daemon mode, and the terminate handler only by `start()`; before then `OnRestartSignal` and `OnStopSignal` change nothing.
- The shared memory table is a single signal field. The input and output queue classes are not part of this model, including their spill to a temporary directory. They are modelled as FIFO sequences, and `isEmpty` as the empty sequence.
- `crc32` of the queue name is the parameter `messageKey`. Only the keys key+1 and key+2 are stated.
- The user callbacks (the start callbacks, the message handlers and the left worker's whole loop) are abstract: only a handler call's success or failure is modelled. The `on` method that registers the callbacks is left out.
- Process titles, disabling coroutines, the application's `handleException` and the runtime calls `error_reporting`, `set_error_handler`, `set_exception_handler` and `register_shutdown_function` are foreign. `ErrorRegistry.Register` records only the mask it sets and how often the handlers were installed; `appException` is the `HandleException` action of `AppShutdown`.
- Popped values are null or strings. PHP-empty values of other types (0, false, an empty array) are not modelled.
- The concurrency between the master and the workers is not modelled. A worker loop runs as one call against the queue fields, and the master's handlers and ticks are sequential calls.
