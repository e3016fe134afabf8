# A verified model of the JEC action dispatcher

JEC polls SQS queues, hands each received message to an elastic pool of workers, and lets a worker delete
the message and run the script its action is mapped to. This project models that path from the first token
to the removal of the cloned repositories, with the goroutines, locks and channels that matter to it, and
proves what the parts promise each other and what the whole promises of every message.

Two forms are used side by side.

* A **protocol** is a state, a type of steps and a function `Next(state, step)` that is `None` where the step
  is not enabled. One step is one atomic action of one goroutine: what happens under one hold of a mutex, or
  one channel or wait group operation. `Reachable` quantifies over every finite sequence of steps, so a
  theorem about a reachable state is a theorem about every interleaving of any number of goroutines.
* A **class** has the fields of the Go object, and its methods are the Go methods (for the pool: its atomic
  sections). Their contracts give the whole new state, in terms of a specification function or of a step of
  the protocol.

| file | what it holds |
|---|---|
| `Runs` | runs and reachable states of any protocol, and the induction behind every invariant |
| `ReadWriteLock` | a reader/writer lock and the discipline that keeps it exclusive |
| `Counting` | sums over the table of goroutines, which is what a shared counter is |
| `Pool`, `PoolInvariant`, `PoolTheorems` | the worker pool as a protocol, its inductive invariant, what callers get from it |
| `PoolAnswers` | what Submit answers, and why |
| `PoolProgress` | a Stop under way is never stuck and ends within a bound |
| `WorkerPool` | the same pool as an object: each method takes exactly one step of the protocol, in 32-bit arithmetic |
| `JobProtocol`, `JobTheorems`, `JobObject` | one SQS job under concurrent calls of Execute, with the sender goroutine |
| `SqsProvider`, `ExpiryFlag` | the client of a queue, and its two-lock expiry flag as a protocol |
| `Poller` | start, stop and one poll |
| `Delivery`, `DeliveryInvariant`, `DeliveryTheorems` | pollers, pool and jobs composed: what becomes of a message |
| `Processor` | reconciliation of the live pollers with each token |
| `Lifecycle`, `LifecycleProof`, `LifecycleProgress` | the start and stop order of processor, pollers, pool and repositories |
| `System`, `SystemProof`, `SystemTheorems`, `SystemProgress` | `Lifecycle` and `Delivery` in step: the whole program, and what becomes of every message in it |
| `Repositories`, `RepositoryLocks` | downloading, and the reader/writer exclusion of scripts, pulls and removals |
| `Slices`, `CommandLine`, `CommandLineProof`, `Environment` | Go slices and append; arguments and environment of concurrent scripts |
| `MessageHandler` | what a message resolves to and what is reported |
| `Retryer` | the backoff loop |

The step functions and the code they stand for: `Pool.StartNext`, `StopNext`, `SubmitNext` and `RunNext` are
worker_pool/worker_pool.go:87-151 and 174-201; `Pool.WorkerNext` is worker_pool/worker.go:21-107;
`JobProtocol.ExecNext` is queue/job.go:53-106; `ExpiryFlag.ThreadNext` is queue/sqs_provider.go:67-152 and
170-178; `Delivery.PollerNext` is queue/poller.go:143-168; `Lifecycle.MainNext`, `RunnerNext` and `PollerNext`
are queue/processor.go:95-150, 226-321 and queue/poller.go:189-213; `RepositoryLocks.ThreadNext` is
git/repository.go:114-142 with queue/message.go:118-158; `CommandLine.RunNext` is queue/message.go:137-141
followed by runbook/executor.go:36-55. `System.Next` takes a step of `Lifecycle.Next` and a step of
`Delivery.Next` together wherever one action of the program is a step of both.

## What the code needs

* **One life per object.** `quit`, `wakeUp` and `jobQueue` are never made anew, so starting a pool or a
  processor after its Stop is outside the model. A poller that is started again is in it: its next Stop panics.
* **`Execute` returns.** The code recovers from no panic in a worker (worker_pool/worker.go:27). In particular
  a message that has attributes has both attributes read at queue/job.go:77-78.
* **`quitNow` is never closed**, so the branches that receive from it are left out.
* **A token's refresh periods are positive**, since `time.NewTicker` panics otherwise.
* **Configuration lists have arrays of their own**: no slice of the configuration shares the backing array of
  the global environment.
* **Every error of `http.Client.Do` is a `net.Error`**, which it is (`*url.Error`); otherwise
  retryer/retryer.go:76 would use a nil response.

## What turned out not to hold

* *Stop drains every accepted job* fails for a pool with a minimum of 0 and a positive queue size, which `New`
  permits: `PoolTheorems.BufferedJobIsLost` is such a run, and `PoolTheorems.DrainsExactlyWhen` shows that
  these configurations are the only ones. `SystemTheorems.SettlesExactlyWhen` says the same of the messages of
  the whole program.
* *A job is marked finished exactly if its handler reported no error* fails because the goroutine that sends the result
  assigns the same `err` (queue/job.go:89) that line 99 reads. `JobTheorems.SenderCanOverruleHandler` has both wrong
  outcomes. It holds in every run exactly if there is no result to send, the guard of queue/job.go:85, or the
  message is for somebody else (`JobTheorems.AlwaysTellsExactlyWhen`); `MessageHandler.AlwaysTellsStartedExactlyWhen`
  says for which message bodies that is. `JobTheorems.TellsHandlersAnswerExactlyWhen` says it run by run.
* *A script gets exactly its own environment* fails if the global environment has spare capacity: two
  executions append into the same cells. `Environment.ExactExactlyWhen` gives the configurations for which it
  always holds; no spare capacity is one sufficient case.
* *A current client that has answered ExpiredToken has the flag set* fails for an answer that is recorded while a
  refresh is between the swap of the client and the clearing of the flag: the refresh then clears it
  (`ExpiryFlag.ExpiryCanBeLost`). Whenever no refresh is in between, the flag is set exactly if the current client
  has answered ExpiredToken and that was recorded while no refresh was in between (`ExpiryFlag.FlagIsExact`).

The code also differs from its own messages in two places, where the model follows the code: NewProcessor logs
that a visibility timeout above 12 hours is not allowed but accepts it (queue/processor.go:74-77), and a failed
client refresh is logged as an error and then as a success (queue/processor.go:239-243).

## Model

| member | source | states |
|---|---|---|
| Pool.Normalise | worker_pool/worker_pool.go:43-73 | Whatever the configuration, afterwards 1 <= max, 0 <= min <= max, the queue size is not negative and both periods are positive; every setting that is usable is kept even if another is not, and the others get 12, 4 (or max, if that is less), 0, 6000 and 15000. |
| PoolInvariant.ReachableInv | worker_pool/worker_pool.go:87-151 | Over every run of any number of Start, Stop and Submit calls and workers, the counting, conservation, locking, channel and minimum invariants hold together. |
| PoolInvariant.StepKeepsInv | worker_pool/worker_pool.go:87-254 | Each atomic action of Start, Stop, Submit, the run goroutine or a worker keeps that invariant, from any state that satisfies it. |
| PoolTheorems.CountersAreExact | worker_pool/worker_pool.go:215-254 | numberOfCurrentWorker is the workers registered or reserved and not yet given back; current minus idle is the workers inside doJob; 0 <= idle <= current <= max, so at most max jobs execute at once. |
| PoolTheorems.AvailabilityIsExact | worker_pool/worker_pool.go:203-207 | NumberOfAvailableWorker is max minus the executing workers, lies in 0..max, overflows int32 at no intermediate step, and is never less than the slots without a job. |
| PoolTheorems.NeverFaults | worker_pool/worker_pool.go:103-151 | No Submit sends on the closed jobQueue, no channel is closed twice, no workersWg.Add comes after a Wait has begun and the wait group never goes negative; once quit is closed no Submit holds a reservation. |
| PoolTheorems.KeepsTheMinimum | worker_pool/worker.go:52-107 | From the end of Start's counting until jobQueue is closed and drained, at least min workers are registered or being spawned, whatever the timeouts and receives. |
| PoolTheorems.BufferedJobHasWorker | worker_pool/worker.go:52-107 | With min >= 1 a non-empty buffer always has a live worker or one about to be spawned. |
| PoolTheorems.AcceptedJobsAreConserved | worker_pool/worker_pool.go:120-151 | In every reachable state the Submits of a job that were answered true are as many as its copies in the buffer, with a worker, and executed. |
| PoolTheorems.StopLeavesNoWorker | worker_pool/worker_pool.go:103-118 | Once a Stop has returned, both counters and the wait group are 0, every worker has exited, and every accepted job has been executed or is left in the buffer. |
| PoolTheorems.StopDrains | worker_pool/worker_pool.go:103-118 | With min >= 1 or no buffer, once Stop has returned every job was executed exactly as often as it was accepted. |
| PoolTheorems.BufferedJobIsLost | worker_pool/worker_pool.go:50-63 | With min = 0 and a positive queue size there is a run in which Submit returns true, Stop returns, and the job was never executed. |
| PoolTheorems.DrainsExactlyWhen | worker_pool/worker_pool.go:43-151 | Stop drains in all runs if and only if min >= 1 or the queue size is 0. |
| PoolAnswers.AnswerIsRight | worker_pool/worker_pool.go:120-151 | Whenever a Submit gets its answer: the not-running error exactly if the pool is not running; false only if the pool is of fixed size and the channel full, or max workers are counted; true only with the job in the channel, with a worker that was at its receive, or with a new worker. |
| PoolAnswers.DefaultOnlyWhenFull | worker_pool/worker_pool.go:131-134 | A Submit goes past its select without having placed the job only if the channel has no room. |
| PoolAnswers.LoneSubmitGrows | worker_pool/worker_pool.go:139-146 | In any reachable state with a full channel, min < max and fewer than max workers, an undisturbed Submit answers true and starts a new worker with its job, counted in both. |
| PoolAnswers.LoneSubmitIsRefused | worker_pool/worker_pool.go:134-149 | With a full channel and a pool of fixed size or max workers counted, an undisturbed Submit answers false and changes nothing. |
| PoolAnswers.LoneSubmitIsPlaced | worker_pool/worker_pool.go:131-133 | With room in the channel the job goes there, and with a worker at its receive it can go to that; either way the answer is true. |
| PoolProgress.WorkerGoesOn | worker_pool/worker.go:21-107 | In every reachable state a worker that has not exited can take its next action unless it is at its receive with an empty channel; at its receive it takes the oldest job. |
| PoolProgress.StopIsNeverStuck | worker_pool/worker_pool.go:103-118 | In every reachable state with a Stop that has closed quit and not returned, some action of the pool itself is enabled, with no new call and no ticker. |
| PoolProgress.StepDrains | worker_pool/worker.go:21-107 | While such a Stop is under way, every action leaves strictly less to do before it returns, a ticker adds at most one, and a new call changes nothing. |
| PoolProgress.DrainIsBounded | worker_pool/worker_pool.go:185-201 | However a run goes on while a Stop is under way, the pool takes no more actions than were left to do and tickers have fired. |
| PoolProgress.StopCanReturn | worker_pool/worker_pool.go:103-118 | From every such state Stop can return by the pool's own actions, within the bound. |
| WorkerPool.WorkerPool.constructor | worker_pool/worker_pool.go:43-85 | A new pool satisfies the invariant, in the initial state of the protocol, under the normalised configuration. |
| WorkerPool.WorkerPool.NumberOfAvailableWorker | worker_pool/worker_pool.go:203-207 | In int32 arithmetic without overflow, max minus the busy workers. |
| WorkerPool.WorkerPool.CompareAndIncrementCurrentWorker | worker_pool/worker_pool.go:234-243 | Both counters go up by one exactly if there was room below max. |
| WorkerPool.WorkerPool.CompareAndDecrementCurrentWorker | worker_pool/worker_pool.go:245-254 | Both counters go down by one exactly if there were more than min workers. |
| WorkerPool.WorkerPool.AddNumberOfCurrentAndIdleWorker | worker_pool/worker_pool.go:215-220 | Both counters change by num, without overflow. |
| WorkerPool.WorkerPool.AddNumberOfIdleWorker | worker_pool/worker_pool.go:228-232 | The idle counter changes by num, without overflow. |
| WorkerPool.WorkerPool.CheckAndLaunch | worker_pool/worker_pool.go:91-98 | Start's check and launch are one step of the protocol; it launches exactly if the pool was not running. |
| WorkerPool.WorkerPool.CountInitialWorkers | worker_pool/worker_pool.go:174-176 | Counting the initial workers is one step of the protocol and overflows nothing. |
| WorkerPool.WorkerPool.SpawnInitialWorker | worker_pool/worker_pool.go:179-182 | One more worker without a job, and one fewer to come. |
| WorkerPool.WorkerPool.SendOrDefault | worker_pool/worker_pool.go:131-137 | The select sends exactly if a worker is at its receive to take the job or the channel has room, into an open channel; otherwise a pool of fixed size refuses and any other looks for a new worker; each is one step of the protocol. |
| WorkerPool.WorkerPool.ReserveWorker | worker_pool/worker_pool.go:139-149 | A worker is reserved exactly if fewer than max are counted, otherwise the job is refused. |
| WorkerPool.WorkerPool.CountWorker | worker_pool/worker_pool.go:140 | workersWg.Add(1) never comes after a Wait has begun. |
| WorkerPool.WorkerPool.SpawnWorker | worker_pool/worker_pool.go:141-145 | One more worker, which begins with the job, and the answer is true. |
| WorkerPool.WorkerPool.CheckAndClear | worker_pool/worker_pool.go:107-110 | Stop goes on exactly if the pool was running, and clears the flag. |
| WorkerPool.WorkerPool.CloseQuitChannel | worker_pool/worker_pool.go:113 | quit is open when Stop closes it. |
| WorkerPool.WorkerPool.CloseJobQueue | worker_pool/worker_pool.go:191-193 | jobQueue is open when the run goroutine closes it. |
| WorkerPool.WorkerPool.Receive | worker_pool/worker.go:64-71 | A receive takes the oldest buffered job, or reports a closed and drained channel. |
| WorkerPool.WorkerPool.BeginJob | worker_pool/worker.go:23 | The idle counter is given up for the job, in range. |
| WorkerPool.WorkerPool.EndJob | worker_pool/worker.go:22 | The idle counter is taken back, in range. |
| WorkerPool.WorkerPool.LeaveIfSurplus | worker_pool/worker.go:76-84 | A worker whose ticker fires leaves exactly if more than the minimum are counted, by one step of the protocol. |
| WorkerPool.WorkerPool.Deregister | worker_pool/worker.go:67-70 | A worker that sees the closed channel gives its place back, in range. |
| WorkerPool.WorkerPool.Done | worker_pool/worker.go:39 | The deferred Done never takes the wait group below zero. |
| JobProtocol.ReachableInv | queue/job.go:53-106 | Over every run of any number of Execute calls and the sender: at most one call is past the state check, and what has been deleted, handled and decided fits the state. |
| JobTheorems.OneShot | queue/job.go:53-105 | For any number of concurrent calls, one at most passes the state check; DeleteMessage and Handle run at most once, Handle only after the deletion succeeded and if the owner or the channel attribute is the owner's id. |
| JobTheorems.CanBeHandledExactlyWhen | queue/job.go:76-83 | Some run handles the message if and only if it has attributes and one of the two, whichever, is the owner's id. |
| JobTheorems.LoneExecuteHandles | queue/job.go:53-105 | A lone call of Execute on such a message deletes it, handles it and ends finished or failed as Handle says. |
| JobTheorems.NobodyIsStuck | queue/job.go:53-106 | In every reachable state a call that has not returned can go on, or waits for one that can, or for the queue or the handler to answer. |
| JobTheorems.OneCallDecides | queue/job.go:58-105 | A call that has returned found the job in a terminal state that one call alone decided; it returned that decision, or the already-run error. The message was handled exactly if it was deleted and is for this owner, and is marked finished exactly if besides the error that was read is nil. |
| JobTheorems.StateMoves | queue/job.go:58-105 | The state moves only from initial to executing to finished or error. |
| JobTheorems.TellsHandlersAnswerExactlyWhen | queue/job.go:83-104 | For a handled job, finished means that Handle reported no error if and only if the sender's result was not written before the read at line 99 or agreed with Handle's. |
| JobTheorems.AlwaysTellsExactlyWhen | queue/job.go:85-104 | Finished means that Handle reported no error, in every run, if and only if Handle returns no result to send or the message is not for this owner. |
| JobTheorems.SenderCanOverruleHandler | queue/job.go:85-104 | Runs in which a handled job is marked failed and a failed one finished. |
| JobObject.Job.Execute | queue/job.go:53-106 | From the initial state: handled exactly if the deletion succeeds and the owner or the channel attribute is the owner's id; finished exactly if besides the error read at line 99 is nil; each other outcome has its own error; in any other state nothing happens. |
| SqsProvider.SqsProvider.constructor | queue/sqs_provider.go:41-53 | A new provider's client has key id, secret, token and region of its own properties, and is not expired. |
| SqsProvider.SqsProvider.CallClient | queue/sqs_provider.go:67-132 | A call goes through a client with key id, secret, token and region of the current properties, and afterwards the flag is set exactly if it was or the answer is an error whose code contains ExpiredToken. |
| SqsProvider.SqsProvider.CheckExpiration | queue/sqs_provider.go:170-178 | The flag is only ever set, and by exactly those errors. |
| SqsProvider.SqsProvider.RefreshClient | queue/sqs_provider.go:134-168 | On success the client has the new key id, secret and token and the old region, and role and flag change with it; the queue configuration, so the url, does not; on failure nothing changes, the client included. |
| ExpiryFlag.FlagIsNotStale | queue/sqs_provider.go:61-178 | With any number of concurrent calls and refreshes: unless a refresh is between swap and clear, a set flag means that the client now installed has answered ExpiredToken. |
| ExpiryFlag.FlagIsExact | queue/sqs_provider.go:61-178 | Whenever no refresh is between swap and clear, the flag is set if and only if the client now installed has answered ExpiredToken and that was recorded while no refresh was in between. |
| ExpiryFlag.QuietExpiryIsKept | queue/sqs_provider.go:134-178 | Once such an answer of the current client is recorded, the flag stays set until that client is replaced. |
| ExpiryFlag.ExpiredAnswerIsFlagged | queue/sqs_provider.go:77-80 | When an ExpiredToken answer is checked, the client it came through is still the one installed, and the flag is set. |
| ExpiryFlag.RefreshReplacesAndClears | queue/sqs_provider.go:142-149 | A refresh with a session installs a client that has not yet answered, and its last action clears the flag. |
| ExpiryFlag.NobodyIsStuck | queue/sqs_provider.go:77-149 | In every reachable state a call or refresh that is not done can go on, or waits for one that can, or for the client or the session. |
| ExpiryFlag.ExpiryCanBeLost | queue/sqs_provider.go:142-149 | A run in which the new client's expiry is recorded before the refresh clears the flag, and is lost. |
| Poller.Clamp | queue/processor.go:62-77 | Afterwards at least one message, a positive interval, at least 15 seconds; every usable setting is kept, and the others become 10, 100 and 30. |
| Poller.BatchIsPartitioned | queue/poller.go:143-168 | For every batch and every sequence of Submit answers each message is accepted or released, exactly once and never both; from the first error on all are released. |
| Poller.BatchIsInOrder | queue/poller.go:143-168 | Messages are accepted in the order of the batch, and released in that order. |
| Poller.RequestIsBounded | queue/poller.go:121-129 | In every reachable state of the pool a poller that asks for messages asks for at least 1, at most MaxNumberOfMessages, at most the workers available and at most max, and for exactly one of the first two limits. |
| Poller.Poller.constructor | queue/poller.go:40-59 | A new poller has never been started or stopped. |
| Poller.Poller.Start | queue/poller.go:69-83 | Starts a poller that does not run, be it for the first time or again; a running poller reports an error and is left as it is. |
| Poller.Poller.Stop | queue/poller.go:85-100 | A running poller ends with both channels closed, unless it had been stopped before, when closing them again panics; a poller started once never panics; one that does not run reports an error. |
| Poller.Poller.TerminateMessageVisibility | queue/poller.go:102-117 | Every message of the range is attempted, in order, whatever the earlier answers were. |
| Poller.Poller.Poll | queue/poller.go:119-168 | How many messages are requested, the smaller of MaxNumberOfMessages and the available workers, with which visibility timeout; which are submitted, accepted and released, in order; and when the poller waits, for every answer of pool and queue; after an error nothing more is submitted. |
| DeliveryInvariant.ReachableInv | queue/poller.go:143-166 | Over every interleaving of pollers, pool and jobs: each message is in one place, each Submit belongs to one message, and only accepted jobs are executed. |
| DeliveryInvariant.HeldJobIsAccepted | worker_pool/worker.go:21-34 | The job a worker executes was accepted by the Submit of its own message. |
| DeliveryTheorems.HandledAtMostOnce | queue/job.go:53-105 | Each received message is deleted at most once and handled at most once, and then only after its own deletion succeeded and if its owner or channel attribute is the owner's id. |
| DeliveryTheorems.ExecutedAtMostOnce | worker_pool/worker_pool.go:120-151 | The job of a message is buffered, with a worker, or executed exactly once in all if it was accepted, and none of these otherwise. |
| DeliveryTheorems.ReleasedIsNeverHandled | queue/poller.go:158-165 | A message whose visibility was ended was released once, and its job is never executed, deleted or handled under that receipt. |
| DeliveryTheorems.EveryMessageIsInOnePlace | queue/poller.go:143-166 | Once its poller has decided about it, a message is accepted by the pool or released, and never both. |
| DeliveryTheorems.NothingIsLost | worker_pool/worker_pool.go:103-118 | Once the pool's Stop has returned, under the drain condition, every decided message was released once, or was executed once and its job is in the terminal state its answers lead to. |
| DeliveryTheorems.WorkerGoesOn | worker_pool/worker.go:21-34 | In every reachable state a worker inside a job can call Execute, or Execute can go on, or has returned and the worker goes on. |
| DeliveryTheorems.PollerGoesOn | queue/poller.go:143-166 | A poller with messages submits the one it is at, gives back what was refused or is left after an error, and takes the answer of its Submit as soon as there is one. |
| Processor.PollerExistsWhen | queue/processor.go:232-257 | Before the removals, there is a poller for a url exactly if there was one or some entry for it could be added, duplicates included. |
| Processor.KeptRoleIsLastRefresh | queue/processor.go:235-245 | A kept poller has the role of the last entry for its url whose role is not empty and whose client could be made, or keeps its own. |
| Processor.NewRoleStartsAtFirstAdd | queue/processor.go:248-256 | A new poller has the role of the entry that created it, or of the last later entry that refreshed it. |
| Processor.RolesSettle | queue/processor.go:232-257 | Applying the same token with the same answers again changes no role if no add failed. |
| Processor.SameListAgain | queue/processor.go:226-263 | Applying the list again keeps the set of urls that have a poller exactly if nothing can be added that is not there. |
| Processor.RefreshIsIdleExactlyWhen | queue/processor.go:226-263 | A refresh makes, starts and stops no poller if and only if every known url is listed and nothing can be added that is not known. |
| Processor.SecondRefreshIsIdleExactlyWhen | queue/processor.go:226-263 | A second refresh with the same list makes, starts and stops nothing if and only if it can add nothing that is not there; so it does if no add of the first failed. |
| Processor.RefreshedUrls | queue/processor.go:226-263 | After a refresh a known url has a poller exactly if some entry has that url, and an unknown one exactly if some entry has it and could be added. |
| Processor.Processor.constructor | queue/processor.go:62-93 | A new processor has no pollers, the clamped poller settings and the default periods. |
| Processor.Processor.StartedPoller | queue/processor.go:196-217 | A new poller is a fresh object, running, with the properties of its entry. |
| Processor.Processor.AddAndStartPoller | queue/processor.go:248-256 | A failed add changes nothing; a successful one adds a fresh running poller under its provider's url and touches no other. |
| Processor.Processor.RefreshPoller | queue/processor.go:235-244 | A successful refresh changes the role of that poller alone, a failed one nothing. |
| Processor.Processor.RemovePoller | queue/processor.go:220-224 | The poller under the url is returned and its key alone is gone. |
| Processor.Processor.RemoveAndStopPoller | queue/processor.go:259-263 | The poller dropped has been stopped, once, and every other keeps its role. |
| Processor.Processor.ApplyEntry | queue/processor.go:232-257 | One entry of the token has the effect the role specification gives it, on its own url alone, and replaces no poller. |
| Processor.Processor.ApplyEntries | queue/processor.go:227-257 | The loop has the effect of the specification for every url; what is left in pollerKeys are the old keys the token does not list. |
| Processor.Processor.StopPollers | queue/processor.go:259-263 | Whatever the order of the map's keys, exactly the given pollers are removed and stopped. |
| Processor.Processor.RefreshPollers | queue/processor.go:226-269 | New key set = old keys the token lists, plus new urls with a successful add; kept pollers are the same objects, new ones were made for this and run, and no other poller is made; dropped ones are stopped once; roles and periods as the token says. |
| Processor.Processor.RefreshTwice | queue/processor.go:286-297 | Two ticks in a row with the same list: after the second, the map and the pollers ever made are what they were after the first, exactly if nothing could be added, and always if no add of the first failed. |
| Processor.Processor.StopAll | queue/processor.go:279-285 | After quit every poller ever created has been started once and stopped once. |
| Processor.Processor.Run | queue/processor.go:271-300 | For every sequence of ticks followed by quit: each token is applied to what the ticks before it led to, with its roles and periods; a tick without a token changes nothing; the next tick comes after the success or the error period; and every poller ever created was started once and stopped exactly once. |
| Processor.Processor.Tick | queue/processor.go:286-297 | One tick refreshes by its token or changes nothing, and yields the period to the next. |
| LifecycleProof.ReachableInv | queue/processor.go:95-150 | Over every interleaving of processor, run and pull goroutines, pollers and pool, the calls of the pool's Start, Stop and Submit nest as intended. |
| LifecycleProof.PoolOutlivesPollers | queue/processor.go:122-145 | While any poller's loop runs the pool is running, so no Submit ever sees the not-running error. |
| LifecycleProof.NothingRunsDuringRemoval | queue/processor.go:131-150 | From the start of RemoveAll every worker has exited, every poller's loop has ended, and no pull is running or can begin. |
| LifecycleProof.AtMostOnePollAfterQuit | queue/poller.go:189-213 | After quit is closed at most one poll, the one in flight, completes, and the loop then ends. |
| LifecycleProof.PollBeginsOnlyWhen | queue/poller.go:197-211 | A poll begins only at the top of the loop of a poller that is not to quit and whose token has not expired. |
| LifecycleProof.LoopTurns | queue/poller.go:197-211 | There it does begin, while an expired token makes the poller pause; after a poll it pauses exactly if the poll asks for it. |
| LifecycleProgress.StopIsNeverStuck | queue/processor.go:131-150 | From the closing of quit to the return of the processor's Stop, some goroutine can always take its next action, without any new call, poll or ticker. |
| LifecycleProgress.PullsBegin | queue/processor.go:116-118 | With repositories, pulls run from before the pool is started. |
| SystemProgress.StopIsNeverStuck | queue/processor.go:131-150 | The same of the whole program, whatever has been received, submitted or executed. |
| SystemProof.ReachableInv | queue/processor.go:95-150 | Over every interleaving of processor, pollers, pool, messages and jobs, the loops of the pollers and their batches are in step and the two protocols share one pool. |
| SystemProof.Projects | queue/processor.go:95-150 | Every reachable state of the program is reachable in the lifecycle and in the delivery protocol, so all their theorems hold of it. |
| SystemProof.NothingPendingOutsidePolls | queue/poller.go:189-213 | A message nobody has decided about belongs to a poller that is in the middle of a poll. |
| SystemProof.ReleasedWasRefused | queue/poller.go:158-165 | In the program a message is given back only because the pool refused it, and once; the error branch is never taken. |
| SystemProof.EveryMessageIsSettled | queue/processor.go:131-150 | From the removal of the repositories on, with a minimum or without a buffer, every message ever received was refused and given back once, untouched, or executed exactly once, with the deletion, the handling and the terminal state its answers call for. |
| SystemTheorems.MessageIsLost | worker_pool/worker_pool.go:50-63 | Without a minimum and with a buffer there is a run of the whole program, from Start to the end of Stop, that leaves a received message neither given back nor executed. |
| SystemTheorems.SettlesExactlyWhen | queue/processor.go:131-150 | Every message is settled in every run of the program if and only if the minimum is at least 1 or the queue size is 0. |
| Repositories.ClonesAre | git/repository.go:37-65 | Clones are made in the order of the list. |
| Repositories.CloneMadeExactlyWhen | git/repository.go:37-65 | A clone is made exactly at the first mention of a url that had no repository. |
| Repositories.ClonedOnce | git/repository.go:49-65 | No url is cloned twice, and none that had a repository. |
| Repositories.Repositories.NotEmpty | git/repository.go:26-28 | True exactly if some url has a repository. |
| Repositories.Repositories.Download | git/repository.go:49-65 | Clones exactly if the url is unknown; adds an entry exactly on success; every other entry is the same object. |
| Repositories.Repositories.DownloadAll | git/repository.go:37-47 | Succeeds exactly if every needed clone does, and then every listed url has an entry; on failure it has stopped at the first clone that failed; each new entry has its url and the path of the clone made for it, each old one is the same object. |
| RepositoryLocks.ScriptsExcludeWriters | git/repository.go:114-142 | Over all interleavings, no script of a repository runs while that repository is fetched, chmodded or removed, and these exclude each other. |
| RepositoryLocks.LocksAreGivenBack | queue/message.go:132-157 | Once all handlers, pulls and removals have returned, by whatever path, every lock is free. |
| RepositoryLocks.NobodyIsStuck | git/repository.go:114-142 | In every reachable state a handler, pull or removal that is not done can go on, or waits for a lock whose holder can. |
| RepositoryLocks.HandlerCanRun | queue/message.go:127-155 | A handler of a known repository that nobody writes to runs its script under the read lock and gives it back. |
| RepositoryLocks.PullCanRun | git/repository.go:114-124 | A pull of a repository in nobody's use fetches and chmods under the write lock and gives it back. |
| Slices.AppendContents | queue/message.go:137-141 | append yields the old contents and then the new, changes no other array, and makes a new array exactly if the capacity does not suffice. |
| CommandLineProof.ArgumentsAreExact | runbook/executor.go:36-53 | In every interleaving each script gets the command of its extension if the table has one, its path, global flags, action flags, -payload and body, global args, action args, --jecNamedPipe and the path, in this order. |
| CommandLineProof.RunStep | runbook/executor.go:36-55 | Each statement of an execution can always be taken, leaves the configuration as it is and builds the next prefix of the arguments. |
| CommandLineProof.ConfigurationNeverChanges | runbook/executor.go:14-22 | The executables table, the global arguments, every action's lists and the global environment keep their contents in every reachable state. |
| Environment.CompatibleIsExact | queue/message.go:141 | If any two actions' variables that fit the spare room agree where both have an entry, every script gets its own environment in every interleaving. |
| Environment.NoSpareRoomIsCompatible | queue/message.go:141 | A global environment without spare capacity satisfies that condition. |
| Environment.IncompatibleIsInexact | queue/message.go:141 | If two actions disagree in the spare room, there is a run in which a script gets the other's variable. |
| Environment.ExactExactlyWhen | queue/message.go:141 | Environments are exact in all runs if and only if the configuration satisfies the condition. |
| MessageHandler.MessageHandler.Execute | queue/message.go:118-158 | A script is started exactly for a local action, or a git action whose repository has been downloaded. |
| MessageHandler.MessageHandler.Handle | queue/message.go:35-98 | The mapped name goes before the action name; an error is returned exactly if no script was started; when there is a result, when it says successful and when it carries an HTTP response, for every body and every end of the script. |
| MessageHandler.FinishedMeansStarted | queue/job.go:83-104 | In every run of the job with this handler and no early answer of the sender, the job is finished exactly if the message was deleted, is for this owner, and its script was started, however the script ended. |
| MessageHandler.AlwaysTellsStartedExactlyWhen | queue/job.go:83-104 | A job's mark tells whether its script was started, in every run, if and only if the body leads to no result or the message is not for this owner. |
| MessageHandler.Args | conf/configuration.go:148-157 | Two arguments for each flag, its name behind a dash and then its value, in some order of the map. |
| Retryer.Waits | retryer/retryer.go:45-48 | The sleeps double from 100 ms. |
| Retryer.TotalWait | retryer/retryer.go:45-48 | k attempts sleep 100 * (2^(k-1) - 1) ms in total, for every k. |
| Retryer.FirstFinal | retryer/retryer.go:69-83 | The first attempt below the limit that is not retried. |
| Retryer.Request.Rewind | retryer/retryer.go:61-66 | A successful seek leaves the reader at the start of the body. |
| Retryer.DoWithExponentialBackoff | retryer/retryer.go:50-99 | For every limit: it ends within the limit, each attempt sends the whole body, only timeouts, 429 and 5xx are retried, the first sleep is 100 ms and each further one twice the last, and the result is the first response with another status, an error that is no timeout, a failed rewind, or exhaustion. |

## Left out

- AWS SDK, HTTP transport, JSON and YAML decoding, go-git and the scripts themselves: each is an arbitrary answer or a step that may end either way at any time.
- Logging, metrics, queue message logs and `CheckLogFile`: they do not touch the protocol state.
- Named-pipe callbacks, stdout and stderr writers and the payload of the result that is sent: operating system behaviour and easy claims.
- Real time: every ticker may fire at any moment, so no claim is about durations except the backoff's.
- Reading the configuration, path prefixes, environment lookups, the Windows service and `main`.
- The request `receiveToken` builds, the owner id a token brings (only new pollers take it) and the retryer's hook for other implementations.
- Liveness under a fair scheduler: that Stop is never stuck and what it waits for is bounded is proved without one; that its steps are in fact taken is not.
- How many messages one receipt brings, and whether a poll without any waits, are left open in `System`, which only adds runs.
- The monitor goroutine of the pool, which only reads the counters.
- The runtime's choice whether a send meets a waiting receiver: it is a parameter of `SendOrDefault`; in the protocol the default branch is enabled even while a worker waits, which only adds runs.
- Data races: append, and a write of a shared variable, is one step; the run of `Environment.IncompatibleIsInexact` exists at that granularity already.
- How the extension of a script is read off its lower-cased path (runbook/executor.go:45): a script comes with it.
- `os.Environ()`, which precedes the variables of a script (runbook/executor.go:55), and argument lists that are nil, which append treats like empty ones.
- DoWithExponentialBackoff: does not model the conversion of a wait to `time.Duration`, which is exact for the code's limit of 5 but overflows for limits above some fifty.
- Poller.Poller.Stop: the wait for the poller's loop is not in the class; `Lifecycle` has it as the runner's step that waits for `LoopEnded`.
