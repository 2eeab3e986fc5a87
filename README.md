# Ray worker pool, disk-capacity check, on-prem node allocator and Train state store

A Dafny model of four pieces of Ray, with their contracts proved.

**The raylet worker pool** (`worker_pool.dfy` and the modules it imports):

- It launches language-runtime worker processes under a startup ceiling of 15 processes pending registration, shared by all languages.
- It queues pop requests in two queues per language, each served oldest first:
  - requests waiting for a startup slot (pending starts);
  - requests waiting for an already launched process to register (pending registrations).
- It hands idle workers to requests by the matching rule: language, runtime-env hash, job and root detached actor.
- It sweeps idle workers down to the soft limit, which is the available CPUs. Each swept worker gets an exit request, and the pool handles the accept or decline reply.
- It serves the spill, restore and delete I/O pools, which are capped at 2 workers per kind.
- It tracks jobs and drivers.
- It keeps runtime-env references balanced through the runtime-env agent.

The pool is a class, `WorkerPool.WorkerPool`, whose methods update its fields. The pure parts are separate modules:

| Module | What it holds |
|---|---|
| `WorkerTypes` | Workers, requests and the matching rule |
| `WorkerCommand` | Command-line assembly and the fixture's parse of the hash |
| `PendingRequests` | The two request queues and offering a worker to them |
| `IdleKilling` | The sweep, as a function of the idle list |
| `WorkerProcesses` | Launched processes and the counts over them |
| `PoolAccounting` | Job records and the reference balance |
| `RuntimeEnvAgents` | The mocked agent's reference table, as a class |

**The file-system monitor** (`filesystem_monitor.dfy`):

- `OverCapacityImpl` on a given (capacity, available) pair;
- `OverCapacity` over all paths;
- `ParseSpillingPaths` on a parsed JSON value.

**The on-prem node allocator** (`coordinator.dfy`):

- A node table is an ordered list of IPs. Each IP has a state (terminated or running), tags and an external IP.
- The coordinator server shares one table between clusters; a local node provider keeps one per cluster.
- Operations:
  - reconciliation against the configured IP list;
  - `create_node`, which takes free nodes in table order;
  - `terminate_node`;
  - the tag-filtered `non_terminated_nodes`;
  - `record_local_head_state_if_needed`.

**The Train state store** (`train_state.dfy`):

- `TrainStateActor` keeps runs in insertion order and attempts per run.
- Operations:
  - create-or-update of runs and attempts;
  - the reconciliation that aborts live runs whose controller is dead, together with their last live attempt;
  - the pure lifecycle updates;
  - the controller-state to `RunStatus` mapping.

`wrappers.dfy` holds the `Option` type.

The worker pool's implementation file is not part of this model. Its behaviour is taken from three things in `src/ray/raylet/worker_pool_test.cc`:

- the `WorkerPoolMock` test double;
- its two mocks: `MockWorkerClient` for exit replies and `MockRuntimeEnvAgentClient` for reference counting;
- the assertions of the tests.

The implementation files of the file-system monitor, the coordinator and the Train state are not part of this model either. These three components are modelled from their tests, and every citation of them below is to those tests.

## Model

| member | source | states |
|---|---|---|
| `WorkerTypes.LastFit` | src/ray/raylet/worker_pool_test.cc:685-708 | The index found fits the request and belongs to a live worker, and no later entry does; None means that no entry fits |
| `WorkerTypes.LastFitMatches` | src/ray/raylet/worker_pool_test.cc:939-1062 | The idle worker handed to a request has the request's language and runtime env hash, is alive and not an I/O worker, has a nil or the request's job, and has the request's root detached actor when both name one |
| `WorkerTypes.LastFitFinds` | src/ray/raylet/worker_pool_test.cc:2048-2114 | A live regular idle worker of the request's language and hash, with a nil or the request's job and a root detached actor that is unset on either side or the same, is never passed over: it or a more recently idled worker is handed over |
| `WorkerTypes.LastFitSkips` | src/ray/raylet/worker_pool_test.cc:2363-2400 | An idle worker of another job, or bound to another root detached actor than the request's, is never handed to it |
| `WorkerProcesses.CountIf` | src/ray/raylet/worker_pool_test.cc:198-206 | A count over the processes never exceeds the number of processes |
| `WorkerProcesses.CountIfUpdate` | src/ray/raylet/worker_pool_test.cc:198-206 | Replacing one process changes a count by exactly the old entry's and the new entry's contributions |
| `RuntimeEnvAgents.AfterCreate` | src/ray/raylet/worker_pool_test.cc:104-121 | A successful get-or-create raises that env's count by one and leaves every other count alone |
| `RuntimeEnvAgents.AfterDelete` | src/ray/raylet/worker_pool_test.cc:122-130 | A delete of a counted env lowers its count by one and keeps the entry |
| `RuntimeEnvAgents.CreateThenDelete` | src/ray/raylet/worker_pool_test.cc:95-130 | A create followed by a delete of the same env leaves every count as it was |
| `RuntimeEnvAgents.RuntimeEnvAgent.constructor` | src/ray/raylet/worker_pool_test.cc:95 | The reference table starts empty |
| `RuntimeEnvAgents.RuntimeEnvAgent.GetOrCreate` | src/ray/raylet/worker_pool_test.cc:104-121 | Succeeds exactly for envs other than "bad runtime env", counting one more reference; the bad env is refused with its message and counts nothing |
| `RuntimeEnvAgents.RuntimeEnvAgent.Delete` | src/ray/raylet/worker_pool_test.cc:122-130 | Requires the env to be known with a positive count (the mock's checks); lowers it by one |
| `PoolAccounting.BalanceLaunch` | src/ray/raylet/worker_pool_test.cc:1929-1960 | Launching a process that holds a freshly created reference keeps every env's count equal to its holders |
| `PoolAccounting.BalanceUpdate` | src/ray/raylet/worker_pool_test.cc:1961-2046 | A process that gives up its reference lets the agent drop exactly one, and its count was at least one |
| `PoolAccounting.BalanceJobAdd` | src/ray/raylet/worker_pool_test.cc:1929-1960 | A new job with an eager reference keeps the balance after one create; without one, with none |
| `PoolAccounting.BalanceJobFinish` | src/ray/raylet/worker_pool_test.cc:1929-1960 | Finishing a job that holds an eager reference lets the agent drop it, and its count was at least one |
| `PoolAccounting.BalanceDrained` | src/ray/raylet/worker_pool_test.cc:1961-2046 | Once no process and no job holds a reference, every env's count is zero |
| `PendingRequests.FirstFit` | src/ray/raylet/worker_pool_test.cc:1125-1225 | The oldest queued request the worker fits; None exactly when it fits none |
| `PendingRequests.RemoveAt` | src/ray/raylet/worker_pool_test.cc:2223-2234 | The queue without its i-th element; the others keep their order |
| `PendingRequests.RemoveAtMultiset` | src/ray/raylet/worker_pool_test.cc:2223-2234 | Removing an element loses exactly that element |
| `PendingRequests.NextFit` | src/ray/raylet/worker_pool_test.cc:1125-1225 | The request picked fits the worker, and exactly one request leaves the queues |
| `PendingRequests.NextFitNone` | src/ray/raylet/worker_pool_test.cc:1125-1225 | Nothing is picked exactly when the worker fits no queued request in either queue |
| `PendingRequests.NextFitOrder` | src/ray/raylet/worker_pool_test.cc:1125-1225 | The oldest fitting pending registration is picked; only when there is none, the oldest fitting pending start |
| `PendingRequests.OfferOrder` | src/ray/raylet/worker_pool_test.cc:1125-1225 | An offer serves registrations before pending starts, each oldest first |
| `PendingRequests.OfferExhausts` | src/ray/raylet/worker_pool_test.cc:2116-2159 | When no request kept the worker, no request it fits is left in either queue |
| `PendingRequests.NextFitSubQueues` | src/ray/raylet/worker_pool_test.cc:1125-1225 | A pick only takes a request out of a queue |
| `PendingRequests.OfferSubQueues` | src/ray/raylet/worker_pool_test.cc:2116-2159 | What an offer leaves in each queue is a sub-multiset of the queue before it |
| `IdleKilling.KillableOf` | src/ray/raylet/worker_pool_test.cc:1523-1526 | Exactly the idle entries past their keep-alive, drawn from the list |
| `IdleKilling.MustKillPass` | src/ray/raylet/worker_pool_test.cc:1783-1827 | The first pass keeps and forces only entries of the idle list, and forces nothing while no job has finished |
| `IdleKilling.MustKillPassSplit` | src/ray/raylet/worker_pool_test.cc:1783-1827 | The first pass forces exactly the live idle entries of finished jobs and keeps exactly those of live jobs |
| `IdleKilling.CapacityPass` | src/ray/raylet/worker_pool_test.cc:1528-1539 | The exits and retained entries of the capacity pass number exactly the kept entries |
| `IdleKilling.CapacityPassSplit` | src/ray/raylet/worker_pool_test.cc:1528-1539 | Exits and retained entries together are exactly the kept entries, as multisets |
| `IdleKilling.CapacityOldestFirst` | src/ray/raylet/worker_pool_test.cc:1568-1574 | The capacity exits are the first `excess` killable entries in idle order: oldest first |
| `IdleKilling.CapacityRetained` | src/ray/raylet/worker_pool_test.cc:1528-1539 | The retained killable entries are reduced by exactly the number of exits, and every entry still inside its keep-alive is retained |
| `IdleKilling.SweepCapsKillable` | src/ray/raylet/worker_pool_test.cc:1528-1539 | After a sweep, the killable idle entries left number the soft limit, or all of them when there were fewer |
| `IdleKilling.SweepWithinGrace` | src/ray/raylet/worker_pool_test.cc:1523-1526 | While every entry is in its grace period, nothing is exited for capacity, and nothing at all when no job has finished |
| `IdleKilling.SweepSparesProtected` | src/ray/raylet/worker_pool_test.cc:799-857 | A live job's entry still inside its keep-alive stays idle, even above the soft limit |
| `IdleKilling.SweepExitsKillable` | src/ray/raylet/worker_pool_test.cc:1568-1574 | Capacity exits only take idle entries of live workers and live jobs that are past their keep-alive |
| `IdleKilling.SweepDistinct` | src/ray/raylet/worker_pool_test.cc:1544-1559 | The retained, exited and forced entries name each worker at most once, and all come from the idle list |
| `WorkerCommand.NatToString` | src/ray/raylet/worker_pool_test.cc:319-333 | to_string of a natural number: at least one character, all of them digits |
| `WorkerCommand.IntToStringRoundTrip` | src/ray/raylet/worker_pool_test.cc:319-333 | std::stoi reads back every int that std::to_string wrote |
| `WorkerCommand.NatRoundTrip` | src/ray/raylet/worker_pool_test.cc:319-333 | stoi of to_string of a natural number gives that number back |
| `WorkerCommand.NegativeRoundTrip` | src/ray/raylet/worker_pool_test.cc:319-333 | stoi of "-" followed by the digits of n gives -n |
| `WorkerCommand.StoiDigits` | src/ray/raylet/worker_pool_test.cc:319-333 | stoi of a non-empty run of digits is its value |
| `WorkerCommand.HashArgParses` | src/ray/raylet/worker_pool_test.cc:319-333 | Scanning the argument `--runtime-env-hash=<h>` yields h |
| `WorkerCommand.NoHashKeyWithoutH` | src/ray/raylet/worker_pool_test.cc:319-333 | A string without the letter h cannot contain the hash key |
| `WorkerCommand.ScanWithoutKey` | src/ray/raylet/worker_pool_test.cc:319-333 | A command in which no argument carries the key parses to hash 0 |
| `WorkerCommand.ExpandOne` | src/ray/raylet/worker_pool_test.cc:752-797 | Expanding a command with one placeholder puts the block exactly in its place |
| `WorkerCommand.ExpandKeeps` | src/ray/raylet/worker_pool_test.cc:752-797 | Expansion keeps every argument of the configured command other than the placeholder |
| `WorkerCommand.JavaCommandLayout` | src/ray/raylet/worker_pool_test.cc:752-797 | Java command order: the head, per-job options, the user's JVM options, the startup-token and hash options, the dynamic options, the tail, then `--language=JAVA` |
| `WorkerCommand.JavaCommandFixture` | src/ray/raylet/worker_pool_test.cc:772-797 | The fixture's configured `java <placeholder> MainClass` yields exactly the expected argument vector |
| `WorkerCommand.PythonCommandHash` | src/ray/raylet/worker_pool_test.cc:730-750 | The Python command carries `--node-id=<id>`, and the fixture reads the launch's hash back out of it |
| `WorkerCommand.MentionsJavaStep` | src/ray/raylet/worker_pool_test.cc:329-332 | One more argument mentions "java" exactly when it or an earlier one does |
| `WorkerCommand.ParseCommand` | src/ray/raylet/worker_pool_test.cc:319-333 | The fixture's loop over the arguments returns the scanned hash (the last key wins; a stoi failure is None) and whether any argument mentions java |
| `WorkerCommand.JavaCommandIsJava` | src/ray/raylet/worker_pool_test.cc:329-332 | A Java command built from a configured `java` command is read back as Java |
| `WorkerPool.AddExits` | src/ray/raylet/worker_pool_test.cc:441 | The outstanding exits after a sweep are the old ones plus exactly the entries sent an exit |
| `WorkerPool.SendExitsOnce` | src/ray/raylet/worker_pool_test.cc:59-93 | Each distinct worker in the batch sees exactly one more exit request, forced as the sweep says; every other client is untouched |
| `WorkerPool.SweepExitRequests` | src/ray/raylet/worker_pool_test.cc:1783-1827 | After a sweep each exited worker has one more exit request: forced for finished jobs' workers without a detached actor, graceful for capacity exits; others are untouched |
| `WorkerPool.IdleInsert` | src/ray/raylet/worker_pool_test.cc:1617-1697 | A worker that never ran a task goes to the front of the idle list, one that did goes to the back; the rest keep their order |
| `WorkerPool.RemoveEntriesOf` | src/ray/raylet/worker_pool_test.cc:2236-2346 | The idle list without exactly that worker's entries |
| `WorkerPool.RemoveWorkerOf` | src/ray/raylet/worker_pool_test.cc:2236-2346 | An I/O idle list without exactly that worker |
| `WorkerPool.InsertValid` | src/ray/raylet/worker_pool_test.cc:685-708 | Inserting a live worker that is not yet idle keeps the idle list distinct and free of dead or exiting workers |
| `WorkerPool.LaunchAccounting` | src/ray/raylet/worker_pool_test.cc:1125-1225 | A launch under the ceiling raises the starting count by one and keeps the reference balance |
| `WorkerPool.StartedAccounting` | src/ray/raylet/worker_pool_test.cc:1125-1225 | A process announcing its port frees one startup slot and keeps its reference |
| `WorkerPool.GoneAccounting` | src/ray/raylet/worker_pool_test.cc:1961-2046 | A gone process frees its slot if it was starting and hands its reference back |
| `WorkerPool.IoLaunchOwnPoolOnly` | src/ray/raylet/worker_pool_test.cc:2236-2346 | Launching an I/O process grows its own pool's size (starting plus started) by one and leaves the other pool unchanged |
| `WorkerPool.IoStartedKeepsSize` | src/ray/raylet/worker_pool_test.cc:2236-2346 | A starting I/O worker that announces its port moves from starting to started, so the pool's size, which the I/O worker limit bounds, is unchanged |
| `WorkerPool.IoTimeoutUndoesLaunch` | src/ray/raylet/worker_pool_test.cc:2236-2346 | A launch whose process then times out leaves its I/O pool as it was |
| `WorkerPool.IoAfterDisconnect` | src/ray/raylet/worker_pool_test.cc:2236-2346 | A disconnected I/O worker is neither started nor idle any more, and one fewer process is starting if it was still starting |
| `WorkerPool.FirstWithToken` | src/ray/raylet/worker_pool_test.cc:2223-2234 | The oldest pending registration for that token; None when there is none |
| `WorkerPool.PartsKeepValid` | src/ray/raylet/worker_pool_test.cc:1544-1559 | The kept part of a split idle list stays distinct and names no worker whose exit is outstanding |
| `WorkerPool.SweepKeepsValid` | src/ray/raylet/worker_pool_test.cc:1544-1559 | After a sweep, the idle list left names no dead worker and no worker awaiting an exit reply |
| `WorkerPool.SweepPool` | src/ray/raylet/worker_pool_test.cc:1471-1616 | One sweep's idle list, outstanding exits and exit requests, as the sweep function gives them, with the idle list still valid |
| `WorkerPool.ForgetKeepsValid` | src/ray/raylet/worker_pool_test.cc:2236-2346 | Forgetting a disconnected worker keeps the idle list and the I/O pools free of it |
| `WorkerPool.IdleOfLanguage` | src/ray/raylet/worker_pool_test.cc:651-666 | The idle workers of one language number at most the idle list |
| `WorkerPool.CreateWorker` | src/ray/raylet/worker_pool_test.cc:335-345 | The test double's worker for a process: language and hash as read back from its command; regular kind; the given job |
| `WorkerPool.PushedPythonWorkerFits` | src/ray/raylet/worker_pool_test.cc:1888-1927 | A worker pushed for a Python launch has the launch's hash, and it fits the request it was launched for |
| `WorkerPool.PushedJavaWorkerIsJava` | src/ray/raylet/worker_pool_test.cc:710-728 | A worker pushed for a Java launch is a Java worker |
| `WorkerPool.WorkerPool.constructor` | src/ray/raylet/worker_pool_test.cc:132-171 | The pool starts empty: no jobs, processes, requests, idle workers or references; valid |
| `WorkerPool.WorkerPool.StartWorkerProcess` | src/ray/raylet/worker_pool_test.cc:1125-1225 | At the ceiling it refuses and changes nothing. The bad env fails with the agent's message. Otherwise it appends the next process (token = its index) and takes one reference for a non-empty env; the ceiling holds |
| `WorkerPool.WorkerPool.StartNewWorker` | src/ray/raylet/worker_pool_test.cc:1125-1225 | At the ceiling the request becomes exactly one pending start of its language. The bad env yields RuntimeEnvCreationFailed with the message. Otherwise the request waits, in its language's registration queue, on its launched process's token |
| `WorkerPool.WorkerPool.TryPendingStarts` | src/ray/raylet/worker_pool_test.cc:1125-1225 | Only the given language's pending starts are issued, oldest first, and at least one when a slot of the shared ceiling is free; any left means the ceiling is full; each issued request waits in that language's registration queue or is failed; the other language's queues are unchanged and every queue keeps to its own language |
| `WorkerPool.WorkerPool.StartOldest` | src/ray/raylet/worker_pool_test.cc:1125-1225 | The oldest pending start of the language leaves its queue and either waits in the same language's registration queue on the launched process or is failed with RuntimeEnvCreationFailed |
| `WorkerPool.WorkerPool.EntryFor` | src/ray/raylet/worker_pool_test.cc:799-857 | A pushed worker is protected until exactly the later of two deadlines: the grace period, and its startup keep-alive when it never ran a task |
| `WorkerPool.WorkerPool.PushWorker` | src/ray/raylet/worker_pool_test.cc:685-708 | Dead, already-idle and exiting workers are ignored; otherwise the worker is offered to the queues of its own language only and becomes idle when nobody kept it |
| `WorkerPool.WorkerPool.OfferToQueues` | src/ray/raylet/worker_pool_test.cc:685-708 | The worker is offered to the two queues of its language, which keep exactly what the offer leaves; the other language's queues are unchanged and every queue keeps to its own language |
| `WorkerPool.WorkerPool.PopIdle` | src/ray/raylet/worker_pool_test.cc:2116-2159 | The idle worker is handed over with OK. An accepted one leaves idle; a declined one is pushed back |
| `WorkerPool.WorkerPool.PopFit` | src/ray/raylet/worker_pool_test.cc:867-938 | The most recently idled fitting live worker is handed over; without one, a new worker is started for the request, with that operation's three outcomes |
| `WorkerPool.WorkerPool.PopWorker` | src/ray/raylet/worker_pool_test.cc:2161-2222 | An unknown job gives JobConfigMissing and a finished job JobFinished, with no worker and nothing else changed |
| `WorkerPool.WorkerPool.GetRegisteredWorker` | src/ray/raylet/worker_pool_test.cc:586-630 | A registered worker is found exactly while it is registered |
| `WorkerPool.WorkerPool.RegisterWorker` | src/ray/raylet/worker_pool_test.cc:632-637 | Succeeds exactly for a known startup token; an unknown token is rejected with nothing changed; no startup slot is freed |
| `WorkerPool.WorkerPool.OnWorkerStarted` | src/ray/raylet/worker_pool_test.cc:1125-1225 | A starting process becomes started, and at least one pending start of the worker's language is issued when any waits; the other language's queues are unchanged; an I/O worker joins its pool's started set |
| `WorkerPool.WorkerPool.ReleaseProcess` | src/ray/raylet/worker_pool_test.cc:1961-2046 | The process is gone, frees its slot if it was starting, and deletes its reference through the agent |
| `WorkerPool.WorkerPool.ReleaseForDisconnect` | src/ray/raylet/worker_pool_test.cc:1125-1225 | A known process is released; if it was still starting, its slot goes to the oldest pending start of the given language, and the other language's queues are unchanged |
| `WorkerPool.WorkerPool.DisconnectWorker` | src/ray/raylet/worker_pool_test.cc:2236-2346 | The worker is unregistered, dead and out of the idle list and I/O pools. Its process is gone with its reference dropped, and a freed slot serves a pending start of the worker's language |
| `WorkerPool.WorkerPool.ForgetWorker` | src/ray/raylet/worker_pool_test.cc:2236-2346 | The worker is unregistered, dead, disconnected and out of every idle list |
| `WorkerPool.WorkerPool.RegistrationTimeout` | src/ray/raylet/worker_pool_test.cc:2223-2234 | A starting process is given up and its slot serves the pending starts of its language. For a regular worker, the oldest request of that language waiting for it gets WorkerPendingRegistration and is erased. Anything else changes nothing |
| `WorkerPool.WorkerPool.TryKillingIdleWorkers` | src/ray/raylet/worker_pool_test.cc:1471-1616 | The idle list, outstanding exits and exit requests after one sweep at the current time with the CPUs as the soft limit |
| `WorkerPool.WorkerPool.ExitReply` | src/ray/raylet/worker_pool_test.cc:1617-1697 | Only an outstanding exit gets a reply. Success marks the worker dead; a decline puts its entry back at the end of idle unless it died meanwhile |
| `WorkerPool.WorkerPool.HandleJobStarted` | src/ray/raylet/worker_pool_test.cc:1929-1960 | A new job is recorded. An eager-install env is created and held by the job (the bad env holds nothing). A known job changes nothing |
| `WorkerPool.WorkerPool.HandleJobFinished` | src/ray/raylet/worker_pool_test.cc:1783-1827 | The job is marked finished and its eager reference is deleted; an unknown job changes nothing |
| `WorkerPool.WorkerPool.GetRegisteredDriver` | src/ray/raylet/worker_pool_test.cc:578-584 | A registered driver is found exactly when it is registered |
| `WorkerPool.WorkerPool.RegisterDriver` | src/ray/raylet/worker_pool_test.cc:2402-2443 | The driver is registered. A new job gets exactly HandleJobStarted's record, with the eager reference taken through the agent when its config asks for one; every other job stands, and a known job changes nothing. The reply is sent at once exactly when the driver is Java or a Python driver registered before; the first Python driver's reply is deferred |
| `WorkerPool.WorkerPool.SetCurrentTimeMs` | src/ray/raylet/worker_pool_test.cc:251 | The clock is an input |
| `WorkerPool.WorkerPool.SetNumAvailableCpus` | src/ray/raylet/worker_pool_test.cc:395 | The soft limit is an input |
| `WorkerPool.WorkerPool.IoOf` | src/ray/raylet/worker_pool_test.cc:224-238 | Each I/O kind has its own pool |
| `WorkerPool.WorkerPool.StartIoProcess` | src/ray/raylet/worker_pool_test.cc:2236-2346 | An I/O process is launched exactly when the ceiling allows: Python, no job, no env; its pool counts it as starting |
| `WorkerPool.WorkerPool.PopIo` | src/ray/raylet/worker_pool_test.cc:1304-1332 | An idle I/O worker is handed over first. Otherwise the caller waits, and launches stay within MAX_IO_WORKER_SIZE for the kind and under the ceiling |
| `WorkerPool.WorkerPool.LaunchIo` | src/ray/raylet/worker_pool_test.cc:1386-1431 | Launches exactly the target number of I/O processes, or as many as the ceiling allows |
| `WorkerPool.WorkerPool.PushIo` | src/ray/raylet/worker_pool_test.cc:1227-1302 | A dead worker leaves the started set. Otherwise the worker serves the oldest waiting caller, or becomes idle once; the other pool is untouched |
| `WorkerPool.WorkerPool.DeletePool` | src/ray/raylet/worker_pool_test.cc:1433-1469 | A delete request is served from the pool with more idle workers, restore on a tie |
| `WorkerPool.WorkerPool.PopDelete` | src/ray/raylet/worker_pool_test.cc:1433-1469 | Pops from the pool that DeletePool names, with that pool's whole new state as PopIo gives it: its oldest idle worker is handed over, or processes are launched up to the I/O and startup limits; the other pool is unchanged |
| `WorkerPool.WorkerPool.PushDelete` | src/ray/raylet/worker_pool_test.cc:1433-1469 | A delete worker goes back to the pool of its own kind, with that pool's whole new state as PushIo gives it; the other pool is unchanged |
| `WorkerPool.WorkerPool.PrestartWorkers` | src/ray/raylet/worker_pool_test.cc:651-666 | Tops the idle plus starting workers of the language up to min(CPUs, backlog), within the ceiling; the bad env starts none |
| `WorkerPool.WorkerPool.PrestartBatch` | src/ray/raylet/worker_pool_test.cc:667-683 | Launches min(count, ceiling room) processes for the request's language, job and env, or none for the bad env |
| `WorkerPool.WorkerPool.NumWorkersStarting` | src/ray/raylet/worker_pool_test.cc:198-206 | The processes pending registration, counted one by one |
| `WorkerPool.WorkerPool.AnnounceWorker` | src/ray/raylet/worker_pool_test.cc:346-351 | Registers the worker under its process's token and announces it started: registered, and its process started |
| `WorkerPool.WorkerPool.PushCreated` | src/ray/raylet/worker_pool_test.cc:335-352 | The next worker id is registered as the worker created from the process's command (language and hash read back from it). A starting process becomes started, and the pool stays valid |
| `WorkerPool.WorkerPool.AnnounceAndPush` | src/ray/raylet/worker_pool_test.cc:346-352 | The worker is registered, its starting process becomes started, and the worker is pushed; the pool stays valid |
| `WorkerPool.WorkerPool.PushWorkers` | src/ray/raylet/worker_pool_test.cc:314-359 | Every process launched so far is marked pushed. With no timeout, each one not pushed before has started; with one timeout worker, no worker is registered, started or made idle |
| `WorkerPool.WorkerPool.MarkAll` | src/ray/raylet/worker_pool_test.cc:355 | Every process launched so far is marked pushed, and nothing else |
| `WorkerPool.WorkerPool.PushAll` | src/ray/raylet/worker_pool_test.cc:315-358 | The loop over processes not pushed before: each is marked pushed and each starting one has started |
| `FileSystemMonitor.NoopMonitor` | src/ray/util/tests/filesystem_monitor_test.cc:45-46 | The default monitor has no paths |
| `FileSystemMonitor.OverCapacityImpl` | src/ray/util/tests/filesystem_monitor_test.cc:49-63 | Missing space info is never over capacity and zero capacity always is; otherwise it is over exactly when available <= (1 - threshold) * capacity |
| `FileSystemMonitor.FractionBound` | src/ray/util/tests/filesystem_monitor_test.cc:49-63 | The used fraction reaches the threshold exactly when available <= (1 - threshold) * capacity |
| `FileSystemMonitor.OverCapacity` | src/ray/util/tests/filesystem_monitor_test.cc:25-47 | Over exactly when some path is over; a monitor with no paths never is |
| `FileSystemMonitor.OverCapacityMonotone` | src/ray/util/tests/filesystem_monitor_test.cc:53-59 | Less available space never turns over-capacity into under |
| `FileSystemMonitor.ZeroThresholdAlwaysOver` | src/ray/util/tests/filesystem_monitor_test.cc:33-34 | With threshold 0 every disk is over capacity |
| `FileSystemMonitor.FullThresholdOnlyWhenFull` | src/ray/util/tests/filesystem_monitor_test.cc:28-29 | With threshold 1 a disk is over capacity exactly when nothing is available |
| `FileSystemMonitor.OverCapacityVectors` | src/ray/util/tests/filesystem_monitor_test.cc:51-62 | The four test vectors: nullopt not over; 11/10 not over; 11/9 over; 0/0 over |
| `FileSystemMonitor.StringsOf` | src/ray/util/tests/filesystem_monitor_test.cc:117-131 | The strings of a list are no more than its items |
| `FileSystemMonitor.At` | src/ray/util/tests/filesystem_monitor_test.cc:93-103 | A key is found exactly in an object that has it |
| `FileSystemMonitor.ParseSpillingPaths` | src/ray/util/tests/filesystem_monitor_test.cc:65-132 | No config yields no paths. The other cases are stated by `FileSystemMonitor.ParseListOfStrings`, `FileSystemMonitor.ParseSingleString`, `FileSystemMonitor.ParseOtherValue`, `FileSystemMonitor.ParseMissingKey` and `FileSystemMonitor.ParseMixedList` |
| `FileSystemMonitor.StringsOfAppend` | src/ray/util/tests/filesystem_monitor_test.cc:117-131 | Filtering distributes over concatenation, so order is kept |
| `FileSystemMonitor.StringsOfMembers` | src/ray/util/tests/filesystem_monitor_test.cc:117-131 | A string is kept exactly when it was a string item of the list |
| `FileSystemMonitor.StringsOfAllStrings` | src/ray/util/tests/filesystem_monitor_test.cc:66-79 | A list of strings yields those strings in order |
| `FileSystemMonitor.ParseListOfStrings` | src/ray/util/tests/filesystem_monitor_test.cc:66-79 | A `directory_path` list of strings yields the same list |
| `FileSystemMonitor.ParseSingleString` | src/ray/util/tests/filesystem_monitor_test.cc:81-91 | A single string yields a one-element list |
| `FileSystemMonitor.ParseOtherValue` | src/ray/util/tests/filesystem_monitor_test.cc:105-115 | A value that is neither a string nor a list yields no paths |
| `FileSystemMonitor.ParseMissingKey` | src/ray/util/tests/filesystem_monitor_test.cc:93-103 | A missing `directory_path` yields no paths |
| `FileSystemMonitor.ParseMixedList` | src/ray/util/tests/filesystem_monitor_test.cc:117-131 | Non-string members are dropped, and the strings keep their order |
| `Coordinator.Select` | python/ray/tests/test_coordinator_server.py:285-292 | Listed nodes are exactly the stored, non-terminated nodes whose tags contain every filter pair |
| `Coordinator.KeepWanted` | python/ray/tests/test_coordinator_server.py:114-121 | Reconciliation keeps exactly the stored IPs that are still configured |
| `Coordinator.AppendMissing` | python/ray/tests/test_coordinator_server.py:123-133 | Re-added IPs are appended after the kept ones, which keep their order |
| `Coordinator.ReconciledNodes` | python/ray/tests/test_coordinator_server.py:175-198 | The reconciled table holds exactly the configured IPs |
| `Coordinator.CoordinatorDefaults` | python/ray/tests/test_coordinator_server.py:163-173 | A fresh coordinator IP is terminated with empty tags |
| `Coordinator.LocalDefaults` | python/ray/tests/test_coordinator_server.py:97-112 | A fresh local head has the head kind and the external IP; fresh workers have the worker kind |
| `Coordinator.FirstFree` | python/ray/tests/test_coordinator_server.py:271-284 | The first terminated node of an acceptable kind in IP-list order, or None |
| `Coordinator.TakeFree` | python/ray/tests/test_coordinator_server.py:230-235 | The allocation loop gives Allocate's table and keeps the same IPs |
| `Coordinator.KeepStored` | python/ray/tests/test_coordinator_server.py:114-121 | The loop keeps the configured IPs in stored order, with their entries unchanged |
| `Coordinator.AddMissing` | python/ray/tests/test_coordinator_server.py:123-133 | The loop appends the missing IPs with default entries and gives the reconciled table |
| `Coordinator.ReconciledOrderMembers` | python/ray/tests/test_coordinator_server.py:114-133 | The reconciled order holds exactly the configured IPs |
| `Coordinator.ReconciledNodesAgree` | python/ray/tests/test_coordinator_server.py:114-133 | A table with the configured IPs, stored entries where they exist and defaults elsewhere is the reconciled table |
| `Coordinator.AppendMissingDisjoint` | python/ray/tests/test_coordinator_server.py:123-133 | New IPs are appended in configured order |
| `Coordinator.ReconcileIdempotent` | python/ray/tests/test_coordinator_server.py:186-198 | Reconciling twice against the same list equals reconciling once |
| `Coordinator.FreshTableOrder` | python/ray/tests/test_coordinator_server.py:163-173 | A fresh table lists the IPs in configured order |
| `Coordinator.AllocateOne` | python/ray/tests/test_coordinator_server.py:258-269 | create_node of one node takes exactly the first free node (running, with the tags), or changes nothing when none is free |
| `Coordinator.AllocateKeepsTaken` | python/ray/tests/test_coordinator_server.py:237-256 | create_node never touches a node it may not take and never adds or removes IPs |
| `Coordinator.CreatedNodeListed` | python/ray/tests/test_coordinator_server.py:230-235 | The node created for a cluster is listed under that cluster's name and with the requested tags |
| `Coordinator.HeadRecorded` | python/ray/tests/test_coordinator_server.py:135-150 | When the head is the only free head-kind node, it is recorded as running with the four head tags |
| `Coordinator.LocalStartRecordsHead` | python/ray/tests/test_coordinator_server.py:135-150 | A local table started from empty meets HeadRecorded's conditions: the head is stored, free and the only free head-kind node, so create_node with the head tags records it running with those tags |
| `Coordinator.NodeTable.constructor` | python/ray/tests/test_coordinator_server.py:67-79 | A table starts empty |
| `Coordinator.NodeTable.Reconcile` | python/ray/tests/test_coordinator_server.py:114-133 | The table becomes the reconciled order and entries |
| `Coordinator.NodeTable.StartCoordinator` | python/ray/tests/test_coordinator_server.py:156-198 | The coordinator's table is reconciled against its IPs with terminated, untagged defaults |
| `Coordinator.NodeTable.StartLocal` | python/ray/tests/test_coordinator_server.py:79-133 | The local table is reconciled against the worker IPs plus the head, with kind-tagged defaults |
| `Coordinator.NodeTable.NonTerminatedNodes` | python/ray/tests/test_coordinator_server.py:284-292 | Lists, in table order, exactly the non-terminated nodes whose tags contain the filter |
| `Coordinator.NodeTable.NonTerminatedNodesOfCluster` | python/ray/tests/test_coordinator_server.py:237-256 | A cluster lists exactly its own non-terminated nodes that match the filter, in the order they were stored in |
| `Coordinator.NodeTable.NodeTags` | python/ray/tests/test_coordinator_server.py:233 | A node's tags, for a known IP |
| `Coordinator.NodeTable.IsRunning` | python/ray/tests/test_coordinator_server.py:234 | Running exactly when the stored state is running |
| `Coordinator.NodeTable.IsTerminated` | python/ray/tests/test_coordinator_server.py:235 | Terminated exactly when the stored state is terminated |
| `Coordinator.NodeTable.ExternalIp` | python/ray/tests/test_coordinator_server.py:95 | A node's stored external IP |
| `Coordinator.NodeTable.CreateNode` | python/ray/tests/test_coordinator_server.py:277-284 | Free nodes are taken in IP-list order, and the order is unchanged |
| `Coordinator.NodeTable.CreateNodeForCluster` | python/ray/tests/test_coordinator_server.py:230-235 | A coordinator create adds the cluster-name tag to the requested tags |
| `Coordinator.NodeTable.TerminateNode` | python/ray/tests/test_coordinator_server.py:271-275 | A known node becomes terminated, keeping its tags; an unknown IP changes nothing |
| `Coordinator.NodeTable.RecordLocalHeadState` | python/ray/tests/test_coordinator_server.py:135-154 | A head that is not yet running is allocated with the head tags; a running head is left as it is, so a second call changes nothing |
| `TrainState.Find` | python/ray/train/v2/tests/test_state.py:160-177 | A found record is stored under the key; None means none is |
| `TrainState.UpsertFind` | python/ray/train/v2/tests/test_state.py:160-177 | After create-or-update, the record is found under its own key |
| `TrainState.UpsertFindOther` | python/ray/train/v2/tests/test_state.py:160-177 | Create-or-update leaves every other key's record alone |
| `TrainState.UpsertKeys` | python/ray/train/v2/tests/test_state.py:160-177 | A known key keeps its position; a new key is appended, as an OrderedDict does |
| `TrainState.UpsertAt` | python/ray/train/v2/tests/test_state.py:160-177 | Updating a known key replaces the record in place |
| `TrainState.UpsertMembers` | python/ray/train/v2/tests/test_state.py:195-210 | After create-or-update, every record is the new one or an old one |
| `TrainState.UpsertDistinct` | python/ray/train/v2/tests/test_state.py:195-210 | Create-or-update keeps keys unique |
| `TrainState.NewTrainRun` | python/ray/train/v2/tests/test_state.py:389-392 | A new run is INITIALIZING, with a start time, no end time and the controller log path |
| `TrainState.UpdateRun` | python/ray/train/v2/tests/test_state.py:389-409 | A status update sets the status and detail, adds an end time only for terminal statuses, and keeps every other field |
| `TrainState.UpdateRunWellFormed` | python/ray/train/v2/tests/test_state.py:389-409 | Updating a live run keeps it well formed: it has an end time exactly when it is terminal |
| `TrainState.RunStatusFor` | python/ray/train/v2/tests/test_state.py:481-531 | Controller state to run status is terminal exactly for Finished and Errored, and never ABORTED |
| `TrainState.AfterControllerStateUpdate` | python/ray/train/v2/tests/test_state.py:534-547 | The run takes the mapped status; an error sets the message as detail and sets the end time |
| `TrainState.ApplyStatesLifecycle` | python/ray/train/v2/tests/test_state.py:389-409 | Along non-terminal transitions, the run ends in the last state's status and stays well formed |
| `TrainState.NewTrainRunAttempt` | python/ray/train/v2/tests/test_state.py:435-450 | A new attempt is PENDING, with one resources entry per worker and no workers |
| `TrainState.RecordWorker` | python/ray/train/v2/tests/test_state.py:633-700 | A recorded worker keeps its actor, resources and log file path |
| `TrainState.AttemptRunning` | python/ray/train/v2/tests/test_state.py:451-465 | The attempt is RUNNING with every worker recorded ALIVE, in order |
| `TrainState.MarkWorkersDead` | python/ray/train/v2/tests/test_state.py:466-478 | Every worker is DEAD, and nothing else changes |
| `TrainState.EndAttempt` | python/ray/train/v2/tests/test_state.py:466-478 | An ended attempt has the terminal status, the detail, an end time and all workers DEAD |
| `TrainState.AttemptAtShutdown` | python/ray/train/v2/tests/test_state.py:601-630 | Shutdown gives FINISHED, or ERRORED with the error as detail, with an end time and all workers DEAD |
| `TrainState.AttemptAborted` | python/ray/train/v2/tests/test_state.py:550-558 | An aborted attempt is ABORTED, with an end time and all workers DEAD |
| `TrainState.AttemptLifecycle` | python/ray/train/v2/tests/test_state.py:435-478 | PENDING with one resources entry per worker, then RUNNING with all ALIVE, then FINISHED with an end time and all DEAD, keeping the log paths |
| `TrainState.AfterSweep` | python/ray/train/v2/tests/test_state.py:304-336 | A non-terminal run whose controller is dead or missing becomes ABORTED with end time and detail; other runs are unchanged |
| `TrainState.AbortLastAttemptOnlyLast` | python/ray/train/v2/tests/test_state.py:337-366 | Only the last attempt is aborted, and only when it is live; earlier attempts are unchanged |
| `TrainState.SweepIdempotent` | python/ray/train/v2/tests/test_state.py:233 | A second reconciliation with the same liveness leaves every run as the first did |
| `TrainState.AbortLastAttemptIdempotent` | python/ray/train/v2/tests/test_state.py:233 | Aborting the last attempt twice is aborting it once |
| `TrainState.AttemptsOf` | python/ray/train/v2/tests/test_state.py:195-210 | A run's attempts, or none for an unknown run |
| `TrainState.AbortRun` | python/ray/train/v2/tests/test_state.py:304-336 | One run is replaced by its swept form, with keys kept unique |
| `TrainState.AbortAttempts` | python/ray/train/v2/tests/test_state.py:337-366 | The attempt table after aborting one run, kept valid |
| `TrainState.SweptRuns` | python/ray/train/v2/tests/test_state.py:304-336 | The swept run list has as many runs as before |
| `TrainState.SweepStepsRuns` | python/ray/train/v2/tests/test_state.py:304-336 | After k steps, exactly the runs visited so far are swept and the others are unchanged |
| `TrainState.SweepStepsAttempts` | python/ray/train/v2/tests/test_state.py:337-366 | After k steps, only the attempts of runs aborted so far have their last attempt aborted |
| `TrainState.SweepPass` | python/ray/train/v2/tests/test_state.py:304-366 | A full pass from any start sweeps every run, and the last attempt of every aborted run |
| `TrainState.AttemptsAfterAbortValid` | python/ray/train/v2/tests/test_state.py:337-366 | Aborting a run's attempts keeps the attempt tables keyed correctly |
| `TrainState.SweptValid` | python/ray/train/v2/tests/test_state.py:304-366 | Sweeping keeps run ids unique and the attempt tables keyed correctly |
| `TrainState.SweepTables` | python/ray/train/v2/tests/test_state.py:304-366 | The round-robin loop gives the swept runs and attempts and returns the id of the last run visited |
| `TrainState.TrainStateActor.constructor` | python/ray/train/v2/tests/test_state.py:144-160 | The actor starts with no runs and no attempts |
| `TrainState.TrainStateActor.CreateOrUpdateTrainRun` | python/ray/train/v2/tests/test_state.py:160-177 | The run is stored under its id, replacing a previous record and keeping the order; attempts are unchanged |
| `TrainState.TrainStateActor.CreateOrUpdateTrainRunAttempt` | python/ray/train/v2/tests/test_state.py:195-210 | The attempt is stored under its run id, then its attempt id, replacing a previous record |
| `TrainState.TrainStateActor.AbortRunIfControllerDead` | python/ray/train/v2/tests/test_state.py:304-366 | One run and its attempts are swept |
| `TrainState.TrainStateActor.AbortLiveRunsWithDeadControllers` | python/ray/train/v2/tests/test_state.py:304-366 | Every run with a dead controller is aborted together with its last live attempt; everything else is unchanged; returns where the poll left off |
| `TrainState.FindRunIndex` | python/ray/train/v2/tests/test_state.py:304-309 | The index of the run with that id, or None when no run has it |
| `TrainState.PollStart` | python/ray/train/v2/tests/test_state.py:304-309 | The sweep starts just after the last polled run, or at the first run when that id is unknown |
| `TrainState.AbortLiveRuns` | python/ray/train/v2/tests/test_state.py:304-366 | On the tables themselves: every run swept, the attempts of aborted runs swept, validity kept |
| `TrainState.AbortedWithinVisited` | python/ray/train/v2/tests/test_state.py:304-366 | The recursive "aborted so far" is exactly "some visited run with this id should be aborted" |
| `TrainState.SweptAttemptsOfRun` | python/ray/train/v2/tests/test_state.py:337-366 | With unique ids, each run's attempts are swept exactly when that run should be aborted |

## Left out

- The worker pool's implementation file is not part of this model. Its behaviour comes from the test double, the two mocks and the assertions of `src/ray/raylet/worker_pool_test.cc`.
- OS process spawning, sockets and client connections, the asio event loop, gRPC plumbing and logging are not modelled.
- These are parameters the caller supplies:
  - the clock;
  - the available CPUs (the soft limit);
  - exit replies;
  - the registration timeout event;
  - the runtime-env agent's answer.
- Worker ids are sequential natural numbers (`nextWorkerId`) rather than random ids.
- The idle I/O worker set is a FIFO sequence.
- `WorkerPool.WorkerPool.OnWorkerStarted`: an I/O pool's starting count is decremented saturating at zero rather than checked with an assertion.
- `WorkerPool.WorkerPool.ExitReply`: on a decline, the worker's old idle entry goes back to the end of the list. A fresh entry kept alive from the reply time is not modelled.
- `WorkerPool.WorkerPool.HandleJobFinished`: does not sweep idle workers or fail waiting requests itself.
  - The tests show forced exits only at the next `TryKillingIdleWorkers`.
  - They show JobFinished failures only when a worker is next pushed.
- `WorkerPool.WorkerPool.RegisterDriver`: the deferred reply to the first Python driver is never sent, and the workers prestarted for that driver are not modelled; the tests show only that its reply is not sent at once.
- `WorkerPool.WorkerPool.PopWorker`: its own contract states only the failure cases. The served cases are stated by `WorkerPool.WorkerPool.PopFit`, which it calls.
- `WorkerPool.WorkerPool.PrestartWorkers`: does not model the exclusions that keep dedicated workers from being prestarted. Those are actor creations with dynamic options and non-Python languages; that logic is in the implementation file.
- `WorkerPool.WorkerPool.PushWorkers`:
  - It visits processes in token order; the test double iterates a hash map, whose order is not defined.
  - C++ workers are not supported, as in the test double.
  - Its precondition demands: registration succeeds, the hash parses, and timeoutCount is at most 1. The test double aborts in those cases (`RAY_CHECK_OK`, a throwing `std::stoi`, `RAY_CHECK`).
- Floating point: the disk threshold is a Dafny `real`, not an IEEE double.
- The real disk query (`Space()`) and the temporary directory are not modelled. `OverCapacity` takes each path's space info as input.
- JSON text parsing is left out. `ParseSpillingPaths` takes an already parsed JSON value, and an unparsable text is the `None` input.
- Coordinator:
  - The HTTP server, host lookup and state-file persistence are left out.
  - `create_node` is modelled as taking the first `count` free nodes in table order. The provider's implementation is not part of this model, and the tests create one node at a time.
  - An unknown IP gives `None` or `false` where Python raises `KeyError`.
- Train state:
  - Ray actor remote calls, `get_actor` polling, uuids and time are left out.
  - Controller liveness, "now" and the abort detail text are inputs. The constant's text lives in a file that is not part of this model.
