// The Train run/attempt state store: records of training runs and of their
// attempts, the lifecycle updates applied to them, the mapping from
// controller states to run statuses, and the reconciliation that aborts
// live runs whose controller has died.
module TrainState {
  import opened Wrappers

  datatype RunStatus = Initializing | Scheduling | Running | Restarting | Resizing | Finished | Errored | Aborted
  {
    predicate IsTerminal() { this.Finished? || this.Errored? || this.Aborted? }
  }

  datatype RunAttemptStatus = Pending | Running | Finished | Errored | Aborted
  {
    predicate IsTerminal() { this.Finished? || this.Errored? || this.Aborted? }
  }

  datatype ActorStatus = Alive | Dead

  datatype TrainRun = TrainRun(
    id: string,
    name: string,
    jobId: string,
    status: RunStatus,
    statusDetail: Option<string>,
    controllerActorId: string,
    startTimeNs: nat,
    endTimeNs: Option<nat>,
    controllerLogFilePath: string)

  datatype TrainResources = TrainResources(resources: map<string, int>)

  /** A worker of a worker group, as the controller knows it. */
  datatype Worker = Worker(
    actorId: string,
    nodeId: string,
    nodeIp: string,
    pid: nat,
    worldRank: nat,
    localRank: nat,
    nodeRank: nat,
    resources: map<string, int>,
    logFilePath: string)

  /** A worker as recorded in an attempt. */
  datatype TrainWorker = TrainWorker(
    actorId: string,
    nodeId: string,
    nodeIp: string,
    pid: nat,
    worldRank: nat,
    localRank: nat,
    nodeRank: nat,
    resources: TrainResources,
    status: ActorStatus,
    logFilePath: string)

  datatype TrainRunAttempt = TrainRunAttempt(
    runId: string,
    attemptId: string,
    status: RunAttemptStatus,
    statusDetail: Option<string>,
    startTimeNs: nat,
    endTimeNs: Option<nat>,
    resources: seq<TrainResources>,
    workers: seq<TrainWorker>)

  // ---------------------------------------------------------------------
  // Ordered dictionaries keyed by a field of their values
  // ---------------------------------------------------------------------

  function RunKey(r: TrainRun): string { r.id }
  function AttemptKey(a: TrainRunAttempt): string { a.attemptId }

  /** No two entries share a key. */
  predicate DistinctKeys<T>(s: seq<T>, key: T -> string)
  {
    forall i, j :: 0 <= i < j < |s| ==> key(s[i]) != key(s[j])
  }

  /** The key order of an ordered dictionary. */
  function Keys<T>(s: seq<T>, key: T -> string): (r: seq<string>)
    ensures |r| == |s|
    ensures forall i :: 0 <= i < |s| ==> r[i] == key(s[i])
  {
    if s == [] then [] else [key(s[0])] + Keys(s[1..], key)
  }

  /** d[k], the first entry with key k. */
  function Find<T>(s: seq<T>, k: string, key: T -> string): (r: Option<T>)
    ensures r.Some? ==> r.value in s && key(r.value) == k
    ensures r.None? ==> forall i :: 0 <= i < |s| ==> key(s[i]) != k
  {
    if s == [] then None else if key(s[0]) == k then Some(s[0]) else Find(s[1..], k, key)
  }

  /** d[key(x)] = x: replace the entry with that key where it stands, or append a new one. */
  function Upsert<T>(s: seq<T>, x: T, key: T -> string): seq<T>
  {
    if s == [] then [x]
    else if key(s[0]) == key(x) then [x] + s[1..]
    else [s[0]] + Upsert(s[1..], x, key)
  }

  /** After d[k] = x, looking up k gives x. */
  lemma {:induction false} UpsertFind<T>(s: seq<T>, x: T, key: T -> string)
    ensures Find(Upsert(s, x, key), key(x), key) == Some(x)
  {
    if s != [] && key(s[0]) != key(x) {
      UpsertFind(s[1..], x, key);
    }
  }

  /** After d[k] = x, every other key looks up what it did before. */
  lemma {:induction false} UpsertFindOther<T>(s: seq<T>, x: T, key: T -> string, k: string)
    requires k != key(x)
    ensures Find(Upsert(s, x, key), k, key) == Find(s, k, key)
  {
    if s != [] && key(s[0]) != key(x) {
      UpsertFindOther(s[1..], x, key, k);
    }
  }

  /** d[k] = x keeps the key order; a new key goes to the end. */
  lemma {:induction false} UpsertKeys<T>(s: seq<T>, x: T, key: T -> string)
    ensures Keys(Upsert(s, x, key), key) ==
      if key(x) in Keys(s, key) then Keys(s, key) else Keys(s, key) + [key(x)]
  {
    if s != [] {
      if key(s[0]) != key(x) {
        UpsertKeys(s[1..], x, key);
        assert Upsert(s, x, key)[1..] == Upsert(s[1..], x, key);
        assert Keys(s, key) == [key(s[0])] + Keys(s[1..], key);
      } else {
        assert Keys(s, key) == [key(s[0])] + Keys(s[1..], key);
        assert Keys(Upsert(s, x, key), key) == [key(x)] + Keys(s[1..], key);
      }
    }
  }

  /** With distinct keys, d[k] = x on an existing key replaces that entry in place. */
  lemma {:induction false} UpsertAt<T>(s: seq<T>, i: nat, x: T, key: T -> string)
    requires DistinctKeys(s, key) && i < |s| && key(s[i]) == key(x)
    ensures Upsert(s, x, key) == s[i := x]
  {
    if i > 0 {
      assert key(s[0]) != key(s[i]);
      assert DistinctKeys(s[1..], key) by {
        forall a, b | 0 <= a < b < |s[1..]| ensures key(s[1..][a]) != key(s[1..][b]) {
          assert s[1..][a] == s[a + 1] && s[1..][b] == s[b + 1];
        }
      }
      UpsertAt(s[1..], i - 1, x, key);
      assert s[i := x] == [s[0]] + s[1..][i - 1 := x];
    }
  }

  /** The entries after d[k] = x are x and entries that were there before. */
  lemma {:induction false} UpsertMembers<T>(s: seq<T>, x: T, key: T -> string)
    ensures forall y :: y in Upsert(s, x, key) ==> y == x || y in s
  {
    if s != [] && key(s[0]) != key(x) {
      UpsertMembers(s[1..], x, key);
    }
  }

  /** d[k] = x keeps the keys distinct. */
  lemma UpsertDistinct<T>(s: seq<T>, x: T, key: T -> string)
    requires DistinctKeys(s, key)
    ensures DistinctKeys(Upsert(s, x, key), key)
  {
    var u := Upsert(s, x, key);
    UpsertKeys(s, x, key);
    var ks := Keys(s, key);
    var ku := Keys(u, key);
    forall a, b | 0 <= a < b < |u| ensures key(u[a]) != key(u[b]) {
      assert ku[a] == key(u[a]) && ku[b] == key(u[b]);
      if key(x) !in ks {
        assert ku == ks + [key(x)];
        if b < |ks| {
          assert ks[a] == key(s[a]) && ks[b] == key(s[b]);
        } else {
          assert ku[b] == key(x);
          assert ku[a] == ks[a];
        }
      } else {
        assert ks[a] == key(s[a]) && ks[b] == key(s[b]);
      }
    }
  }

  /** Replacing an entry by one with the same key keeps the keys distinct. */
  lemma DistinctKeysUpdate<T>(s: seq<T>, i: nat, x: T, key: T -> string)
    requires DistinctKeys(s, key) && i < |s| && key(x) == key(s[i])
    ensures DistinctKeys(s[i := x], key)
  {
    var u := s[i := x];
    forall a, b | 0 <= a < b < |u| ensures key(u[a]) != key(u[b]) {
      assert key(u[a]) == key(s[a]) && key(u[b]) == key(s[b]);
    }
  }

  // ---------------------------------------------------------------------
  // Lifecycle updates of runs and attempts
  // ---------------------------------------------------------------------

  /** A run's end time is set exactly when its status is terminal. */
  predicate RunWellFormed(r: TrainRun)
  {
    r.endTimeNs.Some? <==> r.status.IsTerminal()
  }

  /**
   * An attempt's end time is set exactly when its status is terminal; a
   * running attempt's workers are alive and a terminal attempt's are dead.
   */
  predicate AttemptWellFormed(a: TrainRunAttempt)
  {
    (a.endTimeNs.Some? <==> a.status.IsTerminal()) &&
    (a.status == RunAttemptStatus.Running ==> forall w :: w in a.workers ==> w.status == Alive) &&
    (a.status.IsTerminal() ==> forall w :: w in a.workers ==> w.status == Dead)
  }

  /** create_train_run: a new run starts INITIALIZING at time now, with no end time. */
  function NewTrainRun(id: string, name: string, jobId: string, controllerActorId: string,
                       controllerLogFilePath: string, now: nat): (r: TrainRun)
    ensures r.id == id && r.status == RunStatus.Initializing && r.startTimeNs == now
    ensures r.endTimeNs.None? && r.statusDetail.None?
    ensures r.controllerLogFilePath == controllerLogFilePath
    ensures RunWellFormed(r)
  {
    TrainRun(id, name, jobId, RunStatus.Initializing, None, controllerActorId, now, None, controllerLogFilePath)
  }

  /**
   * The state manager's run update: set the status and its detail; a
   * terminal status also stamps the end time with now.
   */
  function UpdateRun(r: TrainRun, status: RunStatus, detail: Option<string>, now: nat): (u: TrainRun)
    ensures u.status == status && u.statusDetail == detail
    ensures u.endTimeNs == if status.IsTerminal() then Some(now) else r.endTimeNs
    ensures u.(status := r.status, statusDetail := r.statusDetail, endTimeNs := r.endTimeNs) == r
  {
    r.(status := status, statusDetail := detail, endTimeNs := if status.IsTerminal() then Some(now) else r.endTimeNs)
  }

  /** Updating a run that has not ended keeps it well-formed, whatever the new status. */
  lemma UpdateRunWellFormed(r: TrainRun, status: RunStatus, detail: Option<string>, now: nat)
    requires RunWellFormed(r) && !r.status.IsTerminal()
    ensures RunWellFormed(UpdateRun(r, status, detail, now))
  {
  }

  /** The states of the training controller. */
  datatype ControllerState =
    | InitializingState
    | SchedulingState
    | ReschedulingState
    | RunningState
    | RestartingState
    | ResizingState
    | FinishedState
    | ErroredState(errorMessage: string)

  /** The run status the state-manager callback reports for a controller state. */
  function RunStatusFor(s: ControllerState): (r: RunStatus)
    ensures r.IsTerminal() <==> s.FinishedState? || s.ErroredState?
    ensures r != RunStatus.Aborted
  {
    match s
    case InitializingState => RunStatus.Initializing
    case SchedulingState => RunStatus.Scheduling
    case ReschedulingState => RunStatus.Scheduling
    case RunningState => RunStatus.Running
    case RestartingState => RunStatus.Restarting
    case ResizingState => RunStatus.Resizing
    case FinishedState => RunStatus.Finished
    case ErroredState(_) => RunStatus.Errored
  }

  /** The detail recorded with a controller state: the error message of an errored controller. */
  function DetailFor(s: ControllerState): Option<string>
  {
    if s.ErroredState? then Some(s.errorMessage) else None
  }

  /** after_controller_state_update: record the new controller state on the run. */
  function AfterControllerStateUpdate(r: TrainRun, s: ControllerState, now: nat): (u: TrainRun)
    ensures u.id == r.id && u.status == RunStatusFor(s)
    ensures s.ErroredState? ==> u.statusDetail == Some(s.errorMessage) && u.endTimeNs == Some(now)
  {
    UpdateRun(r, RunStatusFor(s), DetailFor(s), now)
  }

  /** The runs a controller produces from a new run by reporting the given states in turn. */
  function ApplyStates(r: TrainRun, states: seq<ControllerState>, now: nat): TrainRun
    decreases |states|
  {
    if states == [] then r else ApplyStates(AfterControllerStateUpdate(r, states[0], now), states[1..], now)
  }

  /**
   * Over any sequence of controller states that ends at most once, at its
   * last state, the run reports the status of the last state, and its end
   * time is set exactly when that status is terminal.
   */
  lemma {:induction false} ApplyStatesLifecycle(r: TrainRun, states: seq<ControllerState>, now: nat)
    requires RunWellFormed(r) && !r.status.IsTerminal()
    requires states != []
    requires forall i :: 0 <= i < |states| - 1 ==> !RunStatusFor(states[i]).IsTerminal()
    ensures ApplyStates(r, states, now).status == RunStatusFor(states[|states| - 1])
    ensures RunWellFormed(ApplyStates(r, states, now))
    ensures ApplyStates(r, states, now).id == r.id
    decreases |states|
  {
    var next := AfterControllerStateUpdate(r, states[0], now);
    UpdateRunWellFormed(r, RunStatusFor(states[0]), DetailFor(states[0]), now);
    if |states| > 1 {
      ApplyStatesLifecycle(next, states[1..], now);
    }
  }

  /** create_train_run_attempt: PENDING, with one resources entry per worker and no worker yet. */
  function NewTrainRunAttempt(runId: string, attemptId: string, numWorkers: nat,
                              resourcesPerWorker: map<string, int>, now: nat): (a: TrainRunAttempt)
    ensures a.runId == runId && a.attemptId == attemptId && a.status == RunAttemptStatus.Pending
    ensures |a.resources| == numWorkers && forall res :: res in a.resources ==> res.resources == resourcesPerWorker
    ensures a.workers == [] && a.startTimeNs == now
    ensures AttemptWellFormed(a)
  {
    TrainRunAttempt(runId, attemptId, RunAttemptStatus.Pending, None, now, None,
                    seq(numWorkers, _ => TrainResources(resourcesPerWorker)), [])
  }

  /** The record of a worker with the given status. */
  function RecordWorker(w: Worker, status: ActorStatus): (t: TrainWorker)
    ensures t.actorId == w.actorId && t.status == status
    ensures t.resources.resources == w.resources && t.logFilePath == w.logFilePath
  {
    TrainWorker(w.actorId, w.nodeId, w.nodeIp, w.pid, w.worldRank, w.localRank, w.nodeRank,
                TrainResources(w.resources), status, w.logFilePath)
  }

  /** update_train_run_attempt_running: RUNNING, with every worker of the group recorded ALIVE, in order. */
  function AttemptRunning(a: TrainRunAttempt, workers: seq<Worker>): (u: TrainRunAttempt)
    requires !a.status.IsTerminal() && a.endTimeNs.None?
    ensures u.status == RunAttemptStatus.Running && |u.workers| == |workers|
    ensures forall i :: 0 <= i < |workers| ==> u.workers[i] == RecordWorker(workers[i], Alive)
    ensures AttemptWellFormed(u)
  {
    a.(status := RunAttemptStatus.Running, workers := seq(|workers|, i requires 0 <= i < |workers| => RecordWorker(workers[i], Alive)))
  }

  /** Every recorded worker marked DEAD; nothing else about them changes. */
  function MarkWorkersDead(ws: seq<TrainWorker>): (r: seq<TrainWorker>)
    ensures |r| == |ws|
    ensures forall i :: 0 <= i < |ws| ==> r[i] == ws[i].(status := Dead)
  {
    seq(|ws|, i requires 0 <= i < |ws| => ws[i].(status := Dead))
  }

  /**
   * The end of an attempt: a terminal status, its detail, the end time
   * now, and every worker dead.
   */
  function EndAttempt(a: TrainRunAttempt, status: RunAttemptStatus, detail: Option<string>, now: nat): (u: TrainRunAttempt)
    requires status.IsTerminal()
    ensures u.status == status && u.statusDetail == detail && u.endTimeNs == Some(now)
    ensures |u.workers| == |a.workers| && forall i :: 0 <= i < |a.workers| ==> u.workers[i] == a.workers[i].(status := Dead)
    ensures u.runId == a.runId && u.attemptId == a.attemptId && u.resources == a.resources
    ensures AttemptWellFormed(u)
  {
    a.(status := status, statusDetail := detail, endTimeNs := Some(now), workers := MarkWorkersDead(a.workers))
  }

  /**
   * before_worker_group_shutdown: the attempt ends FINISHED, or ERRORED
   * with the error string when the latest poll of the group reported errors.
   */
  function AttemptAtShutdown(a: TrainRunAttempt, pollError: Option<string>, now: nat): (u: TrainRunAttempt)
    ensures pollError.None? ==> u.status == RunAttemptStatus.Finished && u.statusDetail.None?
    ensures pollError.Some? ==> u.status == RunAttemptStatus.Errored && u.statusDetail == pollError
    ensures u.endTimeNs == Some(now) && forall w :: w in u.workers ==> w.status == Dead
  {
    match pollError
    case None => EndAttempt(a, RunAttemptStatus.Finished, None, now)
    case Some(msg) => EndAttempt(a, RunAttemptStatus.Errored, Some(msg), now)
  }

  /** before_worker_group_abort: the attempt ends ABORTED. */
  function AttemptAborted(a: TrainRunAttempt, detail: Option<string>, now: nat): (u: TrainRunAttempt)
    ensures u.status == RunAttemptStatus.Aborted && u.endTimeNs == Some(now)
    ensures forall w :: w in u.workers ==> w.status == Dead
  {
    EndAttempt(a, RunAttemptStatus.Aborted, detail, now)
  }

  /** The attempt lifecycle: created PENDING, then RUNNING with live workers, then FINISHED with dead workers. */
  lemma AttemptLifecycle(runId: string, attemptId: string, numWorkers: nat, resourcesPerWorker: map<string, int>,
                         workers: seq<Worker>, start: nat, end: nat)
    ensures var created := NewTrainRunAttempt(runId, attemptId, numWorkers, resourcesPerWorker, start);
      var running := AttemptRunning(created, workers);
      var finished := AttemptAtShutdown(running, None, end);
      created.status == RunAttemptStatus.Pending && |created.resources| == numWorkers &&
      running.status == RunAttemptStatus.Running && |running.workers| == |workers| &&
      (forall w :: w in running.workers ==> w.status == Alive) &&
      finished.status == RunAttemptStatus.Finished && finished.endTimeNs == Some(end) &&
      |finished.workers| == |workers| && (forall w :: w in finished.workers ==> w.status == Dead) &&
      (forall i :: 0 <= i < |workers| ==> finished.workers[i].logFilePath == workers[i].logFilePath)
  {
    var created := NewTrainRunAttempt(runId, attemptId, numWorkers, resourcesPerWorker, start);
    var running := AttemptRunning(created, workers);
    assert forall w :: w in running.workers ==> w.status == Alive by {
      forall w | w in running.workers ensures w.status == Alive {
        var i :| 0 <= i < |running.workers| && running.workers[i] == w;
      }
    }
  }

  // ---------------------------------------------------------------------
  // Aborting live runs whose controller has died
  // ---------------------------------------------------------------------

  /** The controller actor is known and alive; a controller that is not found counts as dead. */
  predicate ControllerAlive(liveness: map<string, ActorStatus>, controllerActorId: string)
  {
    controllerActorId in liveness && liveness[controllerActorId] == Alive
  }

  /** A run the reconciliation aborts: not yet ended, and its controller is not alive. */
  predicate ShouldAbort(r: TrainRun, liveness: map<string, ActorStatus>)
  {
    !r.status.IsTerminal() && !ControllerAlive(liveness, r.controllerActorId)
  }

  /** A run as the reconciliation leaves it: ABORTED with the detail and end time now if it should be aborted, else untouched. */
  function AfterSweep(r: TrainRun, liveness: map<string, ActorStatus>, detail: string, now: nat): (u: TrainRun)
    ensures ShouldAbort(r, liveness) ==>
      u.status == RunStatus.Aborted && u.statusDetail == Some(detail) && u.endTimeNs == Some(now)
    ensures !ShouldAbort(r, liveness) ==> u == r
    ensures u.id == r.id && u.controllerActorId == r.controllerActorId && u.startTimeNs == r.startTimeNs
  {
    if ShouldAbort(r, liveness) then UpdateRun(r, RunStatus.Aborted, Some(detail), now) else r
  }

  /** The attempts of an aborted run: only the last one, and only if it has not ended, becomes ABORTED. */
  function AbortLastAttempt(s: seq<TrainRunAttempt>, detail: string, now: nat): seq<TrainRunAttempt>
  {
    if s != [] && !s[|s| - 1].status.IsTerminal() then
      s[..|s| - 1] + [AttemptAborted(s[|s| - 1], Some(detail), now)]
    else s
  }

  /** Aborting the last attempt keeps every earlier attempt, and leaves an ended last attempt alone. */
  lemma AbortLastAttemptOnlyLast(s: seq<TrainRunAttempt>, detail: string, now: nat)
    ensures var r := AbortLastAttempt(s, detail, now);
      |r| == |s| && (forall i :: 0 <= i < |s| - 1 ==> r[i] == s[i])
    ensures s != [] && !s[|s| - 1].status.IsTerminal() ==>
      AbortLastAttempt(s, detail, now)[|s| - 1] == AttemptAborted(s[|s| - 1], Some(detail), now)
    ensures s == [] || s[|s| - 1].status.IsTerminal() ==> AbortLastAttempt(s, detail, now) == s
  {
  }

  /** A second reconciliation with the same liveness leaves every run as the first one did. */
  lemma SweepIdempotent(r: TrainRun, liveness: map<string, ActorStatus>, detail: string, now: nat, later: nat)
    ensures AfterSweep(AfterSweep(r, liveness, detail, now), liveness, detail, later) == AfterSweep(r, liveness, detail, now)
  {
  }

  /** Aborting the last attempt twice is aborting it once. */
  lemma AbortLastAttemptIdempotent(s: seq<TrainRunAttempt>, detail: string, now: nat, later: nat)
    ensures AbortLastAttempt(AbortLastAttempt(s, detail, now), detail, later) == AbortLastAttempt(s, detail, now)
  {
  }

  /** The attempts recorded for a run; none when the run has no entry. */
  function AttemptsOf(m: map<string, seq<TrainRunAttempt>>, runId: string): (s: seq<TrainRunAttempt>)
    ensures runId !in m ==> s == []
    ensures runId in m ==> s == m[runId]
  {
    if runId in m then m[runId] else []
  }

  /** The attempt tables after the reconciliation has looked at run r. */
  function AttemptsAfterAbort(m: map<string, seq<TrainRunAttempt>>, r: TrainRun, liveness: map<string, ActorStatus>,
                              detail: string, now: nat): map<string, seq<TrainRunAttempt>>
  {
    if ShouldAbort(r, liveness) && r.id in m then m[r.id := AbortLastAttempt(m[r.id], detail, now)] else m
  }

  /**
   * Whether index i of a table of n runs has been visited after k steps of a
   * round-robin pass that starts at index start.
   */
  predicate Visited(i: int, start: int, k: int, n: int)
  {
    if i >= start then i - start < k else i + n - start < k
  }

  /** Each run's attempt table has distinct attempt ids, all of attempts of that run. */
  ghost predicate AttemptTablesValid(attempts: map<string, seq<TrainRunAttempt>>)
  {
    forall rid :: rid in attempts ==>
      DistinctKeys(attempts[rid], AttemptKey) && forall a :: a in attempts[rid] ==> a.runId == rid
  }

  /** Run ids are distinct, and so are the attempt ids of each run. */
  ghost predicate TablesValid(runs: seq<TrainRun>, attempts: map<string, seq<TrainRunAttempt>>)
  {
    DistinctKeys(runs, RunKey) && AttemptTablesValid(attempts)
  }

  /** The run at index j as the reconciliation leaves it, stored back via create_or_update_train_run. */
  method AbortRun(runs: seq<TrainRun>, j: nat, liveness: map<string, ActorStatus>, detail: string, now: nat)
    returns (runs': seq<TrainRun>)
    requires DistinctKeys(runs, RunKey) && j < |runs|
    ensures DistinctKeys(runs', RunKey)
    ensures runs' == runs[j := AfterSweep(runs[j], liveness, detail, now)]
  {
    runs' := runs;
    var run := runs[j];
    if ShouldAbort(run, liveness) {
      var aborted := UpdateRun(run, RunStatus.Aborted, Some(detail), now);
      UpsertAt(runs, j, aborted, RunKey);
      UpsertDistinct(runs, aborted, RunKey);
      runs' := Upsert(runs, aborted, RunKey);
    }
  }

  /** The attempts of run as the reconciliation leaves them, stored back via create_or_update_train_run_attempt. */
  method AbortAttempts(attempts: map<string, seq<TrainRunAttempt>>, run: TrainRun,
                       liveness: map<string, ActorStatus>, detail: string, now: nat)
    returns (attempts': map<string, seq<TrainRunAttempt>>)
    requires AttemptTablesValid(attempts)
    ensures AttemptTablesValid(attempts')
    ensures attempts' == AttemptsAfterAbort(attempts, run, liveness, detail, now)
  {
    attempts' := attempts;
    if ShouldAbort(run, liveness) && run.id in attempts {
      var s := attempts[run.id];
      if s != [] && !s[|s| - 1].status.IsTerminal() {
        var last := AttemptAborted(s[|s| - 1], Some(detail), now);
        assert s[|s| - 1] in s;
        UpsertAt(s, |s| - 1, last, AttemptKey);
        UpsertDistinct(s, last, AttemptKey);
        UpsertMembers(s, last, AttemptKey);
        attempts' := attempts[run.id := Upsert(s, last, AttemptKey)];
        assert s[|s| - 1 := last] == s[..|s| - 1] + [last];
      } else {
        assert attempts[run.id := AbortLastAttempt(s, detail, now)] == attempts;
      }
    }
  }

  /** The index a round-robin pass over n runs from start visits at step k. */
  function VisitIndex(start: int, k: int, n: int): int
  {
    if start + k < n then start + k else start + k - n
  }

  /** The run table after k steps of the reconciliation pass from start, one run per step. */
  function SweptRuns(runs: seq<TrainRun>, start: nat, k: nat, liveness: map<string, ActorStatus>,
                     detail: string, now: nat): (r: seq<TrainRun>)
    requires start < |runs| && k <= |runs|
    ensures |r| == |runs|
    decreases k
  {
    if k == 0 then runs
    else
      var r := SweptRuns(runs, start, k - 1, liveness, detail, now);
      var j := VisitIndex(start, k - 1, |runs|);
      r[j := AfterSweep(r[j], liveness, detail, now)]
  }

  /** The attempt tables after k steps of the reconciliation pass from start over runs. */
  function SweptAttempts(runs: seq<TrainRun>, attempts: map<string, seq<TrainRunAttempt>>, start: nat, k: nat,
                         liveness: map<string, ActorStatus>, detail: string, now: nat): map<string, seq<TrainRunAttempt>>
    requires start < |runs| && k <= |runs|
    decreases k
  {
    if k == 0 then attempts
    else
      AttemptsAfterAbort(SweptAttempts(runs, attempts, start, k - 1, liveness, detail, now),
                         runs[VisitIndex(start, k - 1, |runs|)], liveness, detail, now)
  }

  /** After k steps the visited runs are swept and the others untouched. */
  lemma {:induction false} SweepStepsRuns(runs: seq<TrainRun>, start: nat, k: nat,
                                          liveness: map<string, ActorStatus>, detail: string, now: nat)
    requires start < |runs| && k <= |runs|
    ensures RunsAfterSteps(runs, SweptRuns(runs, start, k, liveness, detail, now), start, k, liveness, detail, now)
    decreases k
  {
    if k > 0 {
      SweepStepsRuns(runs, start, k - 1, liveness, detail, now);
      VisitNext(start, k - 1, |runs|, VisitIndex(start, k - 1, |runs|));
    }
  }

  /** After k steps the attempts of each run the pass aborted have their last attempt aborted, the others are untouched. */
  lemma {:induction false} SweepStepsAttempts(runs: seq<TrainRun>, attempts: map<string, seq<TrainRunAttempt>>, start: nat, k: nat,
                                              liveness: map<string, ActorStatus>, detail: string, now: nat)
    requires start < |runs| && k <= |runs|
    ensures AttemptsAfterSteps(runs, attempts, SweptAttempts(runs, attempts, start, k, liveness, detail, now),
                               start, k, liveness, detail, now)
    decreases k
  {
    if k > 0 {
      SweepStepsAttempts(runs, attempts, start, k - 1, liveness, detail, now);
      var run := runs[VisitIndex(start, k - 1, |runs|)];
      var prev := SweptAttempts(runs, attempts, start, k - 1, liveness, detail, now);
      var cur := SweptAttempts(runs, attempts, start, k, liveness, detail, now);
      assert cur == AttemptsAfterAbort(prev, run, liveness, detail, now);
      forall rid | rid in attempts
        ensures cur[rid] == if AbortedWithin(runs, rid, start, k, liveness) then AbortLastAttempt(attempts[rid], detail, now)
                            else attempts[rid]
      {
        if rid == run.id && ShouldAbort(run, liveness) {
          AbortLastAttemptIdempotent(attempts[rid], detail, now, now);
          assert cur[rid] == AbortLastAttempt(prev[rid], detail, now);
        } else {
          assert cur[rid] == prev[rid];
          assert AbortedWithin(runs, rid, start, k, liveness) == AbortedWithin(runs, rid, start, k - 1, liveness);
        }
      }
    }
  }

  /**
   * The tables after the reconciliation: every run swept, the same runs with
   * attempt tables, the attempts of each aborted run with the last one
   * aborted, and the attempt tables of unknown runs untouched.
   */
  ghost predicate SweptAll(runs0: seq<TrainRun>, attempts0: map<string, seq<TrainRunAttempt>>,
                           runs: seq<TrainRun>, attempts: map<string, seq<TrainRunAttempt>>,
                           liveness: map<string, ActorStatus>, detail: string, now: nat)
  {
    && |runs| == |runs0|
    && (forall i :: 0 <= i < |runs0| ==> runs[i] == AfterSweep(runs0[i], liveness, detail, now))
    && (forall rid :: rid in attempts <==> rid in attempts0)
    && (forall rid :: rid in attempts0 ==>
          attempts[rid] ==
            if AbortsRun(runs0, rid, liveness) then AbortLastAttempt(attempts0[rid], detail, now)
            else attempts0[rid])
  }

  /** Some run with id rid should be aborted. */
  ghost predicate AbortsRun(runs: seq<TrainRun>, rid: string, liveness: map<string, ActorStatus>)
  {
    exists i :: 0 <= i < |runs| && runs[i].id == rid && ShouldAbort(runs[i], liveness)
  }

  /** A complete pass, from any start, sweeps every run and the attempts of every run it aborts. */
  lemma SweepPass(runs: seq<TrainRun>, attempts: map<string, seq<TrainRunAttempt>>, start: nat,
                  liveness: map<string, ActorStatus>, detail: string, now: nat)
    requires start < |runs|
    ensures SweptAll(runs, attempts, SweptRuns(runs, start, |runs|, liveness, detail, now),
                     SweptAttempts(runs, attempts, start, |runs|, liveness, detail, now), liveness, detail, now)
  {
    var n := |runs|;
    SweepStepsRuns(runs, start, n, liveness, detail, now);
    SweepStepsAttempts(runs, attempts, start, n, liveness, detail, now);
    assert forall i :: 0 <= i < n ==> Visited(i, start, n, n);
    forall rid | rid in attempts ensures AbortedWithin(runs, rid, start, n, liveness) == AbortsRun(runs, rid, liveness) {
      AbortedWithinVisited(runs, rid, start, n, liveness);
    }
  }

  /** Aborting the last attempt of a run keeps its attempt table valid. */
  lemma AttemptsAfterAbortValid(m: map<string, seq<TrainRunAttempt>>, r: TrainRun, liveness: map<string, ActorStatus>,
                                detail: string, now: nat)
    requires AttemptTablesValid(m)
    ensures AttemptTablesValid(AttemptsAfterAbort(m, r, liveness, detail, now))
  {
    if ShouldAbort(r, liveness) && r.id in m {
      var s := m[r.id];
      if s != [] && !s[|s| - 1].status.IsTerminal() {
        var last := AttemptAborted(s[|s| - 1], Some(detail), now);
        assert AbortLastAttempt(s, detail, now) == s[|s| - 1 := last];
        assert s[|s| - 1] in s;
        DistinctKeysUpdate(s, |s| - 1, last, AttemptKey);
        forall a | a in s[|s| - 1 := last] ensures a.runId == r.id {
          var i :| 0 <= i < |s| && s[|s| - 1 := last][i] == a;
          assert i < |s| - 1 ==> a in s;
        }
      }
    }
  }

  /** Every step of the pass keeps the tables valid. */
  lemma {:induction false} SweptValid(runs: seq<TrainRun>, attempts: map<string, seq<TrainRunAttempt>>, start: nat, k: nat,
                                      liveness: map<string, ActorStatus>, detail: string, now: nat)
    requires TablesValid(runs, attempts) && start < |runs| && k <= |runs|
    ensures TablesValid(SweptRuns(runs, start, k, liveness, detail, now), SweptAttempts(runs, attempts, start, k, liveness, detail, now))
    decreases k
  {
    if k > 0 {
      SweptValid(runs, attempts, start, k - 1, liveness, detail, now);
      var r := SweptRuns(runs, start, k - 1, liveness, detail, now);
      var j := VisitIndex(start, k - 1, |runs|);
      DistinctKeysUpdate(r, j, AfterSweep(r[j], liveness, detail, now), RunKey);
      AttemptsAfterAbortValid(SweptAttempts(runs, attempts, start, k - 1, liveness, detail, now), runs[j], liveness, detail, now);
    }
  }

  /**
   * The reconciliation pass on the tables: every run visited once, round robin
   * from index start, each aborted with its last attempt when its controller
   * is dead. Returns the id of the run visited at the last step, the one just before start.
   */
  method SweepTables(runs: seq<TrainRun>, attempts: map<string, seq<TrainRunAttempt>>, start: nat,
                     liveness: map<string, ActorStatus>, detail: string, now: nat)
    returns (runs': seq<TrainRun>, attempts': map<string, seq<TrainRunAttempt>>, last: string)
    requires TablesValid(runs, attempts) && start < |runs|
    ensures runs' == SweptRuns(runs, start, |runs|, liveness, detail, now)
    ensures attempts' == SweptAttempts(runs, attempts, start, |runs|, liveness, detail, now)
    ensures last == runs[if start == 0 then |runs| - 1 else start - 1].id
  {
    var n := |runs|;
    runs', attempts' := runs, attempts;
    var k := 0;
    while k < n
      invariant 0 <= k <= n
      invariant runs' == SweptRuns(runs, start, k, liveness, detail, now)
      invariant attempts' == SweptAttempts(runs, attempts, start, k, liveness, detail, now)
    {
      var j := VisitIndex(start, k, n);
      SweptValid(runs, attempts, start, k, liveness, detail, now);
      runs' := AbortRun(runs', j, liveness, detail, now);
      attempts' := AbortAttempts(attempts', runs[j], liveness, detail, now);
      k := k + 1;
    }
    last := runs[VisitIndex(start, n - 1, n)].id;
  }

  /** The state actor: the ordered run table and, per run, the ordered attempt table. */
  class TrainStateActor {
    var runs: seq<TrainRun>
    var attempts: map<string, seq<TrainRunAttempt>>

    ghost predicate Valid()
      reads this
    {
      TablesValid(runs, attempts)
    }

    constructor ()
      ensures Valid() && runs == [] && attempts == map[]
    {
      runs := [];
      attempts := map[];
    }

    /** create_or_update_train_run: store the run under its id, replacing any earlier record. */
    method CreateOrUpdateTrainRun(run: TrainRun)
      requires Valid()
      modifies this
      ensures Valid()
      ensures runs == Upsert(old(runs), run, RunKey) && attempts == old(attempts)
    {
      UpsertDistinct(runs, run, RunKey);
      runs := Upsert(runs, run, RunKey);
    }

    /** create_or_update_train_run_attempt: store the attempt under its run id, then its attempt id. */
    method CreateOrUpdateTrainRunAttempt(attempt: TrainRunAttempt)
      requires Valid()
      modifies this
      ensures Valid() && runs == old(runs)
      ensures attempts == old(attempts)[attempt.runId := Upsert(AttemptsOf(old(attempts), attempt.runId), attempt, AttemptKey)]
    {
      var current := AttemptsOf(attempts, attempt.runId);
      UpsertDistinct(current, attempt, AttemptKey);
      UpsertMembers(current, attempt, AttemptKey);
      attempts := attempts[attempt.runId := Upsert(current, attempt, AttemptKey)];
    }

    /** One step of the reconciliation: abort the run at index j and its last attempt if its controller is dead. */
    method AbortRunIfControllerDead(j: nat, liveness: map<string, ActorStatus>, detail: string, now: nat)
      requires Valid() && j < |runs|
      modifies this
      ensures Valid()
      ensures runs == old(runs)[j := AfterSweep(old(runs)[j], liveness, detail, now)]
      ensures attempts == AttemptsAfterAbort(old(attempts), old(runs)[j], liveness, detail, now)
    {
      var run := runs[j];
      runs := AbortRun(runs, j, liveness, detail, now);
      attempts := AbortAttempts(attempts, run, liveness, detail, now);
    }

    /**
     * _abort_live_runs_with_dead_controllers: visit every run once, round
     * robin from the run after lastPollRunId, aborting each live run whose
     * controller is dead together with its last unfinished attempt. Returns
     * the id of the last run visited.
     */
    method AbortLiveRunsWithDeadControllers(lastPollRunId: Option<string>, liveness: map<string, ActorStatus>,
                                            detail: string, now: nat) returns (polled: Option<string>)
      requires Valid()
      modifies this
      ensures Valid()
      ensures SweptAll(old(runs), old(attempts), runs, attempts, liveness, detail, now)
      ensures polled == NextPoll(old(runs), lastPollRunId)
    {
      runs, attempts, polled := AbortLiveRuns(runs, attempts, lastPollRunId, liveness, detail, now);
    }
  }

  /** The position of the run with the given id in the run table. */
  method FindRunIndex(runs: seq<TrainRun>, id: string) returns (idx: Option<nat>)
    ensures idx.Some? ==> idx.value < |runs| && runs[idx.value].id == id
    ensures idx.None? ==> forall i :: 0 <= i < |runs| ==> runs[i].id != id
  {
    var i := 0;
    while i < |runs|
      invariant 0 <= i <= |runs|
      invariant forall j :: 0 <= j < i ==> runs[j].id != id
    {
      if runs[i].id == id {
        return Some(i);
      }
      i := i + 1;
    }
    return None;
  }

  /** The index the pass starts at: the one after the run last polled, or 0 when that run is gone. */
  method PollStart(runs: seq<TrainRun>, lastPollRunId: Option<string>) returns (start: nat)
    requires |runs| > 0
    ensures start < |runs|
    ensures lastPollRunId.Some? && HasRun(runs, lastPollRunId.value) ==>
      runs[if start == 0 then |runs| - 1 else start - 1].id == lastPollRunId.value
    ensures lastPollRunId.None? || !HasRun(runs, lastPollRunId.value) ==> start == 0
  {
    var n := |runs|;
    start := 0;
    if lastPollRunId.Some? {
      var idx := FindRunIndex(runs, lastPollRunId.value);
      if idx.Some? {
        start := if idx.value + 1 == n then 0 else idx.value + 1;
      }
    }
  }

  /** Some run of the table has id rid. */
  predicate HasRun(runs: seq<TrainRun>, rid: string)
  {
    exists i :: 0 <= i < |runs| && runs[i].id == rid
  }

  /**
   * The run the reconciliation polls last: none changes when there are no
   * runs; otherwise the pass ends on the run just before its start, which is
   * the run polled last time when it is still there, and the last run of the
   * table when it is not.
   */
  function NextPoll(runs: seq<TrainRun>, lastPollRunId: Option<string>): Option<string>
  {
    if runs == [] then lastPollRunId
    else if lastPollRunId.Some? && HasRun(runs, lastPollRunId.value) then lastPollRunId
    else Some(runs[|runs| - 1].id)
  }

  /** _abort_live_runs_with_dead_controllers on the tables. */
  method AbortLiveRuns(runs: seq<TrainRun>, attempts: map<string, seq<TrainRunAttempt>>, lastPollRunId: Option<string>,
                       liveness: map<string, ActorStatus>, detail: string, now: nat)
    returns (runs': seq<TrainRun>, attempts': map<string, seq<TrainRunAttempt>>, polled: Option<string>)
    requires TablesValid(runs, attempts)
    ensures TablesValid(runs', attempts')
    ensures SweptAll(runs, attempts, runs', attempts', liveness, detail, now)
    ensures polled == NextPoll(runs, lastPollRunId)
  {
    var n := |runs|;
    if n == 0 {
      assert forall rid :: !AbortsRun(runs, rid, liveness);
      return runs, attempts, lastPollRunId;
    }
    var start := PollStart(runs, lastPollRunId);
    SweepPass(runs, attempts, start, liveness, detail, now);
    SweptValid(runs, attempts, start, n, liveness, detail, now);
    var last;
    runs', attempts', last := SweepTables(runs, attempts, start, liveness, detail, now);
    polled := Some(last);
  }

  /** Step k of a round-robin pass from start visits index j, which it had not visited before, and no other. */
  lemma VisitNext(start: int, k: int, n: int, j: int)
    requires 0 <= start < n && 0 <= k < n && j == VisitIndex(start, k, n)
    ensures 0 <= j < n && !Visited(j, start, k, n)
    ensures forall i :: 0 <= i < n ==> (Visited(i, start, k + 1, n) <==> Visited(i, start, k, n) || i == j)
  {
  }

  /** Invariant of the round-robin pass over the run table after k steps: the visited runs are swept, the others untouched. */
  ghost predicate RunsAfterSteps(runs0: seq<TrainRun>, runs: seq<TrainRun>, start: int, k: int,
                                 liveness: map<string, ActorStatus>, detail: string, now: nat)
  {
    |runs| == |runs0| &&
    forall i :: 0 <= i < |runs0| ==>
      runs[i] == if Visited(i, start, k, |runs0|) then AfterSweep(runs0[i], liveness, detail, now) else runs0[i]
  }

  /** Whether the first k steps of the pass from start abort a run with id rid. */
  function AbortedWithin(runs: seq<TrainRun>, rid: string, start: nat, k: nat, liveness: map<string, ActorStatus>): bool
    requires start < |runs| && k <= |runs|
    decreases k
  {
    if k == 0 then false
    else
      var j := VisitIndex(start, k - 1, |runs|);
      AbortedWithin(runs, rid, start, k - 1, liveness) || (runs[j].id == rid && ShouldAbort(runs[j], liveness))
  }

  /** The first k steps abort a run with id rid exactly when one of the runs they visit has that id and should be aborted. */
  lemma {:induction false} AbortedWithinVisited(runs: seq<TrainRun>, rid: string, start: nat, k: nat, liveness: map<string, ActorStatus>)
    requires start < |runs| && k <= |runs|
    ensures AbortedWithin(runs, rid, start, k, liveness) <==>
      exists i :: 0 <= i < |runs| && Visited(i, start, k, |runs|) && runs[i].id == rid && ShouldAbort(runs[i], liveness)
    decreases k
  {
    var n := |runs|;
    if k > 0 {
      AbortedWithinVisited(runs, rid, start, k - 1, liveness);
      var j := VisitIndex(start, k - 1, n);
      VisitNext(start, k - 1, n, j);
      if AbortedWithin(runs, rid, start, k, liveness) {
        if !AbortedWithin(runs, rid, start, k - 1, liveness) {
          assert Visited(j, start, k, n) && runs[j].id == rid && ShouldAbort(runs[j], liveness);
        }
      } else {
        forall i | 0 <= i < n && Visited(i, start, k, n) && runs[i].id == rid
          ensures !ShouldAbort(runs[i], liveness)
        {
          if i != j {
            assert Visited(i, start, k - 1, n);
          }
        }
      }
    }
  }

  /** Invariant of the round-robin pass over the attempt tables after k steps. */
  ghost predicate AttemptsAfterSteps(runs0: seq<TrainRun>, attempts0: map<string, seq<TrainRunAttempt>>,
                                     attempts: map<string, seq<TrainRunAttempt>>, start: nat, k: nat,
                                     liveness: map<string, ActorStatus>, detail: string, now: nat)
  {
    && start < |runs0| && k <= |runs0|
    && (forall rid :: rid in attempts <==> rid in attempts0)
    && (forall rid :: rid in attempts0 ==>
          attempts[rid] ==
            if AbortedWithin(runs0, rid, start, k, liveness) then AbortLastAttempt(attempts0[rid], detail, now)
            else attempts0[rid])
  }

  /** With distinct run ids, the reconciliation aborts the last attempt of exactly the runs it aborts. */
  lemma SweptAttemptsOfRun(runs0: seq<TrainRun>, attempts0: map<string, seq<TrainRunAttempt>>,
                           runs: seq<TrainRun>, attempts: map<string, seq<TrainRunAttempt>>,
                           liveness: map<string, ActorStatus>, detail: string, now: nat, i: nat)
    requires DistinctKeys(runs0, RunKey) && SweptAll(runs0, attempts0, runs, attempts, liveness, detail, now)
    requires i < |runs0| && runs0[i].id in attempts0
    ensures attempts[runs0[i].id] ==
      if ShouldAbort(runs0[i], liveness) then AbortLastAttempt(attempts0[runs0[i].id], detail, now)
      else attempts0[runs0[i].id]
  {
    DistinctIds(runs0, i);
    if !ShouldAbort(runs0[i], liveness) {
      assert !AbortsRun(runs0, runs0[i].id, liveness);
    }
  }

  /** Distinct keys: no other run shares the id of the run at index j. */
  lemma DistinctIds(runs: seq<TrainRun>, j: nat)
    requires DistinctKeys(runs, RunKey) && j < |runs|
    ensures forall i :: 0 <= i < |runs| && i != j ==> runs[i].id != runs[j].id
  {
    forall i | 0 <= i < |runs| && i != j ensures runs[i].id != runs[j].id {
      if i < j { assert RunKey(runs[i]) != RunKey(runs[j]); } else { assert RunKey(runs[j]) != RunKey(runs[i]); }
    }
  }
}
